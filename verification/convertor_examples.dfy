/** The converter's unit-test scenarios, stated for every decoder that
    decodes the fixture's base64 text correctly. */
module ConvertorExamples {
  import opened Wrappers
  import opened Secrets
  import opened Text
  import opened SpotConvertor

  /** base64 of "test-token". */
  const TokenBase64: string := "dGVzdC10b2tlbg=="
  /** base64 of "test-spot-token". */
  const IdBase64: string := "dGVzdC1zcG90LXRva2Vu"
  const FixtureDescription: string := "Spot personal access token from Kubernetes"
  /** A field value that is not base64 text. */
  const CorruptText: string := "not base64!"

  /** The valid fixture secret. */
  const ValidSecret: SecretRecord := SecretRecord(
    "valid",
    map[],
    map[],
    Some(map[TokenField := TokenBase64, IdField := IdBase64]))

  /** The type test: the converter's own type is accepted and "something" is not. */
  lemma CanConvertScenario()
    ensures CanConvert("spotPersonalAccessToken")
    ensures !CanConvert("something")
    ensures !CanConvert("SpotPersonalAccessToken") && !CanConvert("")
  {
  }

  /** The valid-secret test: id "test-spot-token", token "test-token", global
      scope and the fixture's description, with id and token not swapped. */
  lemma ValidSecretScenario(utils: Helpers)
    requires utils.decode(TokenBase64) == Some("test-token")
    requires utils.decode(IdBase64) == Some("test-spot-token")
    requires utils.scopeOf(ValidSecret) == Global
    requires utils.descriptionOf(ValidSecret) == FixtureDescription
    ensures Convert(ValidSecret, utils)
      == Success(Credential(Global, "test-spot-token", "test-token", FixtureDescription))
  {
  }

  /** The corrupt-token test: once the token fails to decode, the message
      mentions "invalid personalAccessToken" whatever the id field holds. */
  lemma CorruptTokenScenario(utils: Helpers, idEntry: string)
    requires utils.decode(CorruptText) == None
    ensures Convert(ValidSecret.(data := Some(map[TokenField := CorruptText, IdField := idEntry])), utils)
      == Failure(InvalidToken)
    ensures Contains(Message(InvalidToken), "invalid personalAccessToken")
  {
    assert Fragment(InvalidToken) == "invalid personalAccessToken";
  }

  /** The missing-token test: a secret with only the id field. */
  lemma MissingTokenScenario(utils: Helpers)
    ensures Convert(ValidSecret.(data := Some(map[IdField := IdBase64])), utils) == Failure(MissingToken)
    ensures Contains(Message(MissingToken), "missing the personalAccessToken")
  {
    assert TokenField !in map[IdField := IdBase64];
    assert Fragment(MissingToken) == "missing the personalAccessToken";
  }

  /** The missing-id test: a secret with only a valid token field. */
  lemma MissingIdScenario(utils: Helpers)
    requires utils.decode(TokenBase64) == Some("test-token")
    ensures Convert(ValidSecret.(data := Some(map[TokenField := TokenBase64])), utils) == Failure(MissingId)
    ensures Contains(Message(MissingId), "missing the credentialsId")
  {
    assert IdField !in map[TokenField := TokenBase64];
    assert Fragment(MissingId) == "missing the credentialsId";
  }

  /** The corrupt-id test: a valid token and an id that does not decode. */
  lemma CorruptIdScenario(utils: Helpers)
    requires utils.decode(TokenBase64) == Some("test-token")
    requires utils.decode(CorruptText) == None
    ensures Convert(ValidSecret.(data := Some(map[TokenField := TokenBase64, IdField := CorruptText])), utils)
      == Failure(InvalidId)
    ensures Contains(Message(InvalidId), "invalid credentialsId")
  {
    assert Fragment(InvalidId) == "invalid credentialsId";
  }

  /** The empty-secret test: a secret without a data map. */
  lemma VoidSecretScenario(utils: Helpers)
    ensures Convert(ValidSecret.(data := None), utils) == Failure(NoData)
    ensures Contains(Message(NoData), "contains no data")
  {
  }
}

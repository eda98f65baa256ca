/** Properties of Convert that relate several records or pin down the
    credential it builds. */
module ConvertorProperties {
  import opened Wrappers
  import opened Secrets
  import opened SpotConvertor

  /** Convert yields credential `c` exactly when the record has data, both
      fields are present and decode, the id is the decoded credentialsId, the
      token is the decoded personalAccessToken, and scope and description
      come from the helpers applied to the same record. */
  lemma ConvertSucceedsWith(secret: SecretRecord, utils: Helpers, c: Credential)
    ensures Convert(secret, utils) == Success(c) <==>
      && secret.data.Some?
      && TokenField in secret.data.value
      && IdField in secret.data.value
      && utils.decode(secret.data.value[TokenField]) == Some(c.token)
      && utils.decode(secret.data.value[IdField]) == Some(c.id)
      && c.scope == utils.scopeOf(secret)
      && c.description == utils.descriptionOf(secret)
  {
  }

  /** A token error is reported whatever the credentialsId entry holds: the
      id field is not looked at until the token has been decoded. */
  lemma TokenErrorsIgnoreIdField(secret: SecretRecord, utils: Helpers, entry: Option<string>)
    requires Convert(secret, utils) == Failure(MissingToken) || Convert(secret, utils) == Failure(InvalidToken)
    ensures Convert(WithField(secret, IdField, entry), utils) == Convert(secret, utils)
  {
  }

  /** Data fields other than personalAccessToken and credentialsId have no
      effect on the outcome, as long as the metadata helpers see no change. */
  lemma OtherFieldsIgnored(secret: SecretRecord, utils: Helpers, key: string, entry: Option<string>)
    requires key != TokenField && key != IdField
    requires utils.scopeOf(WithField(secret, key, entry)) == utils.scopeOf(secret)
    requires utils.descriptionOf(WithField(secret, key, entry)) == utils.descriptionOf(secret)
    ensures Convert(WithField(secret, key, entry), utils) == Convert(secret, utils)
  {
  }

  /** A record whose data map is present but empty is reported as missing
      the personalAccessToken, not as containing no data: only an absent map
      counts as no data. */
  lemma EmptyDataReportsMissingToken(secret: SecretRecord, utils: Helpers)
    requires secret.data == Some(map[])
    ensures Convert(secret, utils) == Failure(MissingToken)
  {
  }

  /** Fields that decode to the empty string are accepted: the converter
      checks only that decoding succeeds. */
  lemma EmptyDecodedValuesAccepted(secret: SecretRecord, utils: Helpers)
    requires secret.data.Some?
    requires TokenField in secret.data.value && IdField in secret.data.value
    requires utils.decode(secret.data.value[TokenField]) == Some("")
    requires utils.decode(secret.data.value[IdField]) == Some("")
    ensures Convert(secret, utils).Success?
    ensures Convert(secret, utils).value.id == "" && Convert(secret, utils).value.token == ""
  {
  }
}

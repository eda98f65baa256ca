/** The converter from a Kubernetes secret of type "spotPersonalAccessToken"
    to a Spot personal access token credential. */
module SpotConvertor {
  import opened Wrappers
  import opened Secrets
  import opened Text

  /** The type discriminator this converter accepts. */
  const TypeName: string := "spotPersonalAccessToken"
  /** The data field holding the base64 token. */
  const TokenField: string := "personalAccessToken"
  /** The data field holding the base64 credential id. */
  const IdField: string := "credentialsId"

  /** Which of the converter's checks rejected the secret, in check order. */
  datatype ConvError = NoData | MissingToken | InvalidToken | MissingId | InvalidId

  /** The credential produced on success; `token` is the secret value. */
  datatype Credential = Credential(
    scope: CredentialsScope,
    id: string,
    token: string,
    description: string)

  /** The text every decode failure message ends with. */
  const EncodingHint: string := " (must be base64 encoded UTF-8)"

  /** The text each message has before its fragment. */
  function Lead(e: ConvError): string
  {
    match e
    case NoData => TypeName + " definition "
    case MissingToken | MissingId => TypeName + " credential is "
    case InvalidToken | InvalidId => TypeName + " credential has an "
  }

  /** The text each message has after its fragment. */
  function Tail(e: ConvError): string
  {
    match e
    case NoData | MissingToken | MissingId => ""
    case InvalidToken | InvalidId => EncodingHint
  }

  /** The message the converter's exception carries for each error. */
  function Message(e: ConvError): (m: string)
    ensures |TypeName| <= |m| && m[..|TypeName|] == TypeName
    ensures Contains(m, Fragment(e))
  {
    ContainsMiddle(Lead(e), Fragment(e), Tail(e));
    Lead(e) + Fragment(e) + Tail(e)
  }

  /** The part of each message that callers match on: the failure kind and
      the field it concerns. */
  function Fragment(e: ConvError): string
  {
    match e
    case NoData => "contains no data"
    case MissingToken => "missing the " + TokenField
    case InvalidToken => "invalid " + TokenField
    case MissingId => "missing the " + IdField
    case InvalidId => "invalid " + IdField
  }

  /** Whether this converter handles secrets of the given type. */
  predicate CanConvert(kind: string)
  {
    TypeName == kind
  }

  /** Converts a secret: data must be present, then the token field must be
      present and decode, then the id field must be present and decode; the
      first check that fails decides the error. */
  function Convert(secret: SecretRecord, utils: Helpers): (r: Result<Credential, ConvError>)
    ensures secret.data.None? ==> r == Failure(NoData)
    ensures r.Success? ==>
      && secret.data.Some?
      && TokenField in secret.data.value
      && IdField in secret.data.value
      && utils.decode(secret.data.value[TokenField]) == Some(r.value.token)
      && utils.decode(secret.data.value[IdField]) == Some(r.value.id)
      && r.value.scope == utils.scopeOf(secret)
      && r.value.description == utils.descriptionOf(secret)
  {
    var data :- RequireNonNull(secret.data, NoData);
    var tokenBase64 :- GetNonNullSecretData(data, TokenField, MissingToken);
    var token :- RequireNonNull(utils.decode(tokenBase64), InvalidToken);
    var idBase64 :- GetNonNullSecretData(data, IdField, MissingId);
    var id :- RequireNonNull(utils.decode(idBase64), InvalidId);
    Success(Credential(utils.scopeOf(secret), id, token, utils.descriptionOf(secret)))
  }

  /** The exact-match rule: one discriminator is accepted and every other
      string, including case variants and the empty string, is refused. */
  lemma CanConvertExactly(kind: string)
    ensures CanConvert(kind) <==> kind == "spotPersonalAccessToken"
  {
  }

  /** A message names the id field exactly when one of the id checks failed,
      so a token or no-data message never mentions credentialsId. */
  lemma MessageNamesIdField(e: ConvError)
    ensures Contains(Message(e), IdField) <==> e.MissingId? || e.InvalidId?
  {
    match e
    case MissingId | InvalidId =>
      var head := if e.MissingId? then "missing the " else "invalid ";
      ContainsMiddle(head, IdField, "");
      assert head + IdField + "" == Fragment(e);
      ContainsTransitive(Message(e), Fragment(e), IdField);
    case NoData | MissingToken | InvalidToken =>
      assert 'I' !in Lead(e) && 'I' !in Fragment(e) && 'I' !in Tail(e);
      assert 'I' !in Message(e);
      AbsentCharacter(Message(e), IdField, 11);
  }

  /** A message says "missing" exactly when a required field was absent. */
  lemma MessageSaysMissing(e: ConvError)
    ensures Contains(Message(e), "missing") <==> e.MissingToken? || e.MissingId?
  {
    match e
    case MissingToken | MissingId =>
      var field := if e.MissingToken? then TokenField else IdField;
      ContainsMiddle("", "missing", " the " + field);
      assert "" + "missing" + (" the " + field) == Fragment(e);
      ContainsTransitive(Message(e), Fragment(e), "missing");
    case NoData | InvalidToken | InvalidId =>
      assert 'g' !in Lead(e) && 'g' !in Fragment(e) && 'g' !in Tail(e);
      assert 'g' !in Message(e);
      AbsentCharacter(Message(e), "missing", 6);
  }

  /** A message says "invalid" exactly when a field was present but did not decode. */
  lemma MessageSaysInvalid(e: ConvError)
    ensures Contains(Message(e), "invalid") <==> e.InvalidToken? || e.InvalidId?
  {
    match e
    case InvalidToken | InvalidId =>
      var field := if e.InvalidToken? then TokenField else IdField;
      ContainsMiddle("", "invalid", " " + field);
      assert "" + "invalid" + (" " + field) == Fragment(e);
      ContainsTransitive(Message(e), Fragment(e), "invalid");
    case NoData | MissingToken | MissingId =>
      assert 'v' !in Lead(e) && 'v' !in Fragment(e) && 'v' !in Tail(e);
      assert 'v' !in Message(e);
      AbsentCharacter(Message(e), "invalid", 2);
  }

  /** Reads back which check failed from an exception message, the way a
      caller matching on message text does. */
  function ErrorOfMessage(m: string): Option<ConvError>
  {
    if Contains(m, "missing") then
      Some(if Contains(m, IdField) then MissingId else MissingToken)
    else if Contains(m, "invalid") then
      Some(if Contains(m, IdField) then InvalidId else InvalidToken)
    else if Contains(m, Fragment(NoData)) then
      Some(NoData)
    else
      None
  }

  /** Every error's message identifies that error and no other. */
  lemma MessageIdentifiesError(e: ConvError)
    ensures ErrorOfMessage(Message(e)) == Some(e)
  {
    MessageNamesIdField(e);
    MessageSaysMissing(e);
    MessageSaysInvalid(e);
  }
}

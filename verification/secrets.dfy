/** The secret record handed to a converter and the helper operations
    that converters share. */
module Secrets {
  import opened Wrappers

  /** Where a credential is visible. */
  datatype CredentialsScope = System | Global | User

  /** A Kubernetes secret as a converter sees it: metadata plus an optional
      map from field name to the field's base64 text. */
  datatype SecretRecord = SecretRecord(
    name: string,
    labels: map<string, string>,
    annotations: map<string, string>,
    data: Option<map<string, string>>)

  /** The shared helpers whose definitions are not part of this model.
      `decode` turns base64 text into a UTF-8 string and yields None when the
      text is not base64 or the bytes are not UTF-8; `scopeOf` and
      `descriptionOf` derive credential metadata from the record. Every
      property below holds whichever functions are supplied. */
  datatype Helpers = Helpers(
    decode: string -> Option<string>,
    scopeOf: SecretRecord -> CredentialsScope,
    descriptionOf: SecretRecord -> string)

  /** Passes a present value through and turns an absent one into `err`. */
  function RequireNonNull<T, E>(value: Option<T>, err: E): (r: Result<T, E>)
    ensures r.Success? <==> value.Some?
    ensures r.Success? ==> r.value == value.value
    ensures r.Failure? ==> r.error == err
  {
    match value
    case Some(v) => Success(v)
    case None => Failure(err)
  }

  /** Looks up a required field of a secret's data, failing with `err`
      when the field is absent. */
  function GetNonNullSecretData<E>(data: map<string, string>, key: string, err: E): (r: Result<string, E>)
    ensures r.Success? <==> key in data
    ensures r.Success? ==> r.value == data[key]
    ensures r.Failure? ==> r.error == err
  {
    if key in data then Success(data[key]) else Failure(err)
  }

  /** The record with the data entry for `key` set to `entry`, or removed
      when `entry` is None; a record without data is left without data. */
  function WithField(secret: SecretRecord, key: string, entry: Option<string>): (r: SecretRecord)
    ensures r.data.Some? <==> secret.data.Some?
    ensures r.data.Some? ==> (key in r.data.value <==> entry.Some?)
    ensures r.data.Some? && entry.Some? ==> r.data.value[key] == entry.value
    ensures r.data.Some? ==> forall k | k != key :: (k in r.data.value <==> k in secret.data.value)
    ensures r.data.Some? ==> forall k | k != key && k in r.data.value :: r.data.value[k] == secret.data.value[k]
  {
    match secret.data
    case None => secret
    case Some(d) =>
      match entry
      case Some(v) => secret.(data := Some(d[key := v]))
      case None => secret.(data := Some(d - {key}))
  }
}

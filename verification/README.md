# Spot personal access token converter

A Dafny model of `SpotPersonalAccessTokenConvertor`, the converter of the
Kubernetes credentials provider that turns a Kubernetes secret of type
`spotPersonalAccessToken` into a Spot personal access token credential.

The converter has two operations:

- `canConvert(type)`: an exact string comparison with `"spotPersonalAccessToken"`.
- `convert(secret)`: five short-circuiting checks, then construction of the credential.
  1. the secret has a data map;
  2. the data holds `personalAccessToken`;
  3. that field decodes as base64 to UTF-8;
  4. the data holds `credentialsId`;
  5. that field decodes the same way.

  The credential takes its id from the decoded `credentialsId` and its token from the
  decoded `personalAccessToken`. Its scope and description come from shared helpers
  applied to the same secret.

Layout:

- `wrappers.dfy` (`Wrappers`): `Option` and `Result`.
  A Java exception becomes a `Failure`; a null reference becomes `None`.
- `secrets.dfy` (`Secrets`): the secret record, the credential scope, and the shared helpers.
  `RequireNonNull` and `GetNonNullSecretData` are modelled.
  The decoder and the metadata helpers are function-valued fields of `Helpers`.
  Every property is therefore proved for any decoder and any metadata derivation.
- `text.dfy` (`Text`): substring containment, the relation the tests use on exception messages.
- `spot_convertor.dfy` (`SpotConvertor`): the converter itself, its error kinds and their messages.
  The messages are built from the source's exact words.
  The pieces are arranged so that the part the tests match on, such as
  `missing the personalAccessToken`, is a named piece, `Fragment`.
- `conversion_order.dfy` (`ConversionOrder`): an independent reference for the validation.
  It is a list of five checks, each judged on its own, with the rule that the first failing one decides.
  Lemmas prove that `Convert` agrees with it.
- `convertor_properties.dfy` (`ConvertorProperties`): exact success conditions,
  independence from unrelated fields, and the edge cases of empty data and empty decoded values.
- `convertor_examples.dfy` (`ConvertorExamples`): the unit-test scenarios.
  Each holds for every decoder that decodes the fixture text correctly.

Two edge cases follow from the code only checking for null:

- A data map that is present but empty is not reported as "contains no data".
  The code only tests the map for null, so an empty map fails with
  "missing the personalAccessToken" (`ConvertorProperties.EmptyDataReportsMissingToken`).
- A field that decodes to the empty string is accepted.
  The code only tests the decoded value for null (`ConvertorProperties.EmptyDecodedValuesAccepted`).

## Model

| member | source | states |
|---|---|---|
| SpotConvertor.CanConvertExactly | src/main/java/com/cloudbees/jenkins/plugins/kubernetes_credentials_provider/convertors/SpotioPATConvertor.java:37-39 | the converter accepts a type exactly when it equals "spotPersonalAccessToken" |
| Secrets.RequireNonNull | src/main/java/com/cloudbees/jenkins/plugins/kubernetes_credentials_provider/convertors/SpotioPATConvertor.java:43-49 | a null check succeeds exactly when the value is present, passes the value through unchanged, and otherwise fails with the error it was given |
| Secrets.GetNonNullSecretData | src/main/java/com/cloudbees/jenkins/plugins/kubernetes_credentials_provider/convertors/SpotioPATConvertor.java:45-48 | a required-field lookup succeeds exactly when the key is in the data map, yields that key's value, and otherwise fails with the error it was given |
| SpotConvertor.Convert | src/main/java/com/cloudbees/jenkins/plugins/kubernetes_credentials_provider/convertors/SpotioPATConvertor.java:42-61 | a secret without data fails with NoData; a success implies the data map is present, both fields are present, the id decodes from credentialsId, the token decodes from personalAccessToken, and scope and description come from the helpers |
| SpotConvertor.Message | src/main/java/com/cloudbees/jenkins/plugins/kubernetes_credentials_provider/convertors/SpotioPATConvertor.java:43-49 | every exception message starts with the type name and contains the fragment its test matches on |
| SpotConvertor.MessageNamesIdField | src/main/java/com/cloudbees/jenkins/plugins/kubernetes_credentials_provider/convertors/SpotioPATConvertor.java:45-49 | a message mentions credentialsId exactly for the two id errors, so the no-data and token messages never do |
| SpotConvertor.MessageSaysMissing | src/main/java/com/cloudbees/jenkins/plugins/kubernetes_credentials_provider/convertors/SpotioPATConvertor.java:45-48 | a message says "missing" exactly for the two absent-field errors |
| SpotConvertor.MessageSaysInvalid | src/main/java/com/cloudbees/jenkins/plugins/kubernetes_credentials_provider/convertors/SpotioPATConvertor.java:46-49 | a message says "invalid" exactly for the two decode errors |
| SpotConvertor.MessageIdentifiesError | src/main/java/com/cloudbees/jenkins/plugins/kubernetes_credentials_provider/convertors/SpotioPATConvertor.java:43-49 | reading a message back by its words recovers the error it was made for, so distinct errors have distinguishable messages |
| ConversionOrder.FirstFailureIsFirst | src/main/java/com/cloudbees/jenkins/plugins/kubernetes_credentials_provider/convertors/SpotioPATConvertor.java:43-49 | taking the first failing check yields nothing exactly when every check passes, and otherwise yields a failing check with no failing check before it |
| ConversionOrder.ConvertReportsFirstFailure | src/main/java/com/cloudbees/jenkins/plugins/kubernetes_credentials_provider/convertors/SpotioPATConvertor.java:43-60 | Convert succeeds exactly when no check in the order data, token present, token decodes, id present, id decodes fails, and otherwise reports the first failing one |
| ConversionOrder.ConvertSucceedsIffAllChecksPass | src/main/java/com/cloudbees/jenkins/plugins/kubernetes_credentials_provider/convertors/SpotioPATConvertor.java:43-60 | Convert succeeds if and only if all five checks pass |
| ConversionOrder.ConvertFailsWith | src/main/java/com/cloudbees/jenkins/plugins/kubernetes_credentials_provider/convertors/SpotioPATConvertor.java:43-49 | Convert fails with error e if and only if check e fails and every check before it passes |
| ConvertorProperties.ConvertSucceedsWith | src/main/java/com/cloudbees/jenkins/plugins/kubernetes_credentials_provider/convertors/SpotioPATConvertor.java:51-60 | Convert returns credential c exactly when the id is the decoded credentialsId, the token is the decoded personalAccessToken, and scope and description are the helpers' values for the same secret; id and token are never swapped |
| ConvertorProperties.TokenErrorsIgnoreIdField | src/main/java/com/cloudbees/jenkins/plugins/kubernetes_credentials_provider/convertors/SpotioPATConvertor.java:45-48 | a missing or invalid token is reported whatever the credentialsId entry holds, including when it is absent |
| ConvertorProperties.OtherFieldsIgnored | src/main/java/com/cloudbees/jenkins/plugins/kubernetes_credentials_provider/convertors/SpotioPATConvertor.java:45-49 | adding, changing or removing any other data field does not change the outcome, provided scope and description are unchanged |
| ConvertorProperties.EmptyDataReportsMissingToken | src/main/java/com/cloudbees/jenkins/plugins/kubernetes_credentials_provider/convertors/SpotioPATConvertor.java:43-45 | an empty but present data map fails with MissingToken, not NoData |
| ConvertorProperties.EmptyDecodedValuesAccepted | src/main/java/com/cloudbees/jenkins/plugins/kubernetes_credentials_provider/convertors/SpotioPATConvertor.java:46-49 | fields that decode to the empty string give a credential with an empty id and token |
| ConvertorExamples.CanConvertScenario | src/test/java/com/cloudbees/jenkins/plugins/kubernetes_credentials_provider/convertors/SpotioPATConvertor.java:50-54 | "spotPersonalAccessToken" is accepted; "something", a case variant and the empty string are refused |
| ConvertorExamples.ValidSecretScenario | src/test/java/com/cloudbees/jenkins/plugins/kubernetes_credentials_provider/convertors/SpotioPATConvertor.java:57-69 | the valid fixture converts to id "test-spot-token", token "test-token", GLOBAL scope and the fixture's description |
| ConvertorExamples.MissingTokenScenario | src/test/java/com/cloudbees/jenkins/plugins/kubernetes_credentials_provider/convertors/SpotioPATConvertor.java:73-83 | a secret without the token fails with MissingToken, whose message contains "missing the personalAccessToken" |
| ConvertorExamples.MissingIdScenario | src/test/java/com/cloudbees/jenkins/plugins/kubernetes_credentials_provider/convertors/SpotioPATConvertor.java:86-96 | a secret with a valid token and no id fails with MissingId, whose message contains "missing the credentialsId" |
| ConvertorExamples.CorruptTokenScenario | src/test/java/com/cloudbees/jenkins/plugins/kubernetes_credentials_provider/convertors/SpotioPATConvertor.java:99-109 | a token that does not decode fails with InvalidToken whatever the id holds; the message contains "invalid personalAccessToken" |
| ConvertorExamples.CorruptIdScenario | src/test/java/com/cloudbees/jenkins/plugins/kubernetes_credentials_provider/convertors/SpotioPATConvertor.java:112-122 | a valid token with an id that does not decode fails with InvalidId; the message contains "invalid credentialsId" |
| ConvertorExamples.VoidSecretScenario | src/test/java/com/cloudbees/jenkins/plugins/kubernetes_credentials_provider/convertors/SpotioPATConvertor.java:125-135 | a secret without data fails with NoData, whose message contains "contains no data" |

## Left out

- Registration as an optional extension of the host and selection of a converter by type are left out.
  They are plumbing of the host framework.
- Reading a secret from YAML and the test's resource loader are left out, because they are input/output.
  The fixtures' contents are not part of this model.
  The test scenarios use records with the shape the test names describe.
- ConvertorExamples.VoidSecretScenario: assumes the empty-secret fixture has no data map at all.
  A present but empty data map fails with MissingToken instead (`ConvertorProperties.EmptyDataReportsMissingToken`).
- The internals of `SecretUtils.base64DecodeToString`, `getCredentialScope` and `getCredentialDescription` are not modelled.
  `SecretUtils` is not part of this model, so these helpers are parameters.
  No base64 or UTF-8 decoder is written.
- `SecretUtils.getNonNullSecretData` is modelled as a plain map lookup.
  A data entry whose value is null cannot be expressed, because Dafny maps hold no null values.
- The `SpotPersonalAccessToken` credential class and the masking of the token as a Jenkins `Secret` are left out.
  The credential is a plain record.
- Java exceptions become `Result` values.
  Each exception is represented by its error kind; `SpotConvertor.Message` gives the text it carries.
- Determinism and idempotence of `convert` get no lemma.
  `Convert` is a Dafny function, so equal inputs always give equal results.
- SpotConvertor.MessageIdentifiesError: recovers the error from the words "missing", "invalid", "credentialsId" and "contains no data".
  It does not prove that a fragment such as "missing the personalAccessToken" is absent from every other error's message.

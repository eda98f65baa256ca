/** An independent description of the converter's validation: a fixed list
    of checks, each judged on its own, and the rule that the first failing
    check in the list decides the error. */
module ConversionOrder {
  import opened Wrappers
  import opened Secrets
  import opened SpotConvertor

  /** The order in which the converter performs its checks. */
  const CheckOrder: seq<ConvError> := [NoData, MissingToken, InvalidToken, MissingId, InvalidId]

  /** The position of a check in `CheckOrder`. */
  function Rank(e: ConvError): (n: nat)
    ensures n < |CheckOrder| && CheckOrder[n] == e
  {
    match e
    case NoData => 0
    case MissingToken => 1
    case InvalidToken => 2
    case MissingId => 3
    case InvalidId => 4
  }

  /** Whether the check that reports `check` rejects the secret, judged on the
      record alone: a field check can only reject a record that has data, and
      a decode check only a field that is present. */
  predicate Fails(check: ConvError, secret: SecretRecord, utils: Helpers)
  {
    match check
    case NoData => secret.data.None?
    case MissingToken => secret.data.Some? && TokenField !in secret.data.value
    case InvalidToken =>
      secret.data.Some? && TokenField in secret.data.value
      && utils.decode(secret.data.value[TokenField]).None?
    case MissingId => secret.data.Some? && IdField !in secret.data.value
    case InvalidId =>
      secret.data.Some? && IdField in secret.data.value
      && utils.decode(secret.data.value[IdField]).None?
  }

  /** The first check in `checks` that rejects the secret, if any. */
  function FirstFailure(checks: seq<ConvError>, secret: SecretRecord, utils: Helpers): Option<ConvError>
  {
    if |checks| == 0 then None
    else if Fails(checks[0], secret, utils) then Some(checks[0])
    else FirstFailure(checks[1..], secret, utils)
  }

  /** FirstFailure finds nothing exactly when every check passes, and what it
      finds is a failing check with no failing check before it. */
  lemma {:induction false} FirstFailureIsFirst(checks: seq<ConvError>, secret: SecretRecord, utils: Helpers)
    ensures FirstFailure(checks, secret, utils).None?
        <==> forall i | 0 <= i < |checks| :: !Fails(checks[i], secret, utils)
    ensures FirstFailure(checks, secret, utils).Some? ==>
      exists i | 0 <= i < |checks| ::
        && checks[i] == FirstFailure(checks, secret, utils).value
        && Fails(checks[i], secret, utils)
        && forall j | 0 <= j < i :: !Fails(checks[j], secret, utils)
  {
    if |checks| == 0 {
    } else if Fails(checks[0], secret, utils) {
      assert checks[0] == FirstFailure(checks, secret, utils).value;
    } else {
      var rest := checks[1..];
      FirstFailureIsFirst(rest, secret, utils);
      assert forall i | 1 <= i < |checks| :: checks[i] == rest[i - 1];
      if FirstFailure(rest, secret, utils).Some? {
        var i :| 0 <= i < |rest| && rest[i] == FirstFailure(rest, secret, utils).value
          && Fails(rest[i], secret, utils)
          && forall j | 0 <= j < i :: !Fails(rest[j], secret, utils);
        assert checks[i + 1] == rest[i];
        assert forall j | 0 <= j < i + 1 :: !Fails(checks[j], secret, utils) by {
          forall j | 0 <= j < i + 1
            ensures !Fails(checks[j], secret, utils)
          {
            if j > 0 {
              assert checks[j] == rest[j - 1];
            }
          }
        }
      } else {
        forall i | 0 <= i < |checks|
          ensures !Fails(checks[i], secret, utils)
        {
          if i > 0 {
            assert checks[i] == rest[i - 1];
          }
        }
      }
    }
  }

  /** Convert reports exactly the first failing check of `CheckOrder`, and
      succeeds exactly when none fails. */
  lemma ConvertReportsFirstFailure(secret: SecretRecord, utils: Helpers)
    ensures Convert(secret, utils).Success? <==> FirstFailure(CheckOrder, secret, utils).None?
    ensures Convert(secret, utils).Failure? ==>
      FirstFailure(CheckOrder, secret, utils) == Some(Convert(secret, utils).error)
  {
    var idDecodes := [InvalidId];
    var idChecks := [MissingId, InvalidId];
    var tokenDecodes := [InvalidToken] + idChecks;
    var tokenChecks := [MissingToken] + tokenDecodes;
    assert CheckOrder[1..] == tokenChecks && tokenChecks[1..] == tokenDecodes;
    assert tokenDecodes[1..] == idChecks && idChecks[1..] == idDecodes && idDecodes[1..] == [];
    assert FirstFailure(idDecodes, secret, utils)
      == if Fails(InvalidId, secret, utils) then Some(InvalidId) else None;
    assert FirstFailure(idChecks, secret, utils)
      == if Fails(MissingId, secret, utils) then Some(MissingId) else FirstFailure(idDecodes, secret, utils);
    assert FirstFailure(tokenDecodes, secret, utils)
      == if Fails(InvalidToken, secret, utils) then Some(InvalidToken) else FirstFailure(idChecks, secret, utils);
    assert FirstFailure(tokenChecks, secret, utils)
      == if Fails(MissingToken, secret, utils) then Some(MissingToken) else FirstFailure(tokenDecodes, secret, utils);
  }

  /** Convert succeeds exactly when every one of the five checks passes. */
  lemma ConvertSucceedsIffAllChecksPass(secret: SecretRecord, utils: Helpers)
    ensures Convert(secret, utils).Success? <==> forall e :: !Fails(e, secret, utils)
  {
    ConvertReportsFirstFailure(secret, utils);
    FirstFailureIsFirst(CheckOrder, secret, utils);
    if Convert(secret, utils).Success? {
      forall e
        ensures !Fails(e, secret, utils)
      {
        assert CheckOrder[Rank(e)] == e;
      }
    }
  }

  /** Convert fails with `e` exactly when check `e` fails and every check
      ranked before it passes: with several defects, only the first one in
      check order is reported. */
  lemma ConvertFailsWith(secret: SecretRecord, utils: Helpers, e: ConvError)
    ensures Convert(secret, utils) == Failure(e) <==>
      && Fails(e, secret, utils)
      && forall earlier :: Rank(earlier) < Rank(e) ==> !Fails(earlier, secret, utils)
  {
    ConvertReportsFirstFailure(secret, utils);
    FirstFailureIsFirst(CheckOrder, secret, utils);
    if Fails(e, secret, utils) && forall earlier :: Rank(earlier) < Rank(e) ==> !Fails(earlier, secret, utils) {
      assert forall j | 0 <= j < Rank(e) :: Rank(CheckOrder[j]) == j;
      if FirstFailure(CheckOrder, secret, utils).Some? {
        var f := FirstFailure(CheckOrder, secret, utils).value;
        var i :| 0 <= i < |CheckOrder| && CheckOrder[i] == f && Fails(CheckOrder[i], secret, utils)
          && forall j | 0 <= j < i :: !Fails(CheckOrder[j], secret, utils);
        assert Rank(f) == i;
        assert CheckOrder[Rank(e)] == e;
      }
    }
    if Convert(secret, utils) == Failure(e) {
      var i :| 0 <= i < |CheckOrder| && CheckOrder[i] == e && Fails(CheckOrder[i], secret, utils)
        && forall j | 0 <= j < i :: !Fails(CheckOrder[j], secret, utils);
      assert Rank(e) == i;
      forall earlier | Rank(earlier) < Rank(e)
        ensures !Fails(earlier, secret, utils)
      {
        assert CheckOrder[Rank(earlier)] == earlier;
      }
    }
  }
}

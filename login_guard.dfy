/**
 * The login guard (careernavigator/util/api.py, log_failure._Wrap.validate_values):
 * the order in which a token request consults the failed-login ledger,
 * validates credentials and reports a failure.
 *
 * Credential validation is a foreign call; it is modelled by how it ends,
 * a `Validation`.
 */
module LoginGuard {
  import opened Wrappers
  import opened ClientAddress
  import opened FailedLogins

  /** The calls an attempt makes, in order. */
  datatype Step = CheckBlocked | ValidateCredentials | ReportFailure

  /** How the parent validate_values ends: it returns, it raises
   * AuthenticationFailed, or it raises some other exception. */
  datatype Validation = Accepted | Refused | Errored

  /** Tokens are issued, AuthenticationFailed is raised, or another
   * exception leaves the guard uncaught. */
  datatype Outcome = Granted | AuthenticationFailed | OtherError

  /** One attempt: its outcome, the calls it made, and the ledger after it. */
  datatype Turn = Turn(outcome: Outcome, steps: seq<Step>, ledger: Table)

  /** One login try: how credential validation would end, and when. */
  datatype Try = Try(result: Validation, at: int)

  /** The effect of one token request on ledger `t`. */
  function AttemptSpec(t: Table, addr: Address, credentials: Validation, now: int): (turn: Turn)
    ensures |turn.steps| >= 1 && turn.steps[0] == CheckBlocked
    ensures VerdictOf(t, Normalize(addr), now) == Blocked <==> ValidateCredentials !in turn.steps
    ensures ValidateCredentials !in turn.steps ==>
              turn.steps == [CheckBlocked] && turn.outcome == AuthenticationFailed
    ensures ValidateCredentials in turn.steps ==> turn.steps[..2] == [CheckBlocked, ValidateCredentials]
    ensures turn.outcome == Granted <==> credentials == Accepted && ValidateCredentials in turn.steps
    ensures turn.outcome == OtherError <==> credentials == Errored && ValidateCredentials in turn.steps
    ensures ReportFailure in turn.steps <==> credentials == Refused && ValidateCredentials in turn.steps
    ensures ReportFailure in turn.steps ==> turn.steps == [CheckBlocked, ValidateCredentials, ReportFailure]
    ensures ReportFailure !in turn.steps ==> |turn.steps| <= 2
    ensures multiset(turn.steps)[ReportFailure] <= 1
    ensures ReportFailure !in turn.steps ==> turn.ledger == AfterCheck(t, Normalize(addr), now)
    ensures turn.outcome == Granted ==> turn.ledger == t
  {
    var key := Normalize(addr);
    var checked := AfterCheck(t, key, now);
    if VerdictOf(t, key, now).Truthy() then
      Turn(AuthenticationFailed, [CheckBlocked], checked)
    else
      match credentials
      case Accepted => Turn(Granted, [CheckBlocked, ValidateCredentials], checked)
      case Refused =>
        Turn(AuthenticationFailed, [CheckBlocked, ValidateCredentials, ReportFailure], AfterFailure(checked, key, now))
      case Errored => Turn(OtherError, [CheckBlocked, ValidateCredentials], checked)
  }

  /**
   * validate_values: refuse a blocked address before looking at the
   * credentials; when validation raises AuthenticationFailed, report the
   * failure once and re-raise; any other exception passes through without
   * a report; on success leave the ledger alone.
   */
  method Attempt(ledger: Ledger, addr: Address, credentials: Validation, now: int)
    returns (outcome: Outcome, steps: seq<Step>)
    requires ledger.Valid()
    modifies ledger
    ensures ledger.Valid()
    ensures Turn(outcome, steps, ledger.records) == AttemptSpec(old(ledger.records), addr, credentials, now)
  {
    steps := [CheckBlocked];
    var failure := ledger.IsBlocked(addr, now);
    if failure.Truthy() {
      return AuthenticationFailed, steps;
    }
    steps := steps + [ValidateCredentials];
    match credentials
    case Refused =>
      steps := steps + [ReportFailure];
      // the falsy verdict is passed on as `failure`, so no record is handed over
      var passed: Option<Address> := None;
      var _ := ledger.ReportFailure(addr, passed, now);
      outcome := AuthenticationFailed;
    case Errored =>
      // not an AuthenticationFailed: the except clause does not catch it
      outcome := OtherError;
    case Accepted =>
      outcome := Granted;
  }

  /** Several requests from one address, and what they produce together. */
  datatype Log = Log(outcomes: seq<Outcome>, steps: seq<Step>, ledger: Table)

  function Replay(t: Table, addr: Address, tries: seq<Try>): (log: Log)
    ensures |log.outcomes| == |tries|
    decreases |tries|
  {
    if tries == [] then Log([], [], t)
    else
      var turn := AttemptSpec(t, addr, tries[0].result, tries[0].at);
      var rest := Replay(turn.ledger, addr, tries[1..]);
      Log([turn.outcome] + rest.outcomes, turn.steps + rest.steps, rest.ledger)
  }

  /** No gap of more than one hour between consecutive tries. */
  predicate Paced(tries: seq<Try>) {
    forall i :: 0 < i < |tries| ==> tries[i].at <= tries[i - 1].at + Hour
  }

  /** The address is in the clear state at `now`: no record, or a stale one. */
  predicate Clear(t: Table, key: Address, now: int) {
    key !in t || Stale(t[key], now)
  }

  /** The count a record carries into an attempt at `now`, zero when clear. */
  function Carried(t: Table, key: Address, now: int): (c: int)
    ensures Clear(t, key, now) ==> c == 0
  {
    if Clear(t, key, now) then 0 else t[key].attempts
  }

  /** A failed attempt, whether refused by the guard or by the credentials,
   * changes the ledger exactly as report_failure does. */
  lemma FailedAttemptIsOneFailure(t: Table, addr: Address, now: int)
    ensures AttemptSpec(t, addr, Refused, now).ledger == AfterFailure(t, Normalize(addr), now)
    ensures AttemptSpec(t, addr, Refused, now).ledger[Normalize(addr)]
              == Record(now, Carried(t, Normalize(addr), now) + 1)
  {
  }

  /** Each wrong try in a paced run adds exactly one to the count. */
  lemma {:induction false} WrongTriesCount(t: Table, addr: Address, tries: seq<Try>)
    requires tries != [] && Paced(tries)
    requires forall i :: 0 <= i < |tries| ==> tries[i].result == Refused
    ensures Normalize(addr) in Replay(t, addr, tries).ledger
    ensures Replay(t, addr, tries).ledger[Normalize(addr)]
              == Record(tries[|tries| - 1].at, Carried(t, Normalize(addr), tries[0].at) + |tries|)
    ensures forall i :: 0 <= i < |tries| ==> Replay(t, addr, tries).outcomes[i] == AuthenticationFailed
    decreases |tries|
  {
    var key := Normalize(addr);
    FailedAttemptIsOneFailure(t, addr, tries[0].at);
    var turn := AttemptSpec(t, addr, Refused, tries[0].at);
    var rest := Replay(turn.ledger, addr, tries[1..]);
    var log := Replay(t, addr, tries);
    assert log == Log([turn.outcome] + rest.outcomes, turn.steps + rest.steps, rest.ledger);
    assert turn.outcome == AuthenticationFailed;
    if |tries| > 1 {
      assert tries[1].at <= tries[0].at + Hour;
      assert Carried(turn.ledger, key, tries[1].at) == Carried(t, key, tries[0].at) + 1;
      WrongTriesCount(turn.ledger, addr, tries[1..]);
      forall i | 0 < i < |tries| ensures log.outcomes[i] == AuthenticationFailed {
        assert log.outcomes[i] == rest.outcomes[i - 1];
      }
    }
  }

  /**
   * The threshold: after n wrong tries from the clear state, none more than
   * an hour apart, a correct login within the hour is granted (credentials
   * checked, ledger untouched) exactly when n <= 10; otherwise it is
   * refused before the credentials are looked at.
   */
  lemma LoginThreshold(t: Table, addr: Address, tries: seq<Try>, login: int)
    requires Paced(tries + [Try(Accepted, login)])
    requires Clear(t, Normalize(addr), (tries + [Try(Accepted, login)])[0].at)
    requires forall i :: 0 <= i < |tries| ==> tries[i].result == Refused
    ensures var before := Replay(t, addr, tries).ledger;
            var turn := AttemptSpec(before, addr, Accepted, login);
            && (turn.outcome == Granted <==> |tries| <= Threshold)
            && (|tries| <= Threshold ==> turn.steps == [CheckBlocked, ValidateCredentials] && turn.ledger == before)
            && (|tries| > Threshold ==> turn.steps == [CheckBlocked])
  {
    var key := Normalize(addr);
    var all := tries + [Try(Accepted, login)];
    if tries != [] {
      assert Paced(tries) by {
        forall i | 0 < i < |tries| ensures tries[i].at <= tries[i - 1].at + Hour {
          assert all[i] == tries[i] && all[i - 1] == tries[i - 1];
        }
      }
      WrongTriesCount(t, addr, tries);
      assert all[|tries|] == Try(Accepted, login);
      assert all[|tries| - 1] == tries[|tries| - 1];
      assert all[0] == tries[0];
    }
  }

  /**
   * Once blocked, an address stays blocked while it keeps trying at least
   * once an hour: every try is refused without a credential check or a
   * failure report, and each one adds one to the count.
   */
  lemma {:induction false} BlockedStaysBlocked(t: Table, addr: Address, tries: seq<Try>)
    requires tries != [] && Paced(tries)
    requires VerdictOf(t, Normalize(addr), tries[0].at) == Blocked
    ensures ValidateCredentials !in Replay(t, addr, tries).steps
    ensures ReportFailure !in Replay(t, addr, tries).steps
    ensures forall i :: 0 <= i < |tries| ==> Replay(t, addr, tries).outcomes[i] == AuthenticationFailed
    ensures Normalize(addr) in Replay(t, addr, tries).ledger
    ensures Replay(t, addr, tries).ledger[Normalize(addr)]
              == Record(tries[|tries| - 1].at, t[Normalize(addr)].attempts + |tries|)
    decreases |tries|
  {
    var key := Normalize(addr);
    var t1 := AttemptSpec(t, addr, tries[0].result, tries[0].at).ledger;
    assert t1[key] == Record(tries[0].at, t[key].attempts + 1);
    if |tries| > 1 {
      var rest := tries[1..];
      assert rest[0].at <= tries[0].at + Hour;
      BlockedStaysBlocked(t1, addr, rest);
    }
  }

  /** A record more than an hour old counts for nothing: the next attempt is
   * judged on its credentials, and a failure restarts the count at one. */
  lemma StaleRecordResets(t: Table, addr: Address, v: Validation, now: int)
    requires Normalize(addr) in t && Stale(t[Normalize(addr)], now)
    ensures AttemptSpec(t, addr, v, now).outcome
              == match v case Accepted => Granted case Refused => AuthenticationFailed case Errored => OtherError
    ensures ValidateCredentials in AttemptSpec(t, addr, v, now).steps
    ensures v == Refused ==> AttemptSpec(t, addr, v, now).ledger[Normalize(addr)] == Record(now, 1)
  {
  }

  /** Addresses of one IPv6 /64 subnet share one ledger record. */
  lemma SubnetSharesRecord(t: Table, a: Address, b: Address, v: Validation, now: int)
    requires a.V6? && b.V6? && a.octets[..8] == b.octets[..8]
    ensures AttemptSpec(t, a, v, now) == AttemptSpec(t, b, v, now)
  {
    SameKeyIffSameSubnet(a, b);
  }

  /** Every attempt keeps the ledger invariant, never drops a record, and
   * only increments a count or restarts it at one. */
  lemma AttemptKeepsInvariant(t: Table, addr: Address, v: Validation, now: int)
    requires WellFormed(t)
    ensures WellFormed(AttemptSpec(t, addr, v, now).ledger)
    ensures Evolves(t, AttemptSpec(t, addr, v, now).ledger)
  {
    var key := Normalize(addr);
    NormalizeIdempotent(addr);
    CheckKeepsInvariant(t, key, now);
    FailureKeepsInvariant(AfterCheck(t, key, now), key, now);
  }
}

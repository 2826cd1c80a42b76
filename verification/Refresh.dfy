/** When to refresh a credential, and how refresh failures are reported. */
module Refresh {
  import opened Prelude

  /** Times are in nanoseconds. */
  const NORMAL_LEAD := 300_000_000_000
  const SHORT_LIFETIME := 600_000_000_000
  const BACKOFF_CAP := 60_000_000_000
  const FAILING_THRESHOLD := 3

  datatype Scheduler = Scheduler(dueAt: int, failures: nat, failingRaised: bool, inFlight: bool)

  datatype Action = Wait | RefreshNow

  datatype Report = NoReport | Failing | Recovered

  /** Half a duration, rounded toward zero. */
  function Half(d: int): int { if d >= 0 then d / 2 else -(-d / 2) }

  /** Five minutes before expiry, or half-way for a credential that lives less than ten. */
  function DueAt(authorizedAt: int, expiresAt: int): int {
    if expiresAt - authorizedAt < SHORT_LIFETIME then expiresAt - Half(expiresAt - authorizedAt)
    else expiresAt - NORMAL_LEAD
  }

  /** One second doubled per further failure, a minute at most. */
  function BackoffDelay(failures: nat): (d: nat)
    ensures d <= BACKOFF_CAP
  {
    Min(1_000_000_000 * PowerOfTwo(Min(if failures == 0 then 0 else failures - 1, 6)), BACKOFF_CAP)
  }

  function Armed(authorizedAt: int, expiresAt: int): Scheduler {
    Scheduler(DueAt(authorizedAt, expiresAt), 0, false, false)
  }

  function Act(s: Scheduler, now: int): (Scheduler, Action) {
    if s.inFlight || now < s.dueAt then (s, Wait) else (s.(inFlight := true), RefreshNow)
  }

  function Succeeded(s: Scheduler, authorizedAt: int, expiresAt: int): (Scheduler, Report) {
    (Armed(authorizedAt, expiresAt), if s.failingRaised then Recovered else NoReport)
  }

  function FailedOnce(s: Scheduler, now: int): (Scheduler, Report) {
    var failures := s.failures + 1;
    var raise := failures == FAILING_THRESHOLD && !s.failingRaised;
    (Scheduler(now + BackoffDelay(failures), failures, s.failingRaised || raise, false),
     if raise then Failing else NoReport)
  }

  class RefreshScheduler {
    var dueAt: int
    var consecutiveFailures: nat
    var failingRaised: bool
    var inFlight: bool

    ghost function Value(): Scheduler
      reads this
    {
      Scheduler(dueAt, consecutiveFailures, failingRaised, inFlight)
    }

    constructor (authorizedAt: int, expiresAt: int)
      ensures Value() == Armed(authorizedAt, expiresAt)
    {
      dueAt := DueAt(authorizedAt, expiresAt);
      consecutiveFailures, failingRaised, inFlight := 0, false, false;
    }

    method NextAction(now: int) returns (action: Action)
      modifies this
      ensures (Value(), action) == Act(old(Value()), now)
    {
      if inFlight {
        return Wait;
      }
      if now >= dueAt {
        inFlight := true;
        return RefreshNow;
      }
      return Wait;
    }

    method OnSuccess(authorizedAt: int, expiresAt: int) returns (report: Report)
      modifies this
      ensures (Value(), report) == Succeeded(old(Value()), authorizedAt, expiresAt)
    {
      inFlight := false;
      dueAt := DueAt(authorizedAt, expiresAt);
      consecutiveFailures := 0;
      if failingRaised {
        failingRaised := false;
        return Recovered;
      }
      return NoReport;
    }

    method OnTransientFailure(now: int) returns (report: Report)
      modifies this
      ensures (Value(), report) == FailedOnce(old(Value()), now)
    {
      inFlight := false;
      consecutiveFailures := consecutiveFailures + 1;
      dueAt := now + BackoffDelay(consecutiveFailures);
      if consecutiveFailures == FAILING_THRESHOLD && !failingRaised {
        failingRaised := true;
        return Failing;
      }
      return NoReport;
    }
  }

  // ------------------------------------------------------------ properties

  /** A refresh is due after authorization and before expiry, at least half the lifetime or five minutes ahead. */
  lemma DueWithinLifetime(authorizedAt: int, expiresAt: int)
    requires authorizedAt <= expiresAt
    ensures authorizedAt <= DueAt(authorizedAt, expiresAt) <= expiresAt
    ensures authorizedAt < expiresAt - 1 ==> DueAt(authorizedAt, expiresAt) < expiresAt
    ensures expiresAt - DueAt(authorizedAt, expiresAt) == Min((expiresAt - authorizedAt) / 2, 300_000_000_000)
  {}

  /** A refresh starts exactly when it is due and none is in flight, and then no other starts until its outcome is in. */
  lemma RefreshesStartOnce(s: Scheduler, now: int, later: int)
    ensures var (s', action) := Act(s, now);
            && (action == RefreshNow <==> !s.inFlight && now >= s.dueAt)
            && (action == RefreshNow ==> Act(s', later).1 == Wait)
            && (action == Wait ==> s' == s) && s'.dueAt == s.dueAt && s'.failures == s.failures
  {}

  /** A success starts afresh from the new lifetime; a failure is tried again after the wait for that many in a row. */
  lemma OutcomesRearm(s: Scheduler, authorizedAt: int, expiresAt: int, now: int, later: int)
    requires authorizedAt <= expiresAt
    ensures var s' := Succeeded(s, authorizedAt, expiresAt).0;
            && s'.failures == 0 && !s'.failingRaised && s'.dueAt <= expiresAt
            && (Act(s', later).1 == RefreshNow <==> later >= s'.dueAt)
            && expiresAt - s'.dueAt == Min((expiresAt - authorizedAt) / 2, 300_000_000_000)
    ensures var s' := FailedOnce(s, now).0;
            && s'.failures == s.failures + 1
            && (Act(s', later).1 == RefreshNow <==> later >= now + BackoffDelay(s.failures + 1))
  {
    DueWithinLifetime(authorizedAt, expiresAt);
  }

  lemma BackoffDoublesUpToAMinute(n: nat)
    requires n > 0
    ensures BackoffDelay(1) == 1_000_000_000
    ensures BackoffDelay(n + 1) == Min(2 * BackoffDelay(n), 60_000_000_000)
  {
    assert PowerOfTwo(6) == 64 by {
      assert PowerOfTwo(2) == 4 && PowerOfTwo(4) == 16;
    }
  }

  /** How refreshes went, oldest first. */
  datatype Outcome = Success(authorizedAt: int, expiresAt: int) | Failure(now: int)

  function Reports(s: Scheduler, outcomes: seq<Outcome>): seq<Report>
    decreases |outcomes|
  {
    if outcomes == [] then []
    else
      var (s', report) := match outcomes[0]
                          case Success(a, e) => Succeeded(s, a, e)
                          case Failure(now) => FailedOnce(s, now);
      [report] + Reports(s', outcomes[1..])
  }

  /** Failures in a row at the end of `outcomes`, on top of `before`. */
  function Streak(before: nat, outcomes: seq<Outcome>): nat {
    if outcomes == [] then before
    else if outcomes[|outcomes| - 1].Success? then 0
    else Streak(before, outcomes[..|outcomes| - 1]) + 1
  }

  /** What the i-th outcome should report, judged from the outcomes alone. */
  function Expected(before: nat, outcomes: seq<Outcome>, i: nat): Report
    requires i < |outcomes|
  {
    if outcomes[i].Failure? then (if Streak(before, outcomes[..i]) == 2 then Failing else NoReport)
    else if Streak(before, outcomes[..i]) >= FAILING_THRESHOLD then Recovered
    else NoReport
  }

  ghost predicate Honest(s: Scheduler) { s.failingRaised <==> s.failures >= FAILING_THRESHOLD }

  lemma {:induction false} StreakShift(before: nat, first: Outcome, rest: seq<Outcome>)
    ensures Streak(before, [first] + rest) == Streak(if first.Success? then 0 else before + 1, rest)
  {
    if rest == [] {
      assert [first] + rest == [first];
      assert Streak(before, [first]) == if first.Success? then 0 else Streak(before, []) + 1;
    } else {
      var all, n := [first] + rest, |rest| - 1;
      assert all[..|all| - 1] == [first] + rest[..n];
      StreakShift(before, first, rest[..n]);
    }
  }

  /**
   * "Failing" is reported at exactly the third failure in a row, once, and "recovered" at exactly the successes that
   * end a streak of three or more.
   */
  lemma {:induction false} ReportsAreHonest(s: Scheduler, outcomes: seq<Outcome>)
    requires Honest(s)
    ensures |Reports(s, outcomes)| == |outcomes|
    ensures forall i :: 0 <= i < |outcomes| ==> Reports(s, outcomes)[i] == Expected(s.failures, outcomes, i)
    decreases |outcomes|
  {
    if outcomes != [] {
      var first, rest := outcomes[0], outcomes[1..];
      var s' := if first.Success? then Succeeded(s, first.authorizedAt, first.expiresAt).0 else FailedOnce(s, first.now).0;
      ReportsAreHonest(s', rest);
      forall i | 0 <= i < |outcomes| ensures Reports(s, outcomes)[i] == Expected(s.failures, outcomes, i) {
        if i == 0 {
          assert outcomes[..0] == [];
        } else {
          assert outcomes[..i] == [first] + rest[..i - 1];
          StreakShift(s.failures, first, rest[..i - 1]);
          assert Reports(s, outcomes)[i] == Reports(s', rest)[i - 1];
        }
      }
    }
  }
}

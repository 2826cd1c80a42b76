/** The account service object: commands, worker results and the tick that drains them. */
module AccountSession {
  import opened Prelude
  import opened Refresh
  import opened AccountModel

  class AccountService {
    var state: State
    var tier: Tier
    var account: Option<Account>
    var attemptId: nat
    var pending: bool
    var listening: bool
    var refresh: RefreshScheduler?
    var tierCheckInFlight: bool
    // Workers started whose result has not been drained, and how often the secure store was asked to write.
    var jobs: seq<Job>
    var puts: nat
    const registry: seq<string>

    ghost function Value(): Service
      reads this, refresh
    {
      Service(state, tier, account, attemptId, pending, listening, if refresh == null then None else Some(refresh.Value()),
              tierCheckInFlight, jobs, registry, puts)
    }

    constructor (registry: seq<string>)
      ensures Value() == New(registry) && refresh == null
    {
      this.registry := registry;
      state, tier, account, attemptId, pending, listening := SignedOut(None), Unknown, None, 0, false, false;
      refresh, tierCheckInFlight, jobs, puts := null, false, [], 0;
    }

    method SpawnWorker(kind: JobKind)
      modifies this`jobs
      ensures Value() == Spawn(old(Value()), kind)
    {
      jobs := jobs + [Job(kind, attemptId)];
    }

    method DiscardPendingAttempt()
      modifies this`listening, this`pending
      ensures Value() == Discard(old(Value()))
    {
      listening, pending := false, false;
    }

    method FailAttempt(note: Note) returns (events: seq<Event>)
      modifies this`listening, this`pending, this`state
      ensures (Value(), events) == FailSignIn(old(Value()), note)
    {
      DiscardPendingAttempt();
      state := SignedOut(Some(note));
      return [SignInFailed(note)];
    }

    /** Clear every registered store, going on after a failure. */
    method ClearStores(w: World) returns (cleared: seq<string>, failed: seq<Event>)
      ensures cleared == Cleared(Value(), w, |registry|) && failed == Uncleared(Value(), w, |registry|)
    {
      cleared, failed := [], [];
      for k := 0 to |registry|
        invariant cleared == Cleared(Value(), w, k) && failed == Uncleared(Value(), w, k)
      {
        if Clears(w, k) {
          cleared := cleared + [registry[k]];
        } else {
          failed := failed + [SignOutIncomplete(registry[k])];
        }
      }
    }

    method LeaveAccount(w: World) returns (events: seq<Event>)
      modifies this
      ensures (Value(), events) == SignOut(old(Value()), w) && refresh == null
    {
      hide Cleared, Uncleared;
      attemptId := attemptId + 1;
      DiscardPendingAttempt();
      var cleared, failed := ClearStores(w);
      SameRegistry(old(Value()), Value(), w, |registry|);
      account, tier, refresh, tierCheckInFlight := None, Unknown, null, false;
      state := SignedOut(None);
      return [SignedOutOf(cleared)] + failed;
    }

    method RevokeSession(w: World) returns (events: seq<Event>)
      modifies this
      ensures (Value(), events) == Revoke(old(Value()), w) && refresh == null
    {
      hide Cleared, Uncleared;
      attemptId := attemptId + 1;
      DiscardPendingAttempt();
      var _, failed := ClearStores(w);
      SameRegistry(old(Value()), Value(), w, |registry|);
      account, tier, refresh, tierCheckInFlight := None, Unknown, null, false;
      state := SignedOut(Some(Revoked));
      return [SessionRevoked] + failed;
    }

    method BeginSignIn(probeOk: bool, bindOk: bool, w: World) returns (events: seq<Event>)
      modifies this
      ensures (Value(), events) == StartSignIn(old(Value()), probeOk, bindOk, w) && refresh == old(refresh)
    {
      if !probeOk {
        return [StoreUnavailable];
      }
      DiscardPendingAttempt();
      attemptId := attemptId + 1;
      if !bindOk || w.write.NotEncoded? {
        events := FailAttempt(ServiceError);
        return;
      }
      puts := puts + 1;
      if w.write.Refused? {
        return [StoreUnavailable];
      }
      listening, pending := true, true;
      state := Authorizing(attemptId, false);
      return [BrowserUrlReady];
    }

    method AbandonSignIn()
      modifies this
      ensures Value() == CancelSignIn(old(Value())) && refresh == old(refresh)
    {
      attemptId := attemptId + 1;
      DiscardPendingAttempt();
      state := SignedOut(Some(Cancelled));
    }

    method RecheckSubscription(w: World)
      modifies this
      ensures Value() == RecheckTier(old(Value()), w) && refresh == old(refresh)
    {
      if tierCheckInFlight {
        return;
      }
      if !state.Active? && !state.Expired? {
        return;
      }
      if !w.credential.Readable? {
        return;
      }
      tierCheckInFlight := true;
      SpawnWorker(TierCheck);
    }

    method ArmAndActivate()
      modifies this
      ensures Value() == Activated(old(Value())) && (refresh == old(refresh) || fresh(refresh))
    {
      if state.Checking? {
        state := Active;
      }
      if refresh == null && account.Some? {
        refresh := new RefreshScheduler(account.value.authorizedAt, account.value.expiresAt);
      }
    }

    /** Resume the session found in the store: armed, and validated by a fresh tier check. */
    method ResumeSession(found: Account, now: int)
      modifies this
      ensures Value() == Resume(old(Value()), found, now) && fresh(refresh)
    {
      tier := found.tier;
      state := if now >= found.expiresAt then Expired else Active;
      refresh := new RefreshScheduler(found.authorizedAt, found.expiresAt);
      account := Some(found);
      tierCheckInFlight := true;
      SpawnWorker(TierCheck);
    }

    /** Read persisted state once, on a new service. */
    method LaunchFrom(pendingEntry: Option<bool>, file: Option<Account>, stored: Account, w: World)
      requires Value() == New(registry)
      modifies this
      ensures Value() == Launch(registry, pendingEntry, file, stored, w)
    {
      if pendingEntry.Some? {
        attemptId := attemptId + 1;
        if pendingEntry.value {
          listening, pending := true, true;
          state := Authorizing(attemptId, true);
        } else {
          pending, account, tier := false, None, Unknown;
          state := SignedOut(Some(PreviousDidNotFinish));
        }
        return;
      }
      match w.credential {
        case Readable =>
          var found := if file.Some? then file.value else stored.(tier := Unknown);
          ResumeSession(found, w.now);
        case Missing =>
          account, tier, state := None, Unknown, SignedOut(None);
        case Unreadable =>
          if file.Some? {
            tier, account, state := file.value.tier, file, StoreUnreadable;
          } else {
            account, tier, state := None, Unknown, SignedOut(None);
          }
      }
    }

    method RetryReading(w: World) returns (events: seq<Event>)
      modifies this
      ensures (Value(), events) == RetryStoreRead(old(Value()), w)
    {
      if !state.StoreUnreadable? || account.None? {
        return [];
      }
      match w.credential {
        case Readable =>
          ResumeSession(account.value, w.now);
          return [];
        case Missing =>
          events := RevokeSession(w);
        case Unreadable =>
          return [StoreUnavailable];
      }
    }

    // ------------------------------------------------------------- results

    method OnListener(outcome: ListenerOutcome) returns (events: seq<Event>)
      modifies this
      ensures (Value(), events) == HandleListener(old(Value()), outcome) && refresh == old(refresh)
    {
      listening := false;
      match outcome {
        case Code =>
          if pending {
            SpawnWorker(Exchange);
          }
          return [];
        case Error(accessDenied) => events := FailAttempt(if accessDenied then Cancelled else ServiceError);
        case ListenerCancelled => return [];
        case ListenerTimedOut => events := FailAttempt(TimedOut);
        case BindLost => events := FailAttempt(ServiceError);
      }
    }

    method OnExchange(attempt: nat, answer: Answer, w: World) returns (events: seq<Event>)
      modifies this
      ensures (Value(), events) == HandleExchange(old(Value()), attempt, answer, w) && refresh == old(refresh)
    {
      if attempt != attemptId {
        return [];
      }
      if !answer.Tokens? || w.write.NotEncoded? {
        events := FailAttempt(ServiceError);
        return;
      }
      puts := puts + 1;
      if w.write.Refused? {
        DiscardPendingAttempt();
        state := SignedOut(Some(ServiceError));
        return [StoreUnavailable];
      }
      pending := false;
      account := Some(Account(w.now, w.now + answer.expiresIn, Unknown));
      tier := Unknown;
      state := Checking(attempt);
      tierCheckInFlight := true;
      SpawnWorker(TierCheck);
      return [Authorized];
    }

    method OnTier(attempt: nat, answer: Answer, w: World) returns (events: seq<Event>)
      modifies this
      ensures (Value(), events) == HandleTier(old(Value()), attempt, answer, w)
      ensures refresh == null || refresh == old(refresh) || fresh(refresh)
    {
      tierCheckInFlight := false;
      if attempt != attemptId {
        return [];
      }
      if answer.Rejected? {
        events := RevokeSession(w);
        return;
      }
      if answer.Profile? {
        tier := answer.tier;
        if account.Some? {
          account := Some(account.value.(tier := answer.tier));
        }
        events := [TierChecked(answer.tier)];
      } else {
        tier := Unknown;
        events := [TierCheckFailed];
      }
      ArmAndActivate();
    }

    method ReportFailure(now: int) returns (events: seq<Event>)
      modifies refresh
      ensures (Value(), events) == TransientFailure(old(Value()), now)
    {
      if refresh == null {
        return [];
      }
      var report := refresh.OnTransientFailure(now);
      return Reported(report);
    }

    method Renew(expiresAt: int)
      modifies this`account, this`state
      ensures Value() == Renewed(old(Value()), expiresAt)
    {
      if account.Some? {
        account := Some(account.value.(expiresAt := expiresAt));
      }
      if state.Expired? {
        state := Active;
      }
    }

    method OnRefresh(attempt: nat, answer: Answer, w: World) returns (events: seq<Event>)
      modifies this, refresh
      ensures (Value(), events) == HandleRefresh(old(Value()), attempt, answer, w)
      ensures refresh == null || refresh == old(refresh)
    {
      if attempt != attemptId {
        return [];
      }
      if answer.Rejected? {
        events := RevokeSession(w);
        return;
      }
      if answer.Tokens? {
        var authorizedAt := if account.Some? then account.value.authorizedAt else w.now;
        var expiresAt := w.now + answer.expiresIn;
        if !w.write.NotEncoded? {
          puts := puts + 1;
        }
        if w.write.Stored? {
          Renew(expiresAt);
          if refresh == null {
            return [];
          }
          var report := refresh.OnSuccess(authorizedAt, expiresAt);
          return Reported(report);
        }
      }
      events := ReportFailure(w.now);
    }

    method DrainResult(i: nat, answer: Answer, w: World) returns (events: seq<Event>)
      requires i < |jobs|
      modifies this, refresh
      ensures (Value(), events) == Deliver(old(Value()), i, answer, w)
      ensures refresh == null || refresh == old(refresh) || fresh(refresh)
    {
      var job := jobs[i];
      jobs := jobs[..i] + jobs[i + 1..];
      match job.kind {
        case Exchange => events := OnExchange(job.attempt, answer, w);
        case TierCheck => events := OnTier(job.attempt, answer, w);
        case RefreshToken => events := OnRefresh(job.attempt, answer, w);
        case Read => return if job.attempt == attemptId then [ReadResult] else [];
      }
    }

    method NoticeExpiry(now: int) returns (events: seq<Event>)
      modifies this`state
      ensures (Value(), events) == CheckExpiry(old(Value()), now)
    {
      if !state.Active? || account.None? {
        return [];
      }
      if now >= account.value.expiresAt {
        state := Expired;
        return [SessionExpired];
      }
      return [];
    }

    method DriveRefresh(w: World) returns (events: seq<Event>)
      modifies this`jobs, refresh
      ensures (Value(), events) == TickRefresh(old(Value()), w)
    {
      if refresh == null {
        return [];
      }
      var action := refresh.NextAction(w.now);
      if action == Wait {
        return [];
      }
      if w.credential.Readable? {
        SpawnWorker(RefreshToken);
        return [];
      }
      events := ReportFailure(w.now);
    }

    method DrainAll(arrivals: seq<Arrival>) returns (events: seq<Event>)
      modifies this, refresh
      ensures (Value(), events) == Drain(old(Value()), arrivals)
      ensures refresh == null || refresh == old(refresh) || fresh(refresh)
    {
      hide Deliver;
      events := [];
      for n := 0 to |arrivals|
        invariant (Value(), events) == Drain(old(Value()), arrivals[..n])
        invariant refresh == null || refresh == old(refresh) || fresh(refresh)
      {
        assert arrivals[..n + 1][..n] == arrivals[..n];
        if arrivals[n].i < |jobs| {
          var more := DrainResult(arrivals[n].i, arrivals[n].answer, arrivals[n].world);
          events := events + more;
        }
      }
      assert arrivals[..|arrivals|] == arrivals;
    }

    method TickOnce(outcome: Option<ListenerOutcome>, arrivals: seq<Arrival>, w: World) returns (events: seq<Event>)
      modifies this, refresh
      ensures (Value(), events) == Tick(old(Value()), outcome, arrivals, w)
    {
      hide HandleListener, Drain, CheckExpiry, TickRefresh;
      events := [];
      if listening && outcome.Some? {
        events := OnListener(outcome.value);
      }
      var drained := DrainAll(arrivals);
      var expired := NoticeExpiry(w.now);
      var refreshed := DriveRefresh(w);
      return events + drained + expired + refreshed;
    }
  }

  lemma {:induction false} SameRegistry(s: Service, s': Service, w: World, n: nat)
    requires s.registry == s'.registry && n <= |s.registry|
    ensures Cleared(s, w, n) == Cleared(s', w, n) && Uncleared(s, w, n) == Uncleared(s', w, n)
  {
    if n > 0 {
      SameRegistry(s, s', w, n - 1);
    }
  }
}

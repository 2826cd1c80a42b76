/** What every run of the account service keeps, from one launch on. */
module AccountProperties {
  import opened Prelude
  import opened Refresh
  import opened AccountModel

  datatype Op =
    | Start(probeOk: bool, bindOk: bool, world: World)
    | Cancel
    | Recheck(world: World)
    | Ask(world: World)
    | RetryRead(world: World)
    | SigningOut(world: World)
    | Listener(outcome: ListenerOutcome)
    | Result(i: nat, answer: Answer, world: World)
    | Expiry(now: int)
    | RefreshTurn(world: World)

  /** The listener answers only while it runs, and a result comes only from a worker that was started. */
  predicate Possible(s: Service, op: Op) {
    && (op.Listener? ==> s.listening)
    && (op.Result? ==> op.i < |s.jobs|)
  }

  function Apply(s: Service, op: Op): (r: AccountModel.Result)
    requires Possible(s, op)
  {
    match op
    case Start(probeOk, bindOk, w) => StartSignIn(s, probeOk, bindOk, w)
    case Cancel => (CancelSignIn(s), [])
    case Recheck(w) => (RecheckTier(s, w), [])
    case Ask(w) => (RequestRead(s, w), [])
    case RetryRead(w) => RetryStoreRead(s, w)
    case SigningOut(w) => SignOut(s, w)
    case Listener(outcome) => HandleListener(s, outcome)
    case Result(i, answer, w) => Deliver(s, i, answer, w)
    case Expiry(now) => CheckExpiry(s, now)
    case RefreshTurn(w) => TickRefresh(s, w)
  }

  ghost predicate Run(s: Service, ops: seq<Op>, s': Service)
    decreases |ops|
  {
    if ops == [] then s' == s else Possible(s, ops[0]) && Run(Apply(s, ops[0]).0, ops[1..], s')
  }

  // -------------------------------------------------------- the invariant

  /** Results of this kind still to come that carry the live attempt. */
  function Live(jobs: seq<Job>, kind: JobKind, attempt: nat): (n: nat)
    ensures n > 0 <==> Job(kind, attempt) in jobs
  {
    if jobs == [] then 0
    else Live(jobs[..|jobs| - 1], kind, attempt) + if jobs[|jobs| - 1] == Job(kind, attempt) then 1 else 0
  }

  lemma {:induction false} LiveJoined(a: seq<Job>, b: seq<Job>, kind: JobKind, attempt: nat)
    ensures Live(a + b, kind, attempt) == Live(a, kind, attempt) + Live(b, kind, attempt)
  {
    if b == [] {
      assert a + b == a;
    } else {
      assert (a + b)[..|a + b| - 1] == a + b[..|b| - 1];
      LiveJoined(a, b[..|b| - 1], kind, attempt);
    }
  }

  lemma LiveSpawned(jobs: seq<Job>, job: Job, kind: JobKind, attempt: nat)
    ensures Live(jobs + [job], kind, attempt) == Live(jobs, kind, attempt) + if job == Job(kind, attempt) then 1 else 0
  {}

  lemma LiveDrained(jobs: seq<Job>, i: nat, kind: JobKind, attempt: nat)
    requires i < |jobs|
    ensures Live(jobs, kind, attempt)
            == Live(jobs[..i] + jobs[i + 1..], kind, attempt) + if jobs[i] == Job(kind, attempt) then 1 else 0
  {
    assert jobs == jobs[..i] + [jobs[i]] + jobs[i + 1..];
    LiveJoined(jobs[..i] + [jobs[i]], jobs[i + 1..], kind, attempt);
    LiveSpawned(jobs[..i], jobs[i], kind, attempt);
    LiveJoined(jobs[..i], jobs[i + 1..], kind, attempt);
  }

  ghost predicate JobsNotAhead(jobs: seq<Job>, attempt: nat) { forall job :: job in jobs ==> job.attempt <= attempt }

  /** At most one refresh of the live attempt is under way, and only while the scheduler says so. */
  predicate OneRefresh(s: Service) {
    var n := Live(s.jobs, RefreshToken, s.attempt);
    n <= 1 && (n == 1 ==> s.scheduler.Some? && s.scheduler.value.inFlight)
  }

  predicate SessionComplete(s: Service) {
    && (s.state.Active? || s.state.Expired? ==> s.account.Some? && s.scheduler.Some?)
    && (s.state.Checking? ==> s.account.Some?)
  }

  /** While the store cannot be read, nothing is under way except reads. */
  ghost predicate NothingBehindUnreadable(s: Service) {
    s.state.StoreUnreadable? ==>
      s.scheduler.None? && !s.listening && forall job :: job in s.jobs && job.attempt == s.attempt ==> job.kind == Read
  }

  ghost predicate Inv(s: Service) {
    JobsNotAhead(s.jobs, s.attempt) && OneRefresh(s) && SessionComplete(s) && NothingBehindUnreadable(s)
  }

  /** A new attempt makes every result still to come stale. */
  lemma NoneLiveLater(jobs: seq<Job>, kind: JobKind, attempt: nat)
    requires JobsNotAhead(jobs, attempt)
    ensures Live(jobs, kind, attempt + 1) == 0 && JobsNotAhead(jobs, attempt + 1)
  {}

  lemma EndedInv(s: Service, note: Option<Note>)
    requires JobsNotAhead(s.jobs, s.attempt)
    ensures Inv(Ended(s, note)) && Quiet(Ended(s, note))
  {
    NoneLiveLater(s.jobs, RefreshToken, s.attempt);
  }

  lemma RevokedInv(s: Service)
    requires Inv(s)
    ensures Inv(Ended(s, Some(Revoked)))
  {
    EndedInv(s, Some(Revoked));
  }

  lemma NotAheadSpawned(jobs: seq<Job>, job: Job, attempt: nat)
    requires JobsNotAhead(jobs, attempt) && job.attempt <= attempt
    ensures JobsNotAhead(jobs + [job], attempt)
  {}

  lemma SpawnedInv(s: Service, kind: JobKind)
    requires Inv(s) && kind != RefreshToken && (s.state.StoreUnreadable? ==> kind == Read)
    ensures Inv(Spawn(s, kind))
  {
    LiveSpawned(s.jobs, Job(kind, s.attempt), RefreshToken, s.attempt);
  }

  lemma LaunchInv(registry: seq<string>, pendingEntry: Option<bool>, file: Option<Account>, stored: Account, w: World)
    ensures Inv(Launch(registry, pendingEntry, file, stored, w))
  {
    hide Resume;
    assert Inv(New(registry)) && New(registry).jobs == [];
    if pendingEntry.None? && w.credential.Readable? {
      ResumeInv(New(registry), if file.Some? then file.value else stored.(tier := Unknown), w.now);
    }
  }

  lemma StartInv(s: Service, probeOk: bool, bindOk: bool, w: World)
    requires Inv(s)
    ensures Inv(StartSignIn(s, probeOk, bindOk, w).0)
  {
    NoneLiveLater(s.jobs, RefreshToken, s.attempt);
  }

  lemma ResumeInv(s: Service, account: Account, now: int)
    requires Inv(s) && (s.state.StoreUnreadable? || s.jobs == [])
    ensures Inv(Resume(s, account, now))
  {
    hide Live, JobsNotAhead;
    LiveSpawned(s.jobs, Job(TierCheck, s.attempt), RefreshToken, s.attempt);
    NotAheadSpawned(s.jobs, Job(TierCheck, s.attempt), s.attempt);
    assert Job(RefreshToken, s.attempt) !in s.jobs;
  }

  lemma RetryReadInv(s: Service, w: World)
    requires Inv(s)
    ensures Inv(RetryStoreRead(s, w).0)
  {
    if s.state.StoreUnreadable? && s.account.Some? {
      hide Inv, Resume, Ended;
      if w.credential.Readable? {
        ResumeInv(s, s.account.value, w.now);
      } else if w.credential.Missing? {
        RevokedInv(s);
      }
    }
  }

  lemma TransientFailureInv(s: Service, now: int)
    requires Inv(s) && Live(s.jobs, RefreshToken, s.attempt) == 0
    ensures Inv(TransientFailure(s, now).0)
  {
    hide FailedOnce, Live, JobsNotAhead;
  }

  /** The scheduler said to refresh: it is in flight, and none of the live attempt was under way. */
  lemma RefreshStartedInv(s: Service)
    requires Inv(s) && s.scheduler.Some? && !s.scheduler.value.inFlight
    ensures var s' := s.(scheduler := Some(s.scheduler.value.(inFlight := true)));
            Inv(s') && Live(s'.jobs, RefreshToken, s'.attempt) == 0 && Inv(Spawn(s', RefreshToken))
  {
    hide Live;
    LiveSpawned(s.jobs, Job(RefreshToken, s.attempt), RefreshToken, s.attempt);
  }

  lemma TickRefreshInv(s: Service, w: World)
    requires Inv(s)
    ensures Inv(TickRefresh(s, w).0)
  {
    if s.scheduler.Some? && !s.scheduler.value.inFlight && w.now >= s.scheduler.value.dueAt {
      hide Inv, Live, Spawn, TransientFailure;
      RefreshStartedInv(s);
      var s' := s.(scheduler := Some(s.scheduler.value.(inFlight := true)));
      if !w.credential.Readable? {
        TransientFailureInv(s', w.now);
      }
    } else {
      assert TickRefresh(s, w).0 == s;
    }
  }

  /** Draining a job leaves the invariant, with one refresh less under way if it was one. */
  lemma DrainedInv(s: Service, i: nat)
    requires Inv(s) && i < |s.jobs|
    ensures var s' := s.(jobs := s.jobs[..i] + s.jobs[i + 1..]);
            Inv(s') && (s.jobs[i] == Job(RefreshToken, s.attempt) ==> Live(s'.jobs, RefreshToken, s.attempt) == 0)
  {
    var s' := s.(jobs := s.jobs[..i] + s.jobs[i + 1..]);
    LiveDrained(s.jobs, i, RefreshToken, s.attempt);
    assert forall job :: job in s'.jobs ==> job in s.jobs;
  }

  lemma FailSignInInv(s: Service, note: Note)
    requires Inv(s)
    ensures Inv(FailSignIn(s, note).0)
  {
    hide Live, JobsNotAhead;
  }

  lemma NewSessionInv(s: Service, account: Account, puts: nat)
    requires Inv(s) && !s.state.StoreUnreadable?
    ensures Inv(SpawnTierCheck(
                  s.(puts := puts, pending := false, account := Some(account), tier := Unknown,
                     state := Checking(s.attempt))))
  {
    hide Live;
    LiveSpawned(s.jobs, Job(TierCheck, s.attempt), RefreshToken, s.attempt);
  }

  lemma RefusedInv(s: Service)
    requires Inv(s)
    ensures Inv(Discard(s).(puts := s.puts + 1, state := SignedOut(Some(ServiceError))))
  {
    hide Live, JobsNotAhead;
  }

  lemma ExchangeInv(s: Service, attempt: nat, answer: Answer, w: World)
    requires Inv(s) && (attempt == s.attempt ==> !s.state.StoreUnreadable?)
    ensures Inv(HandleExchange(s, attempt, answer, w).0)
  {
    hide Inv, SpawnTierCheck, FailSignIn, Discard;
    if attempt == s.attempt {
      if !answer.Tokens? || w.write.NotEncoded? {
        FailSignInInv(s, ServiceError);
      } else if w.write.Refused? {
        RefusedInv(s);
      } else {
        NewSessionInv(s, Account(w.now, w.now + answer.expiresIn, Unknown), s.puts + 1);
      }
    }
  }

  lemma TierChangedInv(s: Service, checking: bool, tier: Tier, account: Option<Account>)
    requires Inv(s) && account.Some? == s.account.Some?
    ensures Inv(s.(checkingTier := checking, tier := tier, account := account))
  {
    hide Live, JobsNotAhead;
  }

  lemma ActivatedInv(s: Service)
    requires Inv(s) && !s.state.StoreUnreadable?
    ensures Inv(Activated(s))
  {
    hide Live, JobsNotAhead;
  }

  lemma TierInv(s: Service, attempt: nat, answer: Answer, w: World)
    requires Inv(s) && (attempt == s.attempt ==> !s.state.StoreUnreadable?)
    ensures Inv(HandleTier(s, attempt, answer, w).0)
  {
    if attempt == s.attempt && answer.Rejected? {
      EndedInv(s.(checkingTier := false), Some(Revoked));
    } else {
      hide Inv, Activated;
      TierChangedInv(s, false, s.tier, s.account);
      if attempt == s.attempt && answer.Profile? {
        var account := if s.account.Some? then Some(s.account.value.(tier := answer.tier)) else None;
        TierChangedInv(s, false, answer.tier, account);
        ActivatedInv(s.(checkingTier := false, tier := answer.tier, account := account));
      } else if attempt == s.attempt {
        TierChangedInv(s, false, Unknown, s.account);
        ActivatedInv(s.(checkingTier := false, tier := Unknown));
      }
    }
  }

  lemma RenewedInv(s: Service, expiresAt: int, scheduler: Scheduler)
    requires Inv(s) && s.scheduler.Some? && Live(s.jobs, RefreshToken, s.attempt) == 0
    ensures Inv(Renewed(s, expiresAt).(scheduler := Some(scheduler)))
  {
    hide Live, JobsNotAhead;
  }

  lemma RenewedWithoutSchedulerInv(s: Service, expiresAt: int)
    requires Inv(s) && s.scheduler.None?
    ensures Inv(Renewed(s, expiresAt))
  {
    hide Live, JobsNotAhead;
  }

  lemma PutsInv(s: Service)
    requires Inv(s)
    ensures Inv(s.(puts := s.puts + 1))
  {
    hide Live, JobsNotAhead;
  }

  lemma RefreshInv(s: Service, attempt: nat, answer: Answer, w: World)
    requires Inv(s)
    requires attempt == s.attempt ==> Live(s.jobs, RefreshToken, s.attempt) == 0
    ensures Inv(HandleRefresh(s, attempt, answer, w).0)
  {
    if attempt == s.attempt {
      if answer.Rejected? {
        EndedInv(s, Some(Revoked));
      } else if answer.Tokens? {
        PutsInv(s);
        hide Inv, Renewed, TransientFailure, Succeeded, Live;
        var s' := if w.write.NotEncoded? then s else s.(puts := s.puts + 1);
        if !w.write.Stored? {
          TransientFailureInv(s', w.now);
        } else if s.scheduler.None? {
          RenewedWithoutSchedulerInv(s', w.now + answer.expiresIn);
        } else {
          var authorizedAt := if s.account.Some? then s.account.value.authorizedAt else w.now;
          RenewedInv(s', w.now + answer.expiresIn, Succeeded(s.scheduler.value, authorizedAt, w.now + answer.expiresIn).0);
        }
      } else {
        TransientFailureInv(s, w.now);
      }
    }
  }

  lemma DeliverInv(s: Service, i: nat, answer: Answer, w: World)
    requires Inv(s) && i < |s.jobs|
    ensures Inv(Deliver(s, i, answer, w).0)
  {
    var s' := s.(jobs := s.jobs[..i] + s.jobs[i + 1..]);
    var job := s.jobs[i];
    DrainedInv(s, i);
    assert job in s.jobs;
    assert job.attempt == s.attempt && job.kind != Read ==> !s.state.StoreUnreadable?;
    hide Inv, HandleExchange, HandleTier, HandleRefresh;
    match job.kind {
      case Exchange => ExchangeInv(s', job.attempt, answer, w);
      case TierCheck => TierInv(s', job.attempt, answer, w);
      case RefreshToken => RefreshInv(s', job.attempt, answer, w);
      case Read =>
    }
  }

  lemma ListenerInv(s: Service, outcome: ListenerOutcome)
    requires Inv(s) && s.listening
    ensures Inv(HandleListener(s, outcome).0)
  {
    LiveSpawned(s.jobs, Job(Exchange, s.attempt), RefreshToken, s.attempt);
  }

  lemma CancelInv(s: Service)
    requires Inv(s)
    ensures Inv(CancelSignIn(s))
  {
    NoneLiveLater(s.jobs, RefreshToken, s.attempt);
  }

  lemma ApplyInv(s: Service, op: Op)
    requires Inv(s) && Possible(s, op)
    ensures Inv(Apply(s, op).0)
  {
    match op {
      case Start(probeOk, bindOk, w) => StartInv(s, probeOk, bindOk, w);
      case Cancel => CancelInv(s);
      case Recheck(w) => if RecheckTier(s, w) != s { SpawnedInv(s.(checkingTier := true), TierCheck); }
      case Ask(w) => if RequestRead(s, w) != s { SpawnedInv(s, Read); }
      case RetryRead(w) => RetryReadInv(s, w);
      case SigningOut(w) => EndedInv(s, None);
      case Listener(outcome) => ListenerInv(s, outcome);
      case Result(i, answer, w) => DeliverInv(s, i, answer, w);
      case Expiry(now) =>
      case RefreshTurn(w) => TickRefreshInv(s, w);
    }
  }

  lemma {:induction false} RunInv(s: Service, ops: seq<Op>, s': Service)
    requires Inv(s) && Run(s, ops, s')
    ensures Inv(s')
    decreases |ops|
  {
    hide Inv, Apply, Possible;
    if ops != [] {
      ApplyInv(s, ops[0]);
      RunInv(Apply(s, ops[0]).0, ops[1..], s');
    }
  }

  /**
   * In every run from one launch: a session shown as active or expired has its account and its scheduler, and at most
   * one refresh of the live attempt is under way, only while the scheduler counts it as in flight.
   */
  lemma SessionsAreComplete(registry: seq<string>, pendingEntry: Option<bool>, file: Option<Account>, stored: Account,
                            w: World, ops: seq<Op>, s: Service)
    requires Run(Launch(registry, pendingEntry, file, stored, w), ops, s)
    ensures s.state.Active? || s.state.Expired? ==> s.account.Some? && s.scheduler.Some?
    ensures Live(s.jobs, RefreshToken, s.attempt) <= 1
    ensures Live(s.jobs, RefreshToken, s.attempt) == 1 ==> s.scheduler.Some? && s.scheduler.value.inFlight
  {
    LaunchInv(registry, pendingEntry, file, stored, w);
    RunInv(Launch(registry, pendingEntry, file, stored, w), ops, s);
  }

  // ----------------------------------------------- signed out stays signed out

  /** Signed out with nothing under way that could still act: only reads may carry the live attempt. */
  ghost predicate Quiet(s: Service) {
    && s.state.SignedOut? && s.scheduler.None? && !s.listening
    && JobsNotAhead(s.jobs, s.attempt)
    && forall job :: job in s.jobs && job.attempt == s.attempt ==> job.kind == Read
  }

  /** Part of a tick. */
  predicate Ticking(op: Op) { op.Listener? || op.Result? || op.Expiry? || op.RefreshTurn? }

  lemma QuietKept(s: Service, op: Op)
    requires Quiet(s) && Possible(s, op) && !op.Start?
    ensures Quiet(Apply(s, op).0) && Apply(s, op).0.puts == s.puts
    ensures Ticking(op) ==>
              var (s', events) := Apply(s, op);
              s' == s.(jobs := s'.jobs, checkingTier := s'.checkingTier) && (events == [] || events == [ReadResult])
  {
    if op.Result? {
      assert s.jobs[op.i] in s.jobs;
      var s' := Apply(s, op).0;
      assert forall job :: job in s'.jobs ==> job in s.jobs;
    }
  }

  /**
   * After signing out or being revoked, and until the next sign-in is started, nothing leaves `SignedOut` and nothing
   * is written to the secure store, whatever results arrive, in whatever order, and whatever else is called.
   */
  lemma {:induction false} SignedOutStays(s: Service, ops: seq<Op>, s': Service)
    requires Quiet(s) && Run(s, ops, s') && forall i :: 0 <= i < |ops| ==> !ops[i].Start?
    ensures Quiet(s') && s'.state.SignedOut? && s'.puts == s.puts
    decreases |ops|
  {
    hide Quiet, Apply, Possible;
    if ops != [] {
      assert !ops[0].Start?;
      QuietKept(s, ops[0]);
      SignedOutStays(Apply(s, ops[0]).0, ops[1..], s');
    } else {
      QuietIsSignedOut(s);
    }
  }

  lemma QuietIsSignedOut(s: Service)
    requires Quiet(s)
    ensures s.state.SignedOut?
  {}

  /** Ticks alone do not even change the note. */
  lemma {:induction false} TicksChangeNothing(s: Service, ops: seq<Op>, s': Service)
    requires Quiet(s) && Run(s, ops, s') && forall i :: 0 <= i < |ops| ==> Ticking(ops[i])
    ensures s' == s.(jobs := s'.jobs, checkingTier := s'.checkingTier)
    decreases |ops|
  {
    hide Quiet, Apply, Possible;
    if ops != [] {
      assert Ticking(ops[0]);
      QuietKept(s, ops[0]);
      TicksChangeNothing(Apply(s, ops[0]).0, ops[1..], s');
    }
  }

  /** From any state of any run: sign-out, and every answer that revokes the session, leave nothing under way. */
  lemma SignOutQuiets(s: Service, w: World)
    requires Inv(s)
    ensures Quiet(SignOut(s, w).0) && Quiet(Revoke(s, w).0)
  {
    EndedInv(s, None);
    EndedInv(s, Some(Revoked));
  }

  lemma RejectionQuiets(s: Service, i: nat, w: World)
    requires Inv(s) && i < |s.jobs| && s.jobs[i].attempt == s.attempt
    requires s.jobs[i].kind == TierCheck || s.jobs[i].kind == RefreshToken
    ensures Quiet(Deliver(s, i, Rejected, w).0) && Deliver(s, i, Rejected, w).0.state == SignedOut(Some(Revoked))
  {
    DrainedInv(s, i);
    var s' := s.(jobs := s.jobs[..i] + s.jobs[i + 1..]);
    EndedInv(s', Some(Revoked));
    EndedInv(s'.(checkingTier := false), Some(Revoked));
  }

  // ------------------------------------------- what sign-out tells the user

  /** Every registered category is reported once: as deleted, or as left behind. */
  lemma {:induction false} EveryStoreIsReported(s: Service, w: World, n: nat)
    requires n <= |s.registry|
    ensures |Cleared(s, w, n)| + |Uncleared(s, w, n)| == n
    ensures forall k :: 0 <= k < n ==> if Clears(w, k) then s.registry[k] in Cleared(s, w, n)
                                       else SignOutIncomplete(s.registry[k]) in Uncleared(s, w, n)
    ensures forall c :: c in Cleared(s, w, n) ==> exists k :: 0 <= k < n && Clears(w, k) && s.registry[k] == c
    ensures forall e :: e in Uncleared(s, w, n) ==>
              exists k :: 0 <= k < n && !Clears(w, k) && e == SignOutIncomplete(s.registry[k])
  {
    if n > 0 {
      EveryStoreIsReported(s, w, n - 1);
    }
  }

  // ------------------------------------------------------------ whole ticks

  /** The invariant survives, and a signed-out service with nothing under way does not change. */
  ghost predicate Keeps(s: Service, s': Service) {
    && (Inv(s) ==> Inv(s'))
    && (Quiet(s) ==> Quiet(s') && s' == s.(jobs := s'.jobs, checkingTier := s'.checkingTier))
  }

  lemma KeepsSame(s: Service)
    ensures Keeps(s, s)
  {
    hide Inv, Quiet;
  }

  lemma KeepsFurther(s: Service, mid: Service, s': Service)
    requires Keeps(s, mid) && Keeps(mid, s')
    ensures Keeps(s, s')
  {
    hide Inv, Quiet;
  }

  lemma TickingKeeps(s: Service, op: Op)
    requires Ticking(op) && Possible(s, op)
    ensures Keeps(s, Apply(s, op).0)
  {
    hide Inv, Quiet, Apply;
    if Inv(s) { ApplyInv(s, op); }
    if Quiet(s) { QuietKept(s, op); }
  }

  lemma {:induction false} DrainKeeps(s: Service, arrivals: seq<Arrival>)
    ensures Keeps(s, Drain(s, arrivals).0)
  {
    hide Keeps, Deliver;
    if arrivals == [] {
      KeepsSame(s);
    } else {
      var n := |arrivals| - 1;
      DrainKeeps(s, arrivals[..n]);
      var before := Drain(s, arrivals[..n]).0;
      if arrivals[n].i < |before.jobs| {
        TickingKeeps(before, Result(arrivals[n].i, arrivals[n].answer, arrivals[n].world));
        KeepsFurther(s, before, Drain(s, arrivals).0);
      }
    }
  }

  lemma HeardKeeps(s: Service, outcome: Option<ListenerOutcome>)
    ensures Keeps(s, Heard(s, outcome).0)
  {
    hide Keeps, HandleListener;
    if s.listening && outcome.Some? {
      TickingKeeps(s, Listener(outcome.value));
    } else {
      KeepsSame(s);
    }
  }

  /** A whole tick keeps the invariant, and on a signed-out service with nothing under way it changes nothing. */
  lemma TickKeeps(s: Service, outcome: Option<ListenerOutcome>, arrivals: seq<Arrival>, w: World)
    ensures Keeps(s, Tick(s, outcome, arrivals, w).0)
  {
    hide Keeps, Heard, Drain, CheckExpiry, TickRefresh;
    var heard := Heard(s, outcome).0;
    HeardKeeps(s, outcome);
    DrainKeeps(heard, arrivals);
    var drained := Drain(heard, arrivals).0;
    KeepsFurther(s, heard, drained);
    TickingKeeps(drained, Expiry(w.now));
    var expired := CheckExpiry(drained, w.now).0;
    KeepsFurther(s, drained, expired);
    TickingKeeps(expired, RefreshTurn(w));
    KeepsFurther(s, expired, TickRefresh(expired, w).0);
  }
}

/** What each command and each worker's answer achieves, and what follows from it over a run. */
module AccountOutcomes {
  import opened Prelude
  import opened Refresh
  import opened AccountModel
  import opened AccountProperties
  import opened AccountConditions

  // --------------------------------------------------------------- refresh

  /**
   * A stored refresh makes an expired session active again, moves its expiry, and leaves the scheduler idle, without
   * failures, due before the new expiry; one that could not be stored leaves state and account and counts as a failure.
   */
  lemma RefreshAchieves(s: Service, i: nat, expiresIn: nat, w: World)
    requires Inv(s) && i < |s.jobs| && s.jobs[i] == Job(RefreshToken, s.attempt)
    ensures s.scheduler.Some?
    ensures w.write.Stored? ==>
              var (s', events) := Deliver(s, i, Tokens(expiresIn), w);
              && s'.state == (if s.state == Expired then Active else s.state)
              && (s.account.Some? ==>
                    s'.account == Some(Account(s.account.value.authorizedAt, w.now + expiresIn, s.account.value.tier)))
              && s'.scheduler.Some? && !s'.scheduler.value.inFlight && s'.scheduler.value.failures == 0
              && (s.account.Some? && s.account.value.authorizedAt <= w.now + expiresIn ==>
                    var until := w.now + expiresIn;
                    s'.scheduler.value.dueAt
                    == until - Min((until - s.account.value.authorizedAt) / 2, 300_000_000_000) <= until)
              && s'.puts == s.puts + 1 && s'.attempt == s.attempt && s'.tier == s.tier
              && events == if s.scheduler.value.failingRaised then [RefreshRecovered] else []
    ensures !w.write.Stored? ==>
              CountsAsFailure(s, i, Deliver(s, i, Tokens(expiresIn), w), w, if w.write == Refused then 1 else 0)
  {
    SchedulerInFlight(s, i);
    if !w.write.Stored? {
      RefreshUnstored(s, i, expiresIn, w);
    }
    hide Inv, BackoffDelay, DueAt, CountsAsFailure;
    if s.account.Some? && s.account.value.authorizedAt <= w.now + expiresIn {
      DueWithinLifetime(s.account.value.authorizedAt, w.now + expiresIn);
    }
  }

  lemma RefreshUnstored(s: Service, i: nat, expiresIn: nat, w: World)
    requires i < |s.jobs| && s.jobs[i] == Job(RefreshToken, s.attempt) && s.scheduler.Some? && !w.write.Stored?
    ensures CountsAsFailure(s, i, Deliver(s, i, Tokens(expiresIn), w), w, if w.write == Refused then 1 else 0)
  {
    hide BackoffDelay;
  }

  lemma SchedulerInFlight(s: Service, i: nat)
    requires Inv(s) && i < |s.jobs| && s.jobs[i] == Job(RefreshToken, s.attempt)
    ensures s.scheduler.Some? && s.scheduler.value.inFlight
  {
    assert s.jobs[i] in s.jobs;
  }

  /** An answer that is neither tokens nor a rejection counts as a failure as well; a rejection ends the session. */
  lemma RefreshFails(s: Service, i: nat, answer: Answer, w: World)
    requires Inv(s) && i < |s.jobs| && s.jobs[i] == Job(RefreshToken, s.attempt)
    ensures s.scheduler.Some?
    ensures answer.Profile? || answer.OtherError? ==> CountsAsFailure(s, i, Deliver(s, i, answer, w), w, 0)
    ensures answer.Rejected? ==> SessionEnded(s, Deliver(s, i, answer, w), Some(Revoked))
  {
    SchedulerInFlight(s, i);
    hide Inv, BackoffDelay;
  }

  /** Session and account stay; one more failure in a row, with the wait for that many before the next try. */
  ghost predicate CountsAsFailure(s: Service, i: nat, r: AccountModel.Result, w: World, puts: nat)
    requires i < |s.jobs| && s.scheduler.Some?
  {
    var (s', events) := r;
    var failures := s.scheduler.value.failures + 1;
    && s'.state == s.state && s'.account == s.account && s'.tier == s.tier && s'.attempt == s.attempt
    && s'.scheduler.Some? && !s'.scheduler.value.inFlight && s'.scheduler.value.failures == failures
    && s'.scheduler.value.dueAt == w.now + BackoffDelay(failures)
    && s'.puts == s.puts + puts
    && events == if failures == 3 && !s.scheduler.value.failingRaised then [RefreshFailing] else []
  }

  /** Nobody is signed in any more, and every result still to come is stale. */
  ghost predicate SessionEnded(s: Service, r: AccountModel.Result, note: Option<Note>) {
    var (s', events) := r;
    && s'.state == SignedOut(note) && s'.attempt == s.attempt + 1
    && s'.account.None? && s'.scheduler.None? && s'.tier == Unknown
    && !s'.listening && !s'.pending && !s'.checkingTier && s'.puts == s.puts
    && events != [] && (events[0] == SessionRevoked <==> note == Some(Revoked))
  }

  /**
   * Signing out ends the session and tells what became of every registered store: the names of those deleted, and one
   * warning for each of the others; a revocation gives the warnings too.
   */
  lemma SignOutReports(s: Service, w: World)
    ensures SessionEnded(s, SignOut(s, w), None) && SessionEnded(s, Revoke(s, w), Some(Revoked))
    ensures var events := SignOut(s, w).1;
            && events[0].SignedOutOf?
            && (forall k :: 0 <= k < |s.registry| ==>
                  if Clears(w, k) then s.registry[k] in events[0].categories
                  else SignOutIncomplete(s.registry[k]) in events[1..])
            && |events[0].categories| + |events[1..]| == |s.registry|
            && Revoke(s, w).1[1..] == events[1..]
  {
    EveryStoreIsReported(s, w, |s.registry|);
    assert SignOut(s, w).1[1..] == Uncleared(s, w, |s.registry|);
    assert Revoke(s, w).1[1..] == Uncleared(s, w, |s.registry|);
  }

  // ---------------------------------------------------------------- expiry

  /** A result of the live attempt that brings tokens, and they were stored. */
  predicate Grants(s: Service, op: Op)
    requires Possible(s, op)
  {
    && op.Result? && s.jobs[op.i].attempt == s.attempt && s.jobs[op.i].kind in {Exchange, RefreshToken}
    && op.answer.Tokens? && op.world.write == Stored
  }

  /** When the tokens last granted expire, read off the answers and the clock alone. */
  function GrantedUntil(s: Service, op: Op, until: int): int
    requires Possible(s, op)
  {
    if Grants(s, op) then op.world.now + op.answer.expiresIn else until
  }

  ghost predicate Lasts(s: Service, until: int) { s.account.Some? ==> s.account.value.expiresAt == until }

  lemma GrantKept(s: Service, op: Op, until: int)
    requires Lasts(s, until) && Possible(s, op)
    ensures Lasts(Apply(s, op).0, GrantedUntil(s, op, until))
  {
    if op.Result? {
      DeliveredGrant(s, op, until);
    } else {
      hide Lasts;
      AccountStays(s, op);
      SameAccountLasts(s, Apply(s, op).0, until);
    }
  }

  lemma SameAccountLasts(s: Service, s': Service, until: int)
    requires Lasts(s, until) && (s'.account == s.account || s'.account.None?)
    ensures Lasts(s', until)
  {}

  lemma AccountStays(s: Service, op: Op)
    requires Possible(s, op) && !op.Result?
    ensures Apply(s, op).0.account == s.account || Apply(s, op).0.account.None?
  {
    hide FailedOnce, Act, Armed, Cleared, Uncleared;
  }

  lemma DeliveredGrant(s: Service, op: Op, until: int)
    requires Lasts(s, until) && Possible(s, op) && op.Result?
    ensures Lasts(Apply(s, op).0, GrantedUntil(s, op, until))
  {
    hide FailedOnce, Armed, Succeeded, Cleared, Uncleared;
  }

  /** A run, with the expiry last granted before and after it. */
  ghost predicate GrantRun(s: Service, until: int, ops: seq<Op>, s': Service, until': int)
    decreases |ops|
  {
    if ops == [] then s' == s && until' == until
    else Possible(s, ops[0]) && GrantRun(Apply(s, ops[0]).0, GrantedUntil(s, ops[0], until), ops[1..], s', until')
  }

  lemma {:induction false} GrantRunKeeps(s: Service, until: int, ops: seq<Op>, s': Service, until': int)
    requires Inv(s) && Lasts(s, until) && GrantRun(s, until, ops, s', until')
    ensures Inv(s') && Lasts(s', until')
    decreases |ops|
  {
    hide Inv, Lasts, Apply, Possible, Grants;
    if ops != [] {
      ApplyInv(s, ops[0]);
      GrantKept(s, ops[0], until);
      GrantRunKeeps(Apply(s, ops[0]).0, GrantedUntil(s, ops[0], until), ops[1..], s', until');
    }
  }

  /** The credential and the account file found at launch agree on when the session expires. */
  ghost predicate FoundUntil(file: Option<Account>, stored: Account, until: int) {
    until == if file.Some? then file.value.expiresAt else stored.expiresAt
  }

  /**
   * In every run from one launch: expiry is reported by exactly the checks of an active session made at or after the
   * expiry of the tokens last granted, by sign-in or refresh, and makes the session expired.
   */
  lemma ExpiresWhenGrantsDo(registry: seq<string>, pendingEntry: Option<bool>, file: Option<Account>, stored: Account,
                            w: World, start: int, ops: seq<Op>, s: Service, until: int, op: Op)
    requires FoundUntil(file, stored, start)
    requires GrantRun(Launch(registry, pendingEntry, file, stored, w), start, ops, s, until) && Possible(s, op)
    ensures SessionExpired in Apply(s, op).1 <==> op.Expiry? && s.state == Active && op.now >= until
    ensures SessionExpired in Apply(s, op).1 ==> Apply(s, op).0 == s.(state := Expired)
    ensures s.state == Active || s.state == Expired || s.state.Checking? ==>
              s.account.Some? && s.account.value.expiresAt == until
  {
    var s0 := Launch(registry, pendingEntry, file, stored, w);
    LaunchInv(registry, pendingEntry, file, stored, w);
    LaunchLasts(registry, pendingEntry, file, stored, w, start);
    hide Launch;
    GrantRunKeeps(s0, start, ops, s, until);
    OnlyExpiryReports(s, op);
  }

  lemma LaunchLasts(registry: seq<string>, pendingEntry: Option<bool>, file: Option<Account>, stored: Account, w: World,
                    start: int)
    requires FoundUntil(file, stored, start)
    ensures Lasts(Launch(registry, pendingEntry, file, stored, w), start)
  {}

  lemma OnlyExpiryReports(s: Service, op: Op)
    requires Possible(s, op)
    ensures SessionExpired in Apply(s, op).1 <==>
              op.Expiry? && s.state == Active && s.account.Some? && op.now >= s.account.value.expiresAt
    ensures SessionExpired in Apply(s, op).1 ==> Apply(s, op).0 == s.(state := Expired)
  {
    hide FailedOnce, Act, Succeeded;
    match op {
      case SigningOut(w) => UnclearedOnlyWarns(s, w, |s.registry|);
      case RetryRead(w) => UnclearedOnlyWarns(s, w, |s.registry|);
      case Result(i, answer, w) => DeliverNeverExpires(s, i, answer, w);
      case _ =>
    }
  }

  lemma {:induction false} UnclearedOnlyWarns(s: Service, w: World, n: nat)
    requires n <= |s.registry|
    ensures forall e :: e in Uncleared(s, w, n) ==> e.SignOutIncomplete?
  {
    if n > 0 {
      UnclearedOnlyWarns(s, w, n - 1);
    }
  }

  lemma DeliverNeverExpires(s: Service, i: nat, answer: Answer, w: World)
    requires i < |s.jobs|
    ensures SessionExpired !in Deliver(s, i, answer, w).1
  {
    hide FailedOnce, Succeeded;
    var s' := s.(jobs := s.jobs[..i] + s.jobs[i + 1..]);
    UnclearedOnlyWarns(s', w, |s'.registry|);
    UnclearedOnlyWarns(s'.(checkingTier := false), w, |s'.registry|);
  }

  /** Every expiry check of the run is made before the tokens granted by then expire. */
  ghost predicate InTime(s: Service, until: int, ops: seq<Op>)
    decreases |ops|
  {
    ops == [] || (Possible(s, ops[0]) ==>
      && (ops[0].Expiry? ==> ops[0].now < until)
      && InTime(Apply(s, ops[0]).0, GrantedUntil(s, ops[0], until), ops[1..]))
  }

  function EventsOf(s: Service, ops: seq<Op>): seq<Event>
    decreases |ops|
  {
    if ops == [] || !Possible(s, ops[0]) then [] else Apply(s, ops[0]).1 + EventsOf(Apply(s, ops[0]).0, ops[1..])
  }

  /** After a stored refresh, no run reports an expiry before the tokens granted by then expire. */
  lemma RefreshedSessionLasts(s: Service, i: nat, expiresIn: nat, w: World, ops: seq<Op>, s': Service)
    requires Inv(s) && i < |s.jobs| && s.jobs[i] == Job(RefreshToken, s.attempt) && w.write.Stored?
    requires var s1 := Deliver(s, i, Tokens(expiresIn), w).0; Run(s1, ops, s') && InTime(s1, w.now + expiresIn, ops)
    ensures SessionExpired !in EventsOf(Deliver(s, i, Tokens(expiresIn), w).0, ops)
  {
    var op := Result(i, Tokens(expiresIn), w);
    ApplyInv(s, op);
    RefreshAchieves(s, i, expiresIn, w);
    RefreshLasts(s, i, expiresIn, w);
    hide Inv, Lasts, Run;
    NoExpiryInTime(Deliver(s, i, Tokens(expiresIn), w).0, w.now + expiresIn, ops, s');
  }

  lemma RefreshLasts(s: Service, i: nat, expiresIn: nat, w: World)
    requires i < |s.jobs| && s.jobs[i] == Job(RefreshToken, s.attempt) && w.write.Stored?
    ensures Lasts(Deliver(s, i, Tokens(expiresIn), w).0, w.now + expiresIn)
  {
    hide Succeeded;
  }

  lemma {:induction false} NoExpiryInTime(s: Service, until: int, ops: seq<Op>, s': Service)
    requires Inv(s) && Lasts(s, until) && Run(s, ops, s') && InTime(s, until, ops)
    ensures SessionExpired !in EventsOf(s, ops)
    decreases |ops|
  {
    hide Inv, Apply, Possible, Grants;
    if ops != [] {
      ApplyInv(s, ops[0]);
      GrantKept(s, ops[0], until);
      OnlyExpiryReports(s, ops[0]);
      NoExpiryInTime(Apply(s, ops[0]).0, GrantedUntil(s, ops[0], until), ops[1..], s');
    }
  }

  // --------------------------------------------------------------- sign-in

  /**
   * A sign-in that goes well, from any state of any run: authorizing, checking, and active with the tokens' expiry and
   * the tier the service names; the credential is written once, and each step is reported.
   */
  lemma SignInCompletes(s: Service, w: World, w1: World, w2: World, expiresIn: nat, tier: Tier)
    requires Inv(s) && w.write == Stored && w1.write == Stored
    ensures var (s1, e1) := StartSignIn(s, true, true, w);
            var (s2, e2) := HandleListener(s1, Code);
            var n := |s.jobs|;
            && s1.state == Authorizing(s.attempt + 1, false) && s1.listening && e1 == [BrowserUrlReady]
            && |s2.jobs| == n + 1 && s2.jobs[n] == Job(Exchange, s.attempt + 1) && !s2.listening && e2 == []
            && var (s3, e3) := Deliver(s2, n, Tokens(expiresIn), w1);
               && s3.state == Checking(s.attempt + 1) && e3 == [Authorized] && !s3.pending
               && s3.account == Some(Account(w1.now, w1.now + expiresIn, Unknown)) && s3.tier == Unknown
               && s3.puts == s.puts + 2 && s3.checkingTier
               && |s3.jobs| == n + 1 && s3.jobs[n] == Job(TierCheck, s.attempt + 1)
               && var (s4, e4) := Deliver(s3, n, Profile(tier), w2);
                  && s4.state == Active && s4.tier == tier && e4 == [TierChecked(tier)] && !s4.checkingTier
                  && s4.account == Some(Account(w1.now, w1.now + expiresIn, tier))
                  && s4.jobs == s.jobs && s4.scheduler.Some? && s4.attempt == s.attempt + 1
                  && (s.scheduler.Some? ==> s4.scheduler == s.scheduler)
                  && (s.scheduler.None? ==>
                        !s4.scheduler.value.inFlight && s4.scheduler.value.failures == 0
                        && s4.scheduler.value.dueAt == w1.now + expiresIn - Min(expiresIn / 2, 300_000_000_000))
  {
    var s1 := StartSignIn(s, true, true, w).0;
    var s2 := HandleListener(s1, Code).0;
    var n := |s.jobs|;
    assert s2.jobs[..n] + s2.jobs[n + 1..] == s.jobs;
    var s3 := Deliver(s2, n, Tokens(expiresIn), w1).0;
    assert s3.jobs[..n] + s3.jobs[n + 1..] == s.jobs;
    DueWithinLifetime(w1.now, w1.now + expiresIn);
    hide DueAt;
  }

  /** Nobody is signed in, the sign-in is over, and the event names the same reason as the state. */
  ghost predicate SignInFailedWith(s: Service, r: AccountModel.Result, note: Note) {
    var (s', events) := r;
    && s'.state == SignedOut(Some(note)) && events == [SignInFailed(note)] && !s'.listening && !s'.pending
    && s'.account == s.account && s'.scheduler == s.scheduler
  }

  /** How a sign-in can end early: before it starts, at the browser, or at the exchange. */
  lemma SignInFailures(s: Service, probeOk: bool, bindOk: bool, w: World, outcome: ListenerOutcome)
    ensures !probeOk ==> StartSignIn(s, probeOk, bindOk, w) == (s, [StoreUnavailable])
    ensures probeOk && (!bindOk || w.write == NotEncoded) ==>
              SignInFailedWith(s, StartSignIn(s, probeOk, bindOk, w), ServiceError)
    ensures probeOk && bindOk && w.write == Refused ==>
              var (s', events) := StartSignIn(s, probeOk, bindOk, w);
              events == [StoreUnavailable] && s'.state == s.state && !s'.listening && s'.attempt == s.attempt + 1
    ensures outcome == ListenerTimedOut ==> SignInFailedWith(s, HandleListener(s, outcome), TimedOut)
    ensures outcome == BindLost || outcome == Error(false) ==>
              SignInFailedWith(s, HandleListener(s, outcome), ServiceError)
    ensures outcome == Error(true) ==> SignInFailedWith(s, HandleListener(s, outcome), Cancelled)
    ensures outcome == ListenerCancelled ==> HandleListener(s, outcome) == (s.(listening := false), [])
    ensures outcome == Code && !s.pending ==> HandleListener(s, outcome) == (s.(listening := false), [])
    ensures var s' := CancelSignIn(s);
            && s'.state == SignedOut(Some(Cancelled)) && s'.attempt == s.attempt + 1 && !s'.listening && !s'.pending
            && s'.account == s.account && s'.scheduler == s.scheduler && s'.jobs == s.jobs
  {}

  /** An exchange of the live attempt without tokens, or whose credential cannot be written, fails the sign-in. */
  lemma ExchangeFails(s: Service, i: nat, answer: Answer, w: World)
    requires i < |s.jobs| && s.jobs[i].kind == Exchange
    ensures var r := Deliver(s, i, answer, w);
            && (s.jobs[i].attempt != s.attempt ==> r == (s.(jobs := r.0.jobs), []))
            && (s.jobs[i].attempt == s.attempt && (!answer.Tokens? || w.write == NotEncoded) ==>
                  SignInFailedWith(s, r, ServiceError) && r.0.puts == s.puts)
            && (s.jobs[i].attempt == s.attempt && answer.Tokens? && w.write == Refused ==>
                  && r.0.state == SignedOut(Some(ServiceError)) && r.1 == [StoreUnavailable] && r.0.puts == s.puts + 1
                  && r.0.account == s.account)
  {}

  // ------------------------------------------------------------- the tier

  /** A live check brings the tier into service and account, makes a checking session active, and lowers the flag. */
  lemma TierCheckAchieves(s: Service, i: nat, answer: Answer, w: World)
    requires Inv(s) && i < |s.jobs| && s.jobs[i] == Job(TierCheck, s.attempt)
    ensures var (s', events) := Deliver(s, i, answer, w);
            if answer.Rejected? then SessionEnded(s, (s', events), Some(Revoked))
            else
              && !s'.checkingTier && s'.attempt == s.attempt && s'.puts == s.puts
              && s'.state == (if s.state.Checking? then Active else s.state)
              && s'.tier == (if answer.Profile? then answer.tier else Unknown)
              && s'.account.Some? == s.account.Some?
              && (s.account.Some? && answer.Profile? ==>
                    s'.account.value == Account(s.account.value.authorizedAt, s.account.value.expiresAt, answer.tier))
              && (!answer.Profile? ==> s'.account == s.account)
              && (s.scheduler.Some? ==> s'.scheduler == s.scheduler)
              && (s.scheduler.None? && s.account.Some? ==> s'.scheduler.Some? && !s'.scheduler.value.inFlight)
              && events == if answer.Profile? then [TierChecked(answer.tier)] else [TierCheckFailed]
  {}

  /** Which workers the commands and the clock start: a check, a read, a refresh, each under exactly its condition. */
  lemma WorkersStart(s: Service, w: World)
    ensures RecheckTier(s, w).jobs == s.jobs + [Job(TierCheck, s.attempt)] <==>
              !s.checkingTier && (s.state == Active || s.state == Expired) && w.credential == Readable
    ensures RecheckTier(s, w).jobs == s.jobs || RecheckTier(s, w).jobs == s.jobs + [Job(TierCheck, s.attempt)]
    ensures RecheckTier(s, w).jobs != s.jobs ==> RecheckTier(s, w).checkingTier
    ensures RequestRead(s, w).jobs == (if w.credential == Readable then s.jobs + [Job(Read, s.attempt)] else s.jobs)
    ensures var (s', events) := TickRefresh(s, w);
            var due := s.scheduler.Some? && !s.scheduler.value.inFlight && w.now >= s.scheduler.value.dueAt;
            && s'.jobs == (if due && w.credential == Readable then s.jobs + [Job(RefreshToken, s.attempt)] else s.jobs)
            && (due && w.credential == Readable ==> s'.scheduler.value.inFlight && events == [])
            && (due && w.credential != Readable ==>
                  && s'.scheduler.Some? && !s'.scheduler.value.inFlight
                  && s'.scheduler.value.failures == s.scheduler.value.failures + 1)
            && (!due ==> s' == s && events == [])
  {
    hide BackoffDelay;
  }

  /** A read of the live attempt is answered; nothing of the session changes. */
  lemma ReadsAreAnswered(s: Service, i: nat, answer: Answer, w: World)
    requires i < |s.jobs| && s.jobs[i].kind == Read
    ensures var (s', events) := Deliver(s, i, answer, w);
            && s' == s.(jobs := s'.jobs) && |s'.jobs| == |s.jobs| - 1
            && events == if s.jobs[i].attempt == s.attempt then [ReadResult] else []
  {}

  // ------------------------------------------------------------- the launch

  /** What a launch finds: an attempt to go on with or to give up, a session by its time, or nobody. */
  lemma LaunchFinds(registry: seq<string>, pendingEntry: Option<bool>, file: Option<Account>, stored: Account, w: World)
    ensures var s := Launch(registry, pendingEntry, file, stored, w);
            && (pendingEntry == Some(true) ==> s.state == Authorizing(1, true) && s.listening && s.attempt == 1)
            && (pendingEntry == Some(false) ==> s.state == SignedOut(Some(PreviousDidNotFinish)) && !s.listening)
            && (pendingEntry.None? && w.credential == Missing ==> s.state == SignedOut(None) && s.account.None?)
            && (pendingEntry.None? && w.credential == Unreadable ==>
                  && s.state == (if file.Some? then StoreUnreadable else SignedOut(None)) && s.account == file
                  && s.tier == if file.Some? then file.value.tier else Unknown)
            && (pendingEntry.None? && w.credential == Readable ==>
                  var account := if file.Some? then file.value else Account(stored.authorizedAt, stored.expiresAt, Unknown);
                  InSessionFrom(s, account, w.now) && s.attempt == 0)
            && (s.jobs != [] <==> pendingEntry.None? && w.credential == Readable)
  {}

  /** A session resumed with `account`: expired exactly by its time, being checked, its refresh armed. */
  ghost predicate InSessionFrom(s: Service, account: Account, now: int) {
    && s.state == (if now < account.expiresAt then Active else Expired)
    && s.account == Some(account) && s.tier == account.tier
    && s.checkingTier && Job(TierCheck, s.attempt) in s.jobs
    && s.scheduler.Some? && !s.scheduler.value.inFlight
    && (account.authorizedAt <= account.expiresAt ==>
          account.authorizedAt <= s.scheduler.value.dueAt <= account.expiresAt)
  }

  /** Reading again, behind an unreadable store: the session by its time, nobody, or still unreadable. */
  lemma RetryFinds(s: Service, w: World)
    ensures !(s.state == StoreUnreadable && s.account.Some?) ==> RetryStoreRead(s, w) == (s, [])
    ensures s.state == StoreUnreadable && s.account.Some? ==>
              var (s', events) := RetryStoreRead(s, w);
              match w.credential
              case Readable => InSessionFrom(s', s.account.value, w.now) && events == []
              case Missing => SessionEnded(s, (s', events), Some(Revoked))
              case Unreadable => s' == s && events == [StoreUnavailable]
  {}

  // --------------------------------------------------------------- a tick

  /** Results are handled one after the other, each in the state the one before left. */
  lemma {:induction false} DrainsInOrder(s: Service, first: seq<Arrival>, rest: seq<Arrival>)
    ensures Drain(s, first + rest) == Then(Drain(s, first), Drain(Drain(s, first).0, rest))
    ensures first == [] ==> Drain(s, first) == (s, [])
    ensures |first| == 1 && first[0].i < |s.jobs| ==>
              Drain(s, first) == Deliver(s, first[0].i, first[0].answer, first[0].world)
    decreases |rest|
  {
    hide Deliver;
    if |first| == 1 && first[0].i < |s.jobs| {
      var one := Deliver(s, first[0].i, first[0].answer, first[0].world);
      assert first[..0] == [] && [] + one.1 == one.1;
    }
    if rest == [] {
      assert first + rest == first;
      assert Drain(s, first).1 + [] == Drain(s, first).1;
    } else {
      var n := |rest| - 1;
      assert (first + rest)[..|first| + n] == first + rest[..n];
      DrainsInOrder(s, first, rest[..n]);
      var before := Drain(s, first);
      var middle := Drain(before.0, rest[..n]);
      if rest[n].i < |middle.0.jobs| {
        var last := Deliver(middle.0, rest[n].i, rest[n].answer, rest[n].world);
        assert (before.1 + middle.1) + last.1 == before.1 + (middle.1 + last.1);
      }
    }
  }

  /**
   * A tick leaves nothing undone: the listener's outcome is taken, a session past its expiry is not active any more, and
   * no refresh that is due is left waiting.
   */
  lemma TickLeavesNothingUndone(s: Service, outcome: Option<ListenerOutcome>, arrivals: seq<Arrival>, w: World)
    requires Inv(s)
    ensures var s' := Tick(s, outcome, arrivals, w).0;
            && (outcome.Some? ==> !s'.listening)
            && (s'.state == Active ==> s'.account.Some? && w.now < s'.account.value.expiresAt)
            && (s'.scheduler.Some? ==> s'.scheduler.value.inFlight || w.now < s'.scheduler.value.dueAt)
  {
    hide Deliver, HandleListener, Inv, BackoffDelay;
    var heard := Heard(s, outcome).0;
    HeardInv(s, outcome);
    DrainInv(heard, arrivals);
    var drained := Drain(heard, arrivals).0;
    var expired := CheckExpiry(drained, w.now).0;
    ExpiryNoticed(drained, w.now);
    RefreshNoticed(expired, w);
  }

  lemma HeardInv(s: Service, outcome: Option<ListenerOutcome>)
    requires Inv(s)
    ensures Inv(Heard(s, outcome).0) && (outcome.Some? ==> !Heard(s, outcome).0.listening)
  {
    if s.listening && outcome.Some? {
      ListenerInv(s, outcome.value);
      ListenerHeard(s, outcome.value);
    }
  }

  lemma ListenerHeard(s: Service, outcome: ListenerOutcome)
    ensures !HandleListener(s, outcome).0.listening
  {}

  lemma {:induction false} DrainInv(s: Service, arrivals: seq<Arrival>)
    requires Inv(s)
    ensures Inv(Drain(s, arrivals).0) && (!s.listening ==> !Drain(s, arrivals).0.listening)
  {
    hide Inv, Deliver;
    if arrivals != [] {
      var n := |arrivals| - 1;
      DrainInv(s, arrivals[..n]);
      var before := Drain(s, arrivals[..n]).0;
      if arrivals[n].i < |before.jobs| {
        DeliverInv(before, arrivals[n].i, arrivals[n].answer, arrivals[n].world);
        DeliverNeverListens(before, arrivals[n].i, arrivals[n].answer, arrivals[n].world);
      }
    }
  }

  lemma DeliverNeverListens(s: Service, i: nat, answer: Answer, w: World)
    requires i < |s.jobs|
    ensures !s.listening ==> !Deliver(s, i, answer, w).0.listening
  {
    hide FailedOnce, Succeeded, Armed;
  }

  lemma ExpiryNoticed(s: Service, now: int)
    requires Inv(s)
    ensures var s' := CheckExpiry(s, now).0;
            && (s'.state == Active ==> s'.account.Some? && now < s'.account.value.expiresAt)
            && s'.listening == s.listening
  {}

  lemma RefreshNoticed(s: Service, w: World)
    ensures var s' := TickRefresh(s, w).0;
            && (s'.scheduler.Some? ==> s'.scheduler.value.inFlight || w.now < s'.scheduler.value.dueAt)
            && s'.state == s.state && s'.account == s.account && s'.listening == s.listening
  {
    BackoffIsPositive();
    hide BackoffDelay;
  }

  lemma BackoffIsPositive()
    ensures forall n :: BackoffDelay(n) > 0
  {}
}

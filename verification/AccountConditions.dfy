/** When a signed-out service can still act, and when tier checks stay one at a time. */
module AccountConditions {
  import opened Prelude
  import opened Refresh
  import opened AccountModel
  import opened AccountProperties

  // ------------------------------------------------- signed out, yet able to act

  ghost predicate LiveJob(s: Service, kind: JobKind) { Job(kind, s.attempt) in s.jobs }

  /**
   * Something is left that can still act: a scheduler that is free to refresh, an exchange or a refresh of the live
   * attempt, or a tier check of it that will arm a scheduler because there is an account and none is armed.
   */
  ghost predicate CanAct(s: Service) {
    || (s.scheduler.Some? && !s.scheduler.value.inFlight)
    || LiveJob(s, Exchange)
    || LiveJob(s, RefreshToken)
    || (LiveJob(s, TierCheck) && s.scheduler.None? && s.account.Some?)
  }

  ghost predicate AllTicking(ops: seq<Op>) { forall i :: 0 <= i < |ops| ==> Ticking(ops[i]) }

  /** Some ticks from here write the secure store. */
  ghost predicate TicksCanWrite(s: Service) { exists ops, s' :: Run(s, ops, s') && AllTicking(ops) && s'.puts > s.puts }

  /** Some ticks from here leave `SignedOut`. */
  ghost predicate TicksCanLeave(s: Service) {
    exists ops, s' :: Run(s, ops, s') && AllTicking(ops) && !s'.state.SignedOut?
  }

  /** Signed out with nothing left that can act. */
  ghost predicate Calm(s: Service) {
    s.state.SignedOut? && !s.listening && JobsNotAhead(s.jobs, s.attempt) && !CanAct(s)
  }

  lemma EndedCalm(s: Service, note: Option<Note>)
    requires JobsNotAhead(s.jobs, s.attempt)
    ensures Calm(Ended(s, note)) && Ended(s, note).puts == s.puts
  {
    EndedInv(s, note);
  }

  lemma DrainedCalm(s: Service, i: nat)
    requires Calm(s) && i < |s.jobs|
    ensures Calm(s.(jobs := s.jobs[..i] + s.jobs[i + 1..]))
  {
    var s' := s.(jobs := s.jobs[..i] + s.jobs[i + 1..]);
    assert forall job :: job in s'.jobs ==> job in s.jobs;
  }

  /** A tier result on a calm service arms no scheduler. */
  lemma TierCalm(s: Service, attempt: nat, answer: Answer, w: World)
    requires Calm(s) && (attempt == s.attempt ==> s.scheduler.Some? || s.account.None?)
    ensures Calm(HandleTier(s, attempt, answer, w).0) && HandleTier(s, attempt, answer, w).0.puts == s.puts
  {
    if attempt == s.attempt && answer.Rejected? {
      EndedCalm(s.(checkingTier := false), Some(Revoked));
    }
  }

  lemma DeliverCalm(s: Service, i: nat, answer: Answer, w: World)
    requires Calm(s) && i < |s.jobs|
    ensures Calm(Deliver(s, i, answer, w).0) && Deliver(s, i, answer, w).0.puts == s.puts
  {
    var job, s' := s.jobs[i], s.(jobs := s.jobs[..i] + s.jobs[i + 1..]);
    DrainedCalm(s, i);
    assert job in s.jobs;
    if job.kind == TierCheck {
      assert job.attempt == s.attempt ==> job == Job(TierCheck, s.attempt);
      TierCalm(s', job.attempt, answer, w);
    } else if job.kind != Read {
      assert job.attempt != s.attempt;
    }
  }

  /** Nothing but a new sign-in makes a calm service act. */
  lemma CalmKept(s: Service, op: Op)
    requires Calm(s) && Possible(s, op) && !op.Start?
    ensures Calm(Apply(s, op).0) && Apply(s, op).0.puts == s.puts
  {
    match op {
      case SigningOut(w) => EndedCalm(s, None);
      case Result(i, answer, w) => DeliverCalm(s, i, answer, w);
      case Ask(w) => assert forall job :: job in RequestRead(s, w).jobs ==> job in s.jobs || job.kind == Read;
      case _ =>
    }
  }

  /** From a calm service no run without a new sign-in leaves `SignedOut` or writes the secure store. */
  lemma {:induction false} CalmStays(s: Service, ops: seq<Op>, s': Service)
    requires Calm(s) && Run(s, ops, s') && forall i :: 0 <= i < |ops| ==> !ops[i].Start?
    ensures Calm(s') && s'.puts == s.puts
    decreases |ops|
  {
    hide Calm, Apply, Possible;
    if ops != [] {
      assert !ops[0].Start?;
      CalmKept(s, ops[0]);
      CalmStays(Apply(s, ops[0]).0, ops[1..], s');
    }
  }

  // ------------------------------------------------------ how it acts if it can

  lemma OneOp(s: Service, op: Op)
    requires Possible(s, op) && Ticking(op)
    ensures Apply(s, op).0.puts > s.puts ==> TicksCanWrite(s)
    ensures !Apply(s, op).0.state.SignedOut? ==> TicksCanLeave(s)
  {
    var s' := Apply(s, op).0;
    hide Apply, Possible;
    assert Run(s', [], s');
    assert [op][1..] == [];
    assert Run(s, [op], s') && AllTicking([op]);
  }

  /** What can be written after a tick step that wrote nothing can be written before it. */
  lemma LaterToo(s: Service, op: Op)
    requires Possible(s, op) && Ticking(op) && Apply(s, op).0.puts == s.puts && TicksCanWrite(Apply(s, op).0)
    ensures TicksCanWrite(s)
  {
    hide Apply, Possible;
    var mid := Apply(s, op).0;
    var ops, s' :| Run(mid, ops, s') && AllTicking(ops) && s'.puts > mid.puts;
    var all := [op] + ops;
    assert all[1..] == ops;
    assert Run(s, all, s') && AllTicking(all);
  }

  lemma LiveRefreshActs(s: Service, i: nat)
    requires i < |s.jobs| && s.jobs[i] == Job(RefreshToken, s.attempt)
    ensures TicksCanWrite(s)
  {
    OneOp(s, Result(i, Tokens(0), World(0, Stored, Readable, [])));
  }

  lemma LiveExchangeActs(s: Service, i: nat)
    requires i < |s.jobs| && s.jobs[i] == Job(Exchange, s.attempt)
    ensures TicksCanWrite(s) && TicksCanLeave(s)
  {
    OneOp(s, Result(i, Tokens(0), World(0, Stored, Readable, [])));
  }

  lemma IdleSchedulerActs(s: Service)
    requires s.scheduler.Some? && !s.scheduler.value.inFlight
    ensures TicksCanWrite(s)
  {
    var op := RefreshTurn(World(s.scheduler.value.dueAt, Stored, Readable, []));
    var s' := Apply(s, op).0;
    assert s'.jobs[|s.jobs|] == Job(RefreshToken, s'.attempt);
    LiveRefreshActs(s', |s.jobs|);
    LaterToo(s, op);
  }

  lemma TierCheckActs(s: Service, i: nat)
    requires i < |s.jobs| && s.jobs[i] == Job(TierCheck, s.attempt) && s.scheduler.None? && s.account.Some?
    ensures TicksCanWrite(s)
  {
    var op := Result(i, Profile(Premium), World(0, Stored, Readable, []));
    IdleSchedulerActs(Apply(s, op).0);
    LaterToo(s, op);
  }

  lemma LiveJobAt(s: Service, kind: JobKind) returns (i: nat)
    requires LiveJob(s, kind)
    ensures i < |s.jobs| && s.jobs[i] == Job(kind, s.attempt)
  {
    i :| 0 <= i < |s.jobs| && s.jobs[i] == Job(kind, s.attempt);
  }

  /** Signed out, and no exchange is left that could end that. */
  ghost predicate StaysOut(s: Service) {
    s.state.SignedOut? && !s.listening && JobsNotAhead(s.jobs, s.attempt) && !LiveJob(s, Exchange)
  }

  lemma TierStaysOut(s: Service, attempt: nat, answer: Answer, w: World)
    requires StaysOut(s)
    ensures StaysOut(HandleTier(s, attempt, answer, w).0)
  {
    if attempt == s.attempt && answer.Rejected? {
      EndedOut(s.(checkingTier := false));
    } else {
      hide Armed;
    }
  }

  lemma RefreshStaysOut(s: Service, attempt: nat, answer: Answer, w: World)
    requires StaysOut(s)
    ensures StaysOut(HandleRefresh(s, attempt, answer, w).0)
  {
    if attempt == s.attempt && answer.Rejected? {
      EndedOut(s);
    } else {
      hide FailedOnce, Succeeded, JobsNotAhead;
    }
  }

  lemma TickRefreshStaysOut(s: Service, w: World)
    requires StaysOut(s)
    ensures StaysOut(TickRefresh(s, w).0)
  {
    hide FailedOnce, Act;
  }

  lemma DrainedOut(s: Service, i: nat)
    requires StaysOut(s) && i < |s.jobs|
    ensures StaysOut(s.(jobs := s.jobs[..i] + s.jobs[i + 1..])) && s.jobs[i] != Job(Exchange, s.attempt)
  {
    var s' := s.(jobs := s.jobs[..i] + s.jobs[i + 1..]);
    assert s.jobs[i] in s.jobs;
    assert forall job :: job in s'.jobs ==> job in s.jobs;
  }

  lemma StaysOutKept(s: Service, op: Op)
    requires StaysOut(s) && Possible(s, op) && Ticking(op)
    ensures StaysOut(Apply(s, op).0)
  {
    match op {
      case Result(i, answer, w) =>
        hide StaysOut, HandleTier, HandleRefresh;
        DrainedOut(s, i);
        var s' := s.(jobs := s.jobs[..i] + s.jobs[i + 1..]);
        TierStaysOut(s', s.jobs[i].attempt, answer, w);
        RefreshStaysOut(s', s.jobs[i].attempt, answer, w);
      case RefreshTurn(w) => TickRefreshStaysOut(s, w);
      case _ =>
    }
  }

  lemma EndedOut(s: Service)
    requires JobsNotAhead(s.jobs, s.attempt)
    ensures StaysOut(Ended(s, Some(Revoked)))
  {}

  lemma {:induction false} StaysOutRun(s: Service, ops: seq<Op>, s': Service)
    requires StaysOut(s) && Run(s, ops, s') && AllTicking(ops)
    ensures StaysOut(s')
    decreases |ops|
  {
    hide StaysOut, Apply, Possible;
    if ops != [] {
      assert Ticking(ops[0]);
      StaysOutKept(s, ops[0]);
      StaysOutRun(Apply(s, ops[0]).0, ops[1..], s');
    }
  }

  /**
   * On a signed-out service some ticks write the secure store exactly when something is left that can act: a scheduler
   * not in flight, a live exchange or refresh, or a live tier check with an account to arm a scheduler for. They leave
   * `SignedOut` exactly when the exchange is.
   */
  lemma SignedOutActsIff(s: Service)
    requires Inv(s) && SignInOk(s) && s.state.SignedOut?
    ensures TicksCanWrite(s) <==> CanAct(s)
    ensures TicksCanLeave(s) <==> LiveJob(s, Exchange)
  {
    hide Run, Live;
    if CanAct(s) {
      if s.scheduler.Some? && !s.scheduler.value.inFlight {
        IdleSchedulerActs(s);
      } else if LiveJob(s, Exchange) {
        var i := LiveJobAt(s, Exchange);
        LiveExchangeActs(s, i);
      } else if LiveJob(s, RefreshToken) {
        var i := LiveJobAt(s, RefreshToken);
        LiveRefreshActs(s, i);
      } else {
        var i := LiveJobAt(s, TierCheck);
        TierCheckActs(s, i);
      }
    } else if TicksCanWrite(s) {
      var ops: seq<Op>, s' :| Run(s, ops, s') && AllTicking(ops) && s'.puts > s.puts;
      assert forall i :: 0 <= i < |ops| ==> Ticking(ops[i]);
      CalmStays(s, ops, s');
      assert false;
    }
    if LiveJob(s, Exchange) {
      var i := LiveJobAt(s, Exchange);
      LiveExchangeActs(s, i);
    } else if TicksCanLeave(s) {
      var ops: seq<Op>, s' :| Run(s, ops, s') && AllTicking(ops) && !s'.state.SignedOut?;
      StaysOutRun(s, ops, s');
      assert false;
    }
  }

  /**
   * Sign-out and revocation leave nothing of it: from any state of any run, nothing but a new sign-in makes the service
   * leave `SignedOut` or write the secure store afterwards, by ticks or otherwise.
   */
  lemma SignOutLeavesNothing(s: Service, w: World, ops: seq<Op>, out: Service, s': Service)
    requires Inv(s) && (out == SignOut(s, w).0 || out == Revoke(s, w).0)
    requires Run(out, ops, s') && forall i :: 0 <= i < |ops| ==> !ops[i].Start?
    ensures Calm(out) && !TicksCanWrite(out) && !TicksCanLeave(out)
    ensures Calm(s') && s'.puts == out.puts
  {
    hide Inv, Calm, Run;
    SignOutQuiets(s, w);
    QuietIsCalm(out);
    CalmStays(out, ops, s');
    CalmNeverActs(out);
  }

  lemma QuietIsCalm(s: Service)
    requires Quiet(s)
    ensures Calm(s)
  {}

  lemma CalmNeverActs(s: Service)
    requires Calm(s)
    ensures !TicksCanWrite(s) && !TicksCanLeave(s)
  {
    hide Run;
    forall ops, s' | Run(s, ops, s') && AllTicking(ops) ensures s'.puts == s.puts && s'.state.SignedOut? {
      assert forall i :: 0 <= i < |ops| ==> Ticking(ops[i]);
      CalmStays(s, ops, s');
    }
  }

  // -------------------------------------------------- one sign-in at a time

  /** At most one listener or exchange of the live attempt is under way, and only while authorizing. */
  predicate SignInOk(s: Service) {
    var n := Live(s.jobs, Exchange, s.attempt) + if s.listening then 1 else 0;
    n <= 1 && (n == 1 ==> s.state.Authorizing?)
  }

  predicate SigningIn(s: Service) { s.listening || Live(s.jobs, Exchange, s.attempt) > 0 }

  predicate InSession(s: Service) { s.state.Active? || s.state.Expired? }

  /**
   * At most one tier check of the live attempt is under way, none while signing in, and its flag is up: in a session,
   * where another could be asked for, and while `Checking` too if `flagged`.
   */
  predicate OneCheck(s: Service, flagged: bool) {
    var n := Live(s.jobs, TierCheck, s.attempt);
    && n <= 1 && (SigningIn(s) ==> n == 0)
    && (n == 1 ==> (s.state.Checking? || InSession(s)) && (s.checkingTier || (!flagged && s.state.Checking?)))
  }

  /** A tier result of an earlier attempt is drained while a check of the live one is under way. */
  predicate DrainsStaleCheck(s: Service, op: Op)
    requires Possible(s, op)
  {
    && op.Result? && s.jobs[op.i].kind == TierCheck && s.jobs[op.i].attempt != s.attempt
    && Live(s.jobs, TierCheck, s.attempt) > 0
  }

  /** The flag of a live check is lost: in a session, where that lets a second one start, or anywhere if `flagged`. */
  predicate Unguards(s: Service, op: Op, flagged: bool)
    requires Possible(s, op)
  {
    DrainsStaleCheck(s, op) && (flagged || InSession(s))
  }

  /** A new attempt: everything still under way is stale. */
  lemma NewAttempt(s: Service, s': Service, flagged: bool)
    requires JobsNotAhead(s.jobs, s.attempt) && s'.jobs == s.jobs && s'.attempt == s.attempt + 1
    requires s'.listening ==> s'.state.Authorizing?
    ensures SignInOk(s') && OneCheck(s', flagged)
  {
    NoneLiveLater(s.jobs, Exchange, s.attempt);
    NoneLiveLater(s.jobs, TierCheck, s.attempt);
  }

  lemma Spawned(s: Service, kind: JobKind)
    ensures Live(Spawn(s, kind).jobs, Exchange, s.attempt)
            == Live(s.jobs, Exchange, s.attempt) + if kind == Exchange then 1 else 0
    ensures Live(Spawn(s, kind).jobs, TierCheck, s.attempt)
            == Live(s.jobs, TierCheck, s.attempt) + if kind == TierCheck then 1 else 0
  {
    LiveSpawned(s.jobs, Job(kind, s.attempt), Exchange, s.attempt);
    LiveSpawned(s.jobs, Job(kind, s.attempt), TierCheck, s.attempt);
  }

  /** No live job but reads means no live exchange and no live check. */
  lemma NoneBehindUnreadable(s: Service)
    requires NothingBehindUnreadable(s) && s.state.StoreUnreadable?
    ensures Live(s.jobs, Exchange, s.attempt) == 0 && Live(s.jobs, TierCheck, s.attempt) == 0
  {}

  lemma ExchangeChecks(s: Service, attempt: nat, answer: Answer, w: World, flagged: bool)
    requires SignInOk(s) && OneCheck(s, flagged)
    requires attempt == s.attempt ==> !SigningIn(s) && Live(s.jobs, TierCheck, s.attempt) == 0
    ensures SignInOk(HandleExchange(s, attempt, answer, w).0) && OneCheck(HandleExchange(s, attempt, answer, w).0, flagged)
  {
    hide Live;
    Spawned(s.(checkingTier := true), TierCheck);
  }

  lemma TierChecks(s: Service, attempt: nat, answer: Answer, w: World, flagged: bool)
    requires JobsNotAhead(s.jobs, s.attempt) && SignInOk(s) && OneCheck(s, flagged)
    requires Live(s.jobs, TierCheck, s.attempt) > 0 ==> attempt != s.attempt && !flagged && !InSession(s)
    ensures SignInOk(HandleTier(s, attempt, answer, w).0) && OneCheck(HandleTier(s, attempt, answer, w).0, flagged)
  {
    if attempt == s.attempt && answer.Rejected? {
      NewAttempt(s, Revoke(s.(checkingTier := false), w).0, flagged);
    } else {
      hide Live, JobsNotAhead;
    }
  }

  lemma SameCounts(s: Service, s': Service, flagged: bool)
    requires SignInOk(s) && OneCheck(s, flagged) && SameSignIn(s, s')
    ensures SignInOk(s') && OneCheck(s', flagged)
  {
    hide Live;
  }

  predicate SameSignIn(s: Service, s': Service) {
    && s'.jobs == s.jobs && s'.attempt == s.attempt && s'.listening == s.listening && s'.checkingTier == s.checkingTier
    && (s'.state == s.state || (InSession(s) && InSession(s')))
  }

  lemma RefreshFrame(s: Service, attempt: nat, answer: Answer, w: World)
    requires !(attempt == s.attempt && answer.Rejected?)
    ensures SameSignIn(s, HandleRefresh(s, attempt, answer, w).0)
  {
    hide FailedOnce, Succeeded;
  }

  lemma RefreshChecks(s: Service, attempt: nat, answer: Answer, w: World, flagged: bool)
    requires JobsNotAhead(s.jobs, s.attempt) && SignInOk(s) && OneCheck(s, flagged)
    ensures SignInOk(HandleRefresh(s, attempt, answer, w).0) && OneCheck(HandleRefresh(s, attempt, answer, w).0, flagged)
  {
    if attempt == s.attempt && answer.Rejected? {
      NewAttempt(s, Revoke(s, w).0, flagged);
    } else {
      RefreshFrame(s, attempt, answer, w);
      SameCounts(s, HandleRefresh(s, attempt, answer, w).0, flagged);
    }
  }

  /** Draining a job: the counts of the live attempt go down by that job. */
  lemma DrainedChecks(s: Service, i: nat, flagged: bool)
    requires Inv(s) && SignInOk(s) && OneCheck(s, flagged) && i < |s.jobs|
    ensures var (job, s') := (s.jobs[i], s.(jobs := s.jobs[..i] + s.jobs[i + 1..]));
            && JobsNotAhead(s'.jobs, s'.attempt) && SignInOk(s') && OneCheck(s', flagged)
            && (job == Job(Exchange, s.attempt) ==> !SigningIn(s') && Live(s'.jobs, TierCheck, s'.attempt) == 0)
            && (job == Job(TierCheck, s.attempt) ==> Live(s'.jobs, TierCheck, s'.attempt) == 0)
            && (job.kind == TierCheck && job.attempt != s.attempt ==>
                  Live(s'.jobs, TierCheck, s'.attempt) == Live(s.jobs, TierCheck, s.attempt))
  {
    DrainedInv(s, i);
    LiveDrained(s.jobs, i, Exchange, s.attempt);
    LiveDrained(s.jobs, i, TierCheck, s.attempt);
    hide Live;
  }

  lemma DeliverChecks(s: Service, i: nat, answer: Answer, w: World, flagged: bool)
    requires Inv(s) && SignInOk(s) && OneCheck(s, flagged) && i < |s.jobs|
    requires !Unguards(s, Result(i, answer, w), flagged)
    ensures SignInOk(Deliver(s, i, answer, w).0) && OneCheck(Deliver(s, i, answer, w).0, flagged)
  {
    var job, s' := s.jobs[i], s.(jobs := s.jobs[..i] + s.jobs[i + 1..]);
    DrainedChecks(s, i, flagged);
    hide Inv, SignInOk, OneCheck, SigningIn, Live, HandleExchange, HandleTier, HandleRefresh;
    match job.kind {
      case Exchange => ExchangeChecks(s', job.attempt, answer, w, flagged);
      case TierCheck => TierChecks(s', job.attempt, answer, w, flagged);
      case RefreshToken => RefreshChecks(s', job.attempt, answer, w, flagged);
      case Read =>
    }
  }

  lemma ResumeChecks(s: Service, account: Account, now: int, flagged: bool)
    requires SignInOk(s) && s.state.StoreUnreadable? && Live(s.jobs, TierCheck, s.attempt) == 0
    ensures SignInOk(Resume(s, account, now)) && OneCheck(Resume(s, account, now), flagged)
  {
    hide Live, Armed;
    Spawned(s.(checkingTier := true), TierCheck);
  }

  lemma RetryReadChecks(s: Service, w: World, flagged: bool)
    requires Inv(s) && SignInOk(s) && OneCheck(s, flagged)
    ensures SignInOk(RetryStoreRead(s, w).0) && OneCheck(RetryStoreRead(s, w).0, flagged)
  {
    hide Live, JobsNotAhead, SignInOk, OneCheck, Resume, Revoke;
    if s.state.StoreUnreadable? && s.account.Some? {
      if w.credential.Readable? {
        NoneBehindUnreadable(s);
        ResumeChecks(s, s.account.value, w.now, flagged);
      } else if w.credential.Missing? {
        RevokedChecks(s, w, flagged);
      }
    }
  }

  lemma RevokedChecks(s: Service, w: World, flagged: bool)
    requires JobsNotAhead(s.jobs, s.attempt)
    ensures SignInOk(Revoke(s, w).0) && OneCheck(Revoke(s, w).0, flagged)
  {
    NewAttempt(s, Revoke(s, w).0, flagged);
  }

  lemma OtherChecks(s: Service, op: Op, flagged: bool)
    requires JobsNotAhead(s.jobs, s.attempt) && SignInOk(s) && OneCheck(s, flagged) && Possible(s, op)
    requires op.Recheck? || op.Ask? || op.Listener? || op.Expiry? || op.RefreshTurn?
    ensures SignInOk(Apply(s, op).0) && OneCheck(Apply(s, op).0, flagged)
  {
    hide Live, JobsNotAhead;
    match op {
      case Recheck(w) => Spawned(s.(checkingTier := true), TierCheck);
      case Ask(w) => Spawned(s, Read);
      case Listener(outcome) => Spawned(s.(listening := false), Exchange);
      case Expiry(now) =>
      case RefreshTurn(w) => RefreshTurnChecks(s, w, flagged);
    }
  }

  lemma RefreshTurnChecks(s: Service, w: World, flagged: bool)
    requires SignInOk(s) && OneCheck(s, flagged)
    ensures SignInOk(TickRefresh(s, w).0) && OneCheck(TickRefresh(s, w).0, flagged)
  {
    hide Live, FailedOnce, Act;
    if s.scheduler.Some? {
      var s' := s.(scheduler := Some(Act(s.scheduler.value, w.now).0));
      SameCounts(s, s', flagged);
      Spawned(s', RefreshToken);
    }
  }

  lemma StartChecks(s: Service, probeOk: bool, bindOk: bool, w: World, flagged: bool)
    requires JobsNotAhead(s.jobs, s.attempt) && SignInOk(s) && OneCheck(s, flagged)
    ensures var s' := StartSignIn(s, probeOk, bindOk, w).0; SignInOk(s') && OneCheck(s', flagged)
  {
    if probeOk {
      NewAttempt(s, StartSignIn(s, probeOk, bindOk, w).0, flagged);
    }
  }

  lemma ApplyChecks(s: Service, op: Op, flagged: bool)
    requires Inv(s) && SignInOk(s) && OneCheck(s, flagged) && Possible(s, op) && !Unguards(s, op, flagged)
    ensures SignInOk(Apply(s, op).0) && OneCheck(Apply(s, op).0, flagged)
  {
    match op {
      case Start(probeOk, bindOk, w) => StartChecks(s, probeOk, bindOk, w, flagged);
      case Cancel => NewAttempt(s, CancelSignIn(s), flagged);
      case RetryRead(w) => RetryReadChecks(s, w, flagged);
      case SigningOut(w) => NewAttempt(s, SignOut(s, w).0, flagged);
      case Result(i, answer, w) => DeliverChecks(s, i, answer, w, flagged);
      case _ => OtherChecks(s, op, flagged);
    }
  }

  /** At most one tier check of the live attempt, even if the user asks for another now. */
  ghost predicate NeverTwo(s: Service) { forall w :: Live(RecheckTier(s, w).jobs, TierCheck, s.attempt) <= 1 }

  /** At most one, and while it is under way its flag is up. */
  predicate FlagUp(s: Service) {
    Live(s.jobs, TierCheck, s.attempt) <= 1 && (Live(s.jobs, TierCheck, s.attempt) == 1 ==> s.checkingTier)
  }

  /** What one check at a time means to the outside, from here on through a run. */
  ghost predicate Throughout(s: Service, ops: seq<Op>, flagged: bool)
    decreases |ops|
  {
    && (if flagged then FlagUp(s) else NeverTwo(s))
    && (ops == [] || (Possible(s, ops[0]) ==> Throughout(Apply(s, ops[0]).0, ops[1..], flagged)))
  }

  /** The run never loses the flag of a live check where that matters. */
  ghost predicate Guarded(s: Service, ops: seq<Op>, flagged: bool)
    decreases |ops|
  {
    ops == [] || (Possible(s, ops[0]) ==>
      !Unguards(s, ops[0], flagged) && Guarded(Apply(s, ops[0]).0, ops[1..], flagged))
  }

  lemma OneCheckHolds(s: Service, flagged: bool)
    requires OneCheck(s, flagged)
    ensures if flagged then FlagUp(s) else NeverTwo(s)
  {
    hide Live;
    Spawned(s.(checkingTier := true), TierCheck);
  }

  /** Once the flag is lost there, a second check can be asked for; and where it is not, the flag alone is wrong. */
  lemma UnguardedBreaks(s: Service, op: Op, flagged: bool)
    requires Possible(s, op) && Unguards(s, op, flagged)
    ensures var s' := Apply(s, op).0; if flagged then !FlagUp(s') else !NeverTwo(s')
  {
    var w := World(0, Stored, Readable, []);
    match op {
      case Result(i, answer, world) =>
        StaleDrained(s, i, answer, world);
        LiveDrained(s.jobs, i, TierCheck, s.attempt);
    }
    var s' := Apply(s, op).0;
    if !flagged {
      Rechecked(s', w);
      assert Apply(s', Recheck(w)).0 == RecheckTier(s', w);
    }
  }

  lemma {:induction false} RunChecksIff(s: Service, ops: seq<Op>, s': Service, flagged: bool)
    requires Inv(s) && SignInOk(s) && OneCheck(s, flagged) && Run(s, ops, s')
    ensures Throughout(s, ops, flagged) <==> Guarded(s, ops, flagged)
    ensures Guarded(s, ops, flagged) ==> OneCheck(s', flagged)
    decreases |ops|
  {
    hide Inv, SignInOk, OneCheck, Apply, Possible, Unguards, FlagUp, NeverTwo;
    OneCheckHolds(s, flagged);
    if ops != [] {
      if Unguards(s, ops[0], flagged) {
        UnguardedBreaks(s, ops[0], flagged);
        assert !Throughout(Apply(s, ops[0]).0, ops[1..], flagged);
      } else {
        ApplyInv(s, ops[0]);
        ApplyChecks(s, ops[0], flagged);
        RunChecksIff(Apply(s, ops[0]).0, ops[1..], s', flagged);
      }
    }
  }

  lemma LaunchChecks(registry: seq<string>, pendingEntry: Option<bool>, file: Option<Account>, stored: Account,
                     w: World, flagged: bool)
    ensures var s := Launch(registry, pendingEntry, file, stored, w); SignInOk(s) && OneCheck(s, flagged)
  {
    Spawned(New(registry), TierCheck);
    assert New(registry).jobs == [];
  }

  /**
   * In every run from one launch there is never more than one check of the live attempt, even if another is asked for,
   * exactly when no stale tier result is drained in a session with a live check under way; and the flag is up with
   * every live check exactly when none is drained under a live check at all.
   */
  lemma ChecksAreSingle(registry: seq<string>, pendingEntry: Option<bool>, file: Option<Account>, stored: Account,
                        w: World, ops: seq<Op>, s: Service)
    requires Run(Launch(registry, pendingEntry, file, stored, w), ops, s)
    ensures var start := Launch(registry, pendingEntry, file, stored, w);
            && (Throughout(start, ops, false) <==> Guarded(start, ops, false))
            && (Throughout(start, ops, true) <==> Guarded(start, ops, true))
            && (Guarded(start, ops, false) ==> Live(s.jobs, TierCheck, s.attempt) <= 1)
  {
    hide Inv, SignInOk, Throughout, Guarded;
    var start := Launch(registry, pendingEntry, file, stored, w);
    LaunchInv(registry, pendingEntry, file, stored, w);
    LaunchChecks(registry, pendingEntry, file, stored, w, false);
    LaunchChecks(registry, pendingEntry, file, stored, w, true);
    RunChecksIff(start, ops, s, false);
    RunChecksIff(start, ops, s, true);
  }

  /** While `Checking`, draining one leaves nothing to ask for: rechecking is refused until the live check is back. */
  lemma CheckingRefusesRecheck(s: Service, i: nat, answer: Answer, w: World, w': World)
    requires s.state.Checking? && Possible(s, Result(i, answer, w)) && DrainsStaleCheck(s, Result(i, answer, w))
    ensures var s1 := Apply(s, Result(i, answer, w)).0;
            && Apply(s1, Recheck(w')).0 == s1 && !s1.checkingTier
            && Live(s1.jobs, TierCheck, s1.attempt) == Live(s.jobs, TierCheck, s.attempt)
  {
    LiveDrained(s.jobs, i, TierCheck, s.attempt);
    StaleDrained(s, i, answer, w);
  }

  /** And whenever one is drained while a live check is under way in a session, rechecking starts a second one. */
  lemma StaleDrainLetsTwoRun(s: Service, i: nat, answer: Answer, w: World, w': World)
    requires InSession(s) && Possible(s, Result(i, answer, w))
    requires DrainsStaleCheck(s, Result(i, answer, w)) && w'.credential.Readable?
    ensures var s1 := Apply(s, Result(i, answer, w)).0;
            var s2 := Apply(s1, Recheck(w')).0;
            Live(s2.jobs, TierCheck, s2.attempt) == Live(s.jobs, TierCheck, s.attempt) + 1 >= 2
  {
    LiveDrained(s.jobs, i, TierCheck, s.attempt);
    StaleDrained(s, i, answer, w);
    var s1 := Apply(s, Result(i, answer, w)).0;
    Rechecked(s1, w');
  }

  lemma StaleDrained(s: Service, i: nat, answer: Answer, w: World)
    requires i < |s.jobs| && s.jobs[i].kind == TierCheck && s.jobs[i].attempt != s.attempt
    ensures Apply(s, Result(i, answer, w)).0 == s.(jobs := s.jobs[..i] + s.jobs[i + 1..], checkingTier := false)
  {}

  lemma Rechecked(s: Service, w: World)
    requires InSession(s) && !s.checkingTier && w.credential.Readable?
    ensures var s' := Apply(s, Recheck(w)).0;
            s'.attempt == s.attempt && Live(s'.jobs, TierCheck, s'.attempt) == Live(s.jobs, TierCheck, s.attempt) + 1
  {
    Spawned(s.(checkingTier := true), TierCheck);
    hide Live;
  }

  /** In every run a signed-out service is not listening, so the condition for acting covers all of them. */
  lemma {:induction false} SignInStaysOk(s: Service, ops: seq<Op>, s': Service)
    requires Inv(s) && SignInOk(s) && Run(s, ops, s')
    ensures Inv(s') && SignInOk(s')
    decreases |ops|
  {
    hide Inv, SignInOk, Apply, Possible;
    if ops != [] {
      ApplyInv(s, ops[0]);
      ApplySignIn(s, ops[0]);
      SignInStaysOk(Apply(s, ops[0]).0, ops[1..], s');
    }
  }

  lemma ExchangeSignIn(s: Service, attempt: nat, answer: Answer, w: World)
    requires SignInOk(s) && (attempt == s.attempt ==> !SigningIn(s))
    ensures SignInOk(HandleExchange(s, attempt, answer, w).0)
  {
    hide Live;
    Spawned(s.(checkingTier := true), TierCheck);
  }

  lemma TierSignIn(s: Service, attempt: nat, answer: Answer, w: World)
    requires JobsNotAhead(s.jobs, s.attempt) && SignInOk(s)
    ensures SignInOk(HandleTier(s, attempt, answer, w).0)
  {
    if attempt == s.attempt && answer.Rejected? {
      NewAttempt(s, Revoke(s.(checkingTier := false), w).0, false);
    } else {
      hide Live, JobsNotAhead;
    }
  }

  lemma RefreshSignIn(s: Service, attempt: nat, answer: Answer, w: World)
    requires JobsNotAhead(s.jobs, s.attempt) && SignInOk(s)
    ensures SignInOk(HandleRefresh(s, attempt, answer, w).0)
  {
    if attempt == s.attempt && answer.Rejected? {
      NewAttempt(s, Revoke(s, w).0, false);
    } else {
      RefreshFrame(s, attempt, answer, w);
    }
  }

  lemma DeliverSignIn(s: Service, i: nat, answer: Answer, w: World)
    requires Inv(s) && SignInOk(s) && i < |s.jobs|
    ensures SignInOk(Deliver(s, i, answer, w).0)
  {
    var job, s' := s.jobs[i], s.(jobs := s.jobs[..i] + s.jobs[i + 1..]);
    DrainedInv(s, i);
    LiveDrained(s.jobs, i, Exchange, s.attempt);
    hide Live, HandleExchange, HandleTier, HandleRefresh;
    match job.kind {
      case Exchange => ExchangeSignIn(s', job.attempt, answer, w);
      case TierCheck => TierSignIn(s', job.attempt, answer, w);
      case RefreshToken => RefreshSignIn(s', job.attempt, answer, w);
      case Read =>
    }
  }

  lemma ApplySignIn(s: Service, op: Op)
    requires Inv(s) && SignInOk(s) && Possible(s, op)
    ensures SignInOk(Apply(s, op).0)
  {
    match op {
      case Start(probeOk, bindOk, w) => if probeOk { NewAttempt(s, StartSignIn(s, probeOk, bindOk, w).0, false); }
      case Cancel => NewAttempt(s, CancelSignIn(s), false);
      case RetryRead(w) => RetryReadSignIn(s, w);
      case SigningOut(w) => NewAttempt(s, SignOut(s, w).0, false);
      case Result(i, answer, w) => DeliverSignIn(s, i, answer, w);
      case _ => OtherSignIn(s, op);
    }
  }

  lemma RetryReadSignIn(s: Service, w: World)
    requires Inv(s) && SignInOk(s)
    ensures SignInOk(RetryStoreRead(s, w).0)
  {
    if s.state.StoreUnreadable? && s.account.Some? {
      if w.credential.Readable? {
        NoneBehindUnreadable(s);
        hide Live;
        Spawned(s, TierCheck);
      } else if w.credential.Missing? {
        NewAttempt(s, Revoke(s, w).0, false);
      }
    }
  }

  lemma OtherSignIn(s: Service, op: Op)
    requires SignInOk(s) && Possible(s, op)
    requires op.Recheck? || op.Ask? || op.Listener? || op.Expiry? || op.RefreshTurn?
    ensures SignInOk(Apply(s, op).0)
  {
    hide Live, Act, FailedOnce;
    match op {
      case Recheck(w) => Spawned(s.(checkingTier := true), TierCheck);
      case Ask(w) => Spawned(s, Read);
      case Listener(outcome) => Spawned(s.(listening := false), Exchange);
      case Expiry(now) =>
      case RefreshTurn(w) => Spawned(s, RefreshToken);
    }
  }

  /** The exact condition, for every signed-out state of every run from one launch. */
  lemma SignedOutRunsActIff(registry: seq<string>, pendingEntry: Option<bool>, file: Option<Account>, stored: Account,
                            w: World, ops: seq<Op>, s: Service)
    requires Run(Launch(registry, pendingEntry, file, stored, w), ops, s) && s.state.SignedOut?
    ensures TicksCanWrite(s) <==> CanAct(s)
    ensures TicksCanLeave(s) <==> LiveJob(s, Exchange)
  {
    hide Live, CanAct, TicksCanWrite, TicksCanLeave;
    LaunchInv(registry, pendingEntry, file, stored, w);
    LaunchChecks(registry, pendingEntry, file, stored, w, false);
    SignInStaysOk(Launch(registry, pendingEntry, file, stored, w), ops, s);
    SignedOutActsIff(s);
  }

  // ------------------------------------------------------------ three runs

  ghost predicate Reaches(start: Service, s: Service) { exists ops :: Run(start, ops, s) }

  lemma {:induction false} RunOneMore(s: Service, ops: seq<Op>, s': Service, op: Op)
    requires Run(s, ops, s') && Possible(s', op)
    ensures Run(s, ops + [op], Apply(s', op).0)
    decreases |ops|
  {
    hide Apply, Possible;
    if ops == [] {
      assert Run(Apply(s, op).0, [], Apply(s, op).0);
    } else {
      assert (ops + [op])[1..] == ops[1..] + [op];
      RunOneMore(Apply(s, ops[0]).0, ops[1..], s', op);
    }
  }

  lemma Extend(start: Service, s: Service, op: Op) returns (s': Service)
    requires Reaches(start, s) && Possible(s, op)
    ensures Reaches(start, s') && s' == Apply(s, op).0
  {
    var ops :| Run(start, ops, s);
    RunOneMore(start, ops, s, op);
    s' := Apply(s, op).0;
  }

  function Fine(now: int): World { World(now, Stored, Readable, []) }

  /** A session found at launch has expired, and a new sign-in has been started from it. */
  lemma SignInFromExpired() returns (start: Service, s: Service)
    ensures start == Launch([], None, Some(Account(0, 10, Premium)), Account(0, 10, Premium), Fine(0))
    ensures Reaches(start, s)
    ensures s == Service(Authorizing(1, false), Premium, Some(Account(0, 10, Premium)), 1, true, true,
                         Some(Scheduler(5, 0, false, false)), true, [Job(TierCheck, 0)], [], 1)
  {
    start := Launch([], None, Some(Account(0, 10, Premium)), Account(0, 10, Premium), Fine(0));
    assert Run(start, [], start);
    hide Reaches;
    s := Extend(start, start, Expiry(20));
    s := Extend(start, s, Start(true, true, Fine(20)));
  }

  /**
   * When that sign-in fails the service is signed out with the old scheduler still armed: it refreshes, and the
   * result is written to the secure store although nobody is signed in.
   */
  lemma FailedSignInStillWrites() returns (start: Service, s: Service, op: Op)
    ensures start == Launch([], None, Some(Account(0, 10, Premium)), Account(0, 10, Premium), Fine(0))
    ensures Reaches(start, s) && s.state == SignedOut(Some(TimedOut)) && Ticking(op) && Possible(s, op)
    ensures Apply(s, op).0.state == s.state && Apply(s, op).0.puts == s.puts + 1
  {
    start, s := SignInFromExpired();
    hide Reaches;
    s := Extend(start, s, Listener(ListenerTimedOut));
    s := Extend(start, s, RefreshTurn(Fine(20)));
    op := Result(1, Tokens(100), Fine(20));
  }

  /** The same when that sign-in is cancelled. */
  lemma CancelledSignInStillWrites() returns (start: Service, s: Service, op: Op)
    ensures start == Launch([], None, Some(Account(0, 10, Premium)), Account(0, 10, Premium), Fine(0))
    ensures Reaches(start, s) && s.state == SignedOut(Some(Cancelled)) && Ticking(op) && Possible(s, op)
    ensures Apply(s, op).0.state == s.state && Apply(s, op).0.puts == s.puts + 1
  {
    start, s := SignInFromExpired();
    hide Reaches;
    s := Extend(start, s, Cancel);
    s := Extend(start, s, RefreshTurn(Fine(20)));
    op := Result(1, Tokens(100), Fine(20));
  }

  /** A stale tier result clears the flag of a check under way, so that a second one of the same attempt is started. */
  lemma StaleTierResultLetsTwoChecksRun() returns (start: Service, s: Service)
    ensures start == Launch([], None, Some(Account(0, 10, Premium)), Account(0, 10, Premium), Fine(0))
    ensures Reaches(start, s) && s.state.Active? && Live(s.jobs, TierCheck, s.attempt) == 2
  {
    start, s := SignInFromExpired();
    hide Reaches;
    s := Extend(start, s, Listener(Code));
    s := Extend(start, s, Result(1, Tokens(100), Fine(20)));
    assert s.jobs == [Job(TierCheck, 0), Job(TierCheck, 1)];
    s := Extend(start, s, Result(1, Profile(Premium), Fine(20)));
    s := Extend(start, s, Recheck(Fine(20)));
    s := Extend(start, s, Result(0, Profile(Premium), Fine(20)));
    s := Extend(start, s, Recheck(Fine(20)));
    assert s.jobs == [Job(TierCheck, 1), Job(TierCheck, 1)];
    assert s.jobs[..1] == [Job(TierCheck, 1)] && s.jobs[..1][..0] == [];
  }
}

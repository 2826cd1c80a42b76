/** The account session as a value: one function per command and per worker result. */
module AccountModel {
  import opened Prelude
  import opened Refresh

  datatype Tier = Premium | Free | Unknown

  datatype Note = Cancelled | TimedOut | ServiceError | PreviousDidNotFinish | Revoked

  datatype State =
    | SignedOut(note: Option<Note>)
    | Authorizing(attempt: nat, resumed: bool)
    | Checking(attempt: nat)
    | Active
    | Expired
    | StoreUnreadable

  datatype Account = Account(authorizedAt: int, expiresAt: int, tier: Tier)

  datatype JobKind = Exchange | TierCheck | RefreshToken | Read

  /** A worker whose result has not been drained yet, tagged with the attempt it was started under. */
  datatype Job = Job(kind: JobKind, attempt: nat)

  /** `puts` counts the writes asked of the secure store. */
  datatype Service = Service(
    state: State,
    tier: Tier,
    account: Option<Account>,
    attempt: nat,
    pending: bool,
    listening: bool,
    scheduler: Option<Scheduler>,
    checkingTier: bool,
    jobs: seq<Job>,
    registry: seq<string>,
    puts: nat)

  datatype Event =
    | BrowserUrlReady
    | StoreUnavailable
    | SignInFailed(note: Note)
    | Authorized
    | TierChecked(tier: Tier)
    | TierCheckFailed
    | RefreshFailing
    | RefreshRecovered
    | SignedOutOf(categories: seq<string>)
    | SignOutIncomplete(category: string)
    | SessionExpired
    | SessionRevoked
    | ReadResult

  /** How a write to the secure store goes: not even encoded, refused by the store, or stored. */
  datatype Write = NotEncoded | Refused | Stored

  /** What a read of a secure-store entry finds. */
  datatype Lookup = Readable | Missing | Unreadable

  /** A worker's answer. */
  datatype Answer = Tokens(expiresIn: nat) | Profile(tier: Tier) | Rejected | OtherError

  datatype ListenerOutcome = Code | Error(accessDenied: bool) | ListenerCancelled | ListenerTimedOut | BindLost

  /**
   * What the world answers during one call: the time, the outcome of a write, whether the stored credential can be
   * read, and which registered stores clear.
   */
  datatype World = World(now: int, write: Write, credential: Lookup, clears: seq<bool>)

  predicate Clears(w: World, k: nat) { k < |w.clears| && w.clears[k] }

  type Result = (Service, seq<Event>)

  // -------------------------------------------------------- building blocks

  function Spawn(s: Service, kind: JobKind): Service { s.(jobs := s.jobs + [Job(kind, s.attempt)]) }

  function SpawnTierCheck(s: Service): Service { Spawn(s.(checkingTier := true), TierCheck) }

  function Discard(s: Service): Service { s.(listening := false, pending := false) }

  function FailSignIn(s: Service, note: Note): Result {
    (Discard(s).(state := SignedOut(Some(note))), [SignInFailed(note)])
  }

  /** The categories of the first `n` stores that cleared, and of those that did not. */
  function Cleared(s: Service, w: World, n: nat): seq<string>
    requires n <= |s.registry|
  {
    if n == 0 then [] else if Clears(w, n - 1) then Cleared(s, w, n - 1) + [s.registry[n - 1]] else Cleared(s, w, n - 1)
  }

  function Uncleared(s: Service, w: World, n: nat): seq<Event>
    requires n <= |s.registry|
  {
    if n == 0 then []
    else if Clears(w, n - 1) then Uncleared(s, w, n - 1)
    else Uncleared(s, w, n - 1) + [SignOutIncomplete(s.registry[n - 1])]
  }

  /** No session, no scheduler, no attempt: every result still under way carries an older attempt. */
  function Ended(s: Service, note: Option<Note>): Service {
    Discard(s).(attempt := s.attempt + 1, account := None, tier := Unknown, scheduler := None, checkingTier := false,
                state := SignedOut(note))
  }

  function SignOut(s: Service, w: World): Result {
    (Ended(s, None), [SignedOutOf(Cleared(s, w, |s.registry|))] + Uncleared(s, w, |s.registry|))
  }

  function Revoke(s: Service, w: World): Result {
    (Ended(s, Some(Revoked)), [SessionRevoked] + Uncleared(s, w, |s.registry|))
  }

  /** `Checking` becomes `Active`; the scheduler is armed the first time a session is known. */
  function Activated(s: Service): Service {
    var s' := if s.state.Checking? then s.(state := Active) else s;
    if s'.scheduler.None? && s'.account.Some? then
      s'.(scheduler := Some(Armed(s'.account.value.authorizedAt, s'.account.value.expiresAt)))
    else s'
  }

  function Reported(report: Report): seq<Event> {
    match report
    case NoReport => []
    case Failing => [RefreshFailing]
    case Recovered => [RefreshRecovered]
  }

  function TransientFailure(s: Service, now: int): Result {
    if s.scheduler.None? then (s, [])
    else
      var (scheduler, report) := FailedOnce(s.scheduler.value, now);
      (s.(scheduler := Some(scheduler)), Reported(report))
  }

  // ---------------------------------------------------------------- launch

  function New(registry: seq<string>): Service {
    Service(SignedOut(None), Unknown, None, 0, false, false, None, false, [], registry, 0)
  }

  /** The session found at launch: active or expired by its time, validated and refreshed from here on. */
  function Resume(s: Service, account: Account, now: int): Service {
    SpawnTierCheck(
      s.(tier := account.tier,
         state := if now >= account.expiresAt then Expired else Active,
         scheduler := Some(Armed(account.authorizedAt, account.expiresAt)),
         account := Some(account)))
  }

  function Unreachable(s: Service, file: Option<Account>): Service {
    if file.Some? then s.(tier := file.value.tier, account := file, state := StoreUnreadable)
    else s.(account := None, tier := Unknown, state := SignedOut(None))
  }

  /**
   * A pending attempt comes first and is resumed if it still can be; without one the stored credential decides. A
   * credential without a readable account file stands in for it with an unknown tier.
   */
  function Launch(registry: seq<string>, pendingEntry: Option<bool>, file: Option<Account>, stored: Account,
                  w: World): Service
  {
    var s := New(registry);
    if pendingEntry.Some? then
      if pendingEntry.value then s.(attempt := 1, listening := true, pending := true, state := Authorizing(1, true))
      else s.(attempt := 1, state := SignedOut(Some(PreviousDidNotFinish)))
    else
      match w.credential
      case Readable => Resume(s, if file.Some? then file.value else stored.(tier := Unknown), w.now)
      case Missing => s
      case Unreadable => Unreachable(s, file)
  }

  function RetryStoreRead(s: Service, w: World): Result {
    if !s.state.StoreUnreadable? || s.account.None? then (s, [])
    else
      match w.credential
      case Readable => (Resume(s, s.account.value, w.now), [])
      case Missing => Revoke(s, w)
      case Unreadable => (s, [StoreUnavailable])
  }

  // -------------------------------------------------------------- commands

  function StartSignIn(s: Service, probeOk: bool, bindOk: bool, w: World): Result {
    if !probeOk then (s, [StoreUnavailable])
    else
      var s' := Discard(s).(attempt := s.attempt + 1);
      if !bindOk then FailSignIn(s', ServiceError)
      else
        match w.write
        case NotEncoded => FailSignIn(s', ServiceError)
        case Refused => (s'.(puts := s'.puts + 1), [StoreUnavailable])
        case Stored =>
          (s'.(puts := s'.puts + 1, listening := true, pending := true, state := Authorizing(s'.attempt, false)),
           [BrowserUrlReady])
  }

  function CancelSignIn(s: Service): Service {
    Discard(s).(attempt := s.attempt + 1, state := SignedOut(Some(Cancelled)))
  }

  function RecheckTier(s: Service, w: World): Service {
    if s.checkingTier || !(s.state.Active? || s.state.Expired?) || !w.credential.Readable? then s else SpawnTierCheck(s)
  }

  function RequestRead(s: Service, w: World): Service { if w.credential.Readable? then Spawn(s, Read) else s }

  // --------------------------------------------------------------- results

  function HandleListener(s: Service, outcome: ListenerOutcome): Result {
    var s' := s.(listening := false);
    match outcome
    case Code => (if s.pending then Spawn(s', Exchange) else s', [])
    case Error(accessDenied) => FailSignIn(s', if accessDenied then Cancelled else ServiceError)
    case ListenerCancelled => (s', [])
    case ListenerTimedOut => FailSignIn(s', TimedOut)
    case BindLost => FailSignIn(s', ServiceError)
  }

  function HandleExchange(s: Service, attempt: nat, answer: Answer, w: World): Result {
    if attempt != s.attempt then (s, [])
    else if !answer.Tokens? then FailSignIn(s, ServiceError)
    else
      match w.write
      case NotEncoded => FailSignIn(s, ServiceError)
      case Refused => (Discard(s).(puts := s.puts + 1, state := SignedOut(Some(ServiceError))), [StoreUnavailable])
      case Stored =>
        (SpawnTierCheck(
           s.(puts := s.puts + 1, pending := false, account := Some(Account(w.now, w.now + answer.expiresIn, Unknown)),
              tier := Unknown, state := Checking(attempt))),
         [Authorized])
  }

  function HandleTier(s: Service, attempt: nat, answer: Answer, w: World): Result {
    var s' := s.(checkingTier := false);
    if attempt != s.attempt then (s', [])
    else
      match answer
      case Profile(tier) =>
        var account := if s.account.Some? then Some(s.account.value.(tier := tier)) else None;
        (Activated(s'.(tier := tier, account := account)), [TierChecked(tier)])
      case Rejected => Revoke(s', w)
      case _ => (Activated(s'.(tier := Unknown)), [TierCheckFailed])
  }

  /** The credential was written: the account's expiry moves on, and an expired session is active again. */
  function Renewed(s: Service, expiresAt: int): Service {
    s.(account := if s.account.Some? then Some(s.account.value.(expiresAt := expiresAt)) else None,
       state := if s.state.Expired? then Active else s.state)
  }

  function HandleRefresh(s: Service, attempt: nat, answer: Answer, w: World): Result {
    if attempt != s.attempt then (s, [])
    else
      match answer
      case Tokens(expiresIn) =>
        var s' := if w.write.NotEncoded? then s else s.(puts := s.puts + 1);
        if !w.write.Stored? then TransientFailure(s', w.now)
        else
          var authorizedAt := if s.account.Some? then s.account.value.authorizedAt else w.now;
          var renewed := Renewed(s', w.now + expiresIn);
          if s.scheduler.None? then (renewed, [])
          else
            var (scheduler, report) := Succeeded(s.scheduler.value, authorizedAt, w.now + expiresIn);
            (renewed.(scheduler := Some(scheduler)), Reported(report))
      case Rejected => Revoke(s, w)
      case _ => TransientFailure(s, w.now)
  }

  /** Draining the result of one worker. */
  function Deliver(s: Service, i: nat, answer: Answer, w: World): Result
    requires i < |s.jobs|
  {
    var s' := s.(jobs := s.jobs[..i] + s.jobs[i + 1..]);
    match s.jobs[i].kind
    case Exchange => HandleExchange(s', s.jobs[i].attempt, answer, w)
    case TierCheck => HandleTier(s', s.jobs[i].attempt, answer, w)
    case RefreshToken => HandleRefresh(s', s.jobs[i].attempt, answer, w)
    case Read => (s', if s.jobs[i].attempt == s.attempt then [ReadResult] else [])
  }

  function CheckExpiry(s: Service, now: int): Result {
    if s.state.Active? && s.account.Some? && now >= s.account.value.expiresAt then (s.(state := Expired), [SessionExpired])
    else (s, [])
  }

  function TickRefresh(s: Service, w: World): Result {
    if s.scheduler.None? then (s, [])
    else
      var (scheduler, action) := Act(s.scheduler.value, w.now);
      var s' := s.(scheduler := Some(scheduler));
      if action == Wait then (s', [])
      else if w.credential.Readable? then (Spawn(s', RefreshToken), [])
      else TransientFailure(s', w.now)
  }

  // ------------------------------------------------------------------ tick

  /** A worker result found in the channel, with what the world answers while it is handled. */
  datatype Arrival = Arrival(i: nat, answer: Answer, world: World)

  function Then(first: Result, second: Result): Result { (second.0, first.1 + second.1) }

  /** Drain the results in order; an arrival that no worker can have sent is none. */
  function Drain(s: Service, arrivals: seq<Arrival>): Result {
    if arrivals == [] then (s, [])
    else
      var n := |arrivals| - 1;
      var before := Drain(s, arrivals[..n]);
      if arrivals[n].i < |before.0.jobs| then
        Then(before, Deliver(before.0, arrivals[n].i, arrivals[n].answer, arrivals[n].world))
      else before
  }

  function Heard(s: Service, outcome: Option<ListenerOutcome>): Result {
    if s.listening && outcome.Some? then HandleListener(s, outcome.value) else (s, [])
  }

  /** The listener, then every result, then expiry, then the refresh. */
  function Tick(s: Service, outcome: Option<ListenerOutcome>, arrivals: seq<Arrival>, w: World): Result {
    var heard := Heard(s, outcome);
    var drained := Then(heard, Drain(heard.0, arrivals));
    var expired := Then(drained, CheckExpiry(drained.0, w.now));
    Then(expired, TickRefresh(expired.0, w))
  }
}

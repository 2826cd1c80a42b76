/** Requests in flight: which query they ask for, and when an id is used for two at once. */
module SearchTraffic {
  import opened Prelude
  import opened RequestIds
  import opened SearchModel
  import opened SearchInvariants
  import opened SearchProperties

  /**
   * What an observer of a session keeps: the requests sent and not yet answered, those of them that going offline made
   * the session forget, and the query the current rows were asked for with.
   */
  datatype Traffic = Traffic(inFlight: multiset<nat>, dropped: set<nat>, shown: string)

  function SentIds(commands: seq<Command>): (ids: seq<nat>)
    ensures |ids| == |commands| && forall i :: 0 <= i < |ids| ==> ids[i] == commands[i].requestId
  {
    seq(|commands|, i requires 0 <= i < |commands| => commands[i].requestId)
  }

  /** Page requests that going offline drops along with their retry. */
  function Collapsed(s: Session, op: Op): set<nat>
    requires Shaped(s)
  {
    if op.Connection? && op.offline then
      set k | 0 <= k < 4 && s.pageRetries[k].Some? && s.pageIds[k].Some? :: s.pageIds[k].value
    else {}
  }

  predicate Fires(s: Session, op: Op) {
    op.TickAt? && !s.offline && s.deadline.Some? && op.now >= s.deadline.value && s.query != ""
  }

  function InFlight(s: Session, t: Traffic, op: Op): multiset<nat>
    requires Shaped(s)
  {
    (if op.Answer? then t.inFlight - multiset{op.id} else t.inFlight) + multiset(SentIds(Issued(s, op)))
  }

  function Observed(s: Session, t: Traffic, op: Op): Traffic
    requires Shaped(s)
  {
    var inFlight := InFlight(s, t, op);
    Traffic(inFlight,
            set id | id in t.dropped + Collapsed(s, op) && id in inFlight,
            if Fires(s, op) then s.query else t.shown)
  }

  /** Replies answer requests in flight. */
  ghost predicate Real(s: Session, t: Traffic, op: Op)
    requires Shaped(s)
  {
    Allowed(s, op) && (op.Answer? ==> op.id in t.inFlight)
  }

  ghost predicate Watched(s: Session, t: Traffic, ops: seq<Op>, s': Session, t': Traffic): (ok: bool)
    requires Shaped(s)
    ensures ok ==> Shaped(s')
    decreases |ops|
  {
    if ops == [] then s' == s && t' == t
    else Real(s, t, ops[0]) && Watched(Step(s, ops[0]), Observed(s, t, ops[0]), ops[1..], s', t')
  }

  function NoTraffic(): Traffic { Traffic(multiset{}, {}, "") }

  // ------------------------------------------------------- what is asked for

  /** While no debounce is armed, the query is the one the groups on screen were asked for with. */
  ghost predicate ShownOk(s: Session, shown: string)
    requires Shaped(s)
  {
    s.deadline.None? && !AllGroups(s, Idle) ==> s.query == shown
  }

  lemma AnswerShown(s: Session, id: nat, reply: Reply, now: nat)
    requires Inv(s) && Allowed(s, Answer(id, reply, now))
    ensures var s' := ApplyReply(s, id, reply, now);
            s'.query == s.query && s'.deadline == s.deadline && (AllGroups(s, Idle) ==> AllGroups(s', Idle))
  {
    if s.pending == Some(id) {
      assert PageOk(s, 0);
      CombinedReplyKeepsPages(s, reply, now);
    } else if KindByte(id) < 4 && s.pageIds[KindByte(id)] == Some(id) {
      assert AnswersPage(s, id, KindByte(id));
      assert PageOk(s, KindByte(id));
      PageReplyOutcome(s, KindByte(id), reply, now);
    }
  }

  lemma ShownKept(s: Session, t: Traffic, op: Op)
    requires Inv(s) && Allowed(s, op) && ShownOk(s, t.shown)
    ensures ShownOk(Step(s, op), Observed(s, t, op).shown)
  {
    match op {
      case Answer(id, reply, now) =>
        hide ApplyReply;
        AnswerShown(s, id, reply, now);
      case TickAt(now) => TickShown(s, t.shown, now);
      case Connection(offline) => ConnectionShown(s, offline, t.shown);
      case _ =>
    }
  }

  lemma TickShown(s: Session, shown: string, now: nat)
    requires Inv(s) && ShownOk(s, shown)
    ensures ShownOk(Tick(s, now).0, if Fires(s, TickAt(now)) then s.query else shown)
  {}

  lemma ConnectionShown(s: Session, offline: bool, shown: string)
    requires Inv(s) && ShownOk(s, shown)
    ensures ShownOk(SetOffline(s, offline), shown)
  {
    if s.deadline.None? && AllGroups(s, Idle) {
      forall k | 0 <= k < 4 ensures s.pageRetries[k].None? {
        assert PageOk(s, k);
      }
    }
  }

  /**
   * Every request asks for the query that is shown, except exactly a page asked for while the query differs from it;
   * which needs an armed debounce, but not the other way round: editing away and back arms it all the same.
   */
  lemma RequestsAskForWhatIsShown(s: Session, t: Traffic, op: Op, i: nat)
    requires Inv(s) && ShownOk(s, t.shown) && i < |Issued(s, op)|
    ensures Issued(s, op)[i].query == Observed(s, t, op).shown <==> !(op.More? && s.query != t.shown)
    ensures op.More? && s.deadline.None? ==> s.query == t.shown
  {
    match op {
      case TickAt(now) =>
        if s.deadline.None? {
          RetriesAsk(s, now, i);
          RetriesNeedGroups(s, now);
        }
      case More(kind) => assert PageOk(s, IndexOf(kind));
      case _ =>
    }
  }

  lemma RetriesAsk(s: Session, now: nat, i: nat)
    requires Shaped(s) && i < |DueRetries(s, now).1|
    ensures DueRetries(s, now).1[i].query == s.query
  {
    var c := DueRetries(s, now).1[i];
    if !(CombinedDue(s, now) && i == 0) {
      assert c in DuePages(s, now, 4);
      InDuePages(s, now, 4, c);
    }
  }

  lemma RetriesNeedGroups(s: Session, now: nat)
    requires Inv(s) && DueRetries(s, now).1 != []
    ensures !AllGroups(s, Idle)
  {
    if CombinedDue(s, now) {
      assert s.groups[0] == RateLimited(None, None);
    } else {
      var c := DueRetries(s, now).1[0];
      InDuePages(s, now, 4, c);
      var k :| 0 <= k < 4 && PageDue(s, k, now) && c == PageRequest(s, k, s.groups[k].resume.value);
      assert s.groups[k].RateLimited?;
    }
  }

  /** Editing the query away and back leaves the debounce armed, and a page still asks for what is shown. */
  lemma EditedAwayAndBack(s: Session, shown: string, away: string, back: string, now: nat, kind: SearchKind)
    requires Inv(s) && s.query == shown != "" && Trim(away) != "" && Trim(away) != shown && Trim(back) == shown
    requires MoreToShow(s.groups[IndexOf(kind)])
    ensures var s' := SetQuery(SetQuery(s, away, now), back, now);
            && s'.deadline.Some?
            && ShowMore(s', kind).1.Some? && ShowMore(s', kind).1.value.query == shown
  {
    hide Trim;
  }

  // -------------------------------------------------- ids in flight twice

  /** Nothing can be sent for page `k` before the generation ends. */
  ghost predicate Parked(s: Session, k: nat)
    requires Shaped(s) && k < 4
  {
    && s.deadline.Some? && s.pending.None? && s.combinedRetry.None?
    && s.pageIds[k].None? && s.pageRetries[k].None? && !s.groups[k].Loaded? && !s.groups[k].Pending?
  }

  /** Why a request of the current generation is in flight. */
  ghost predicate Explained(s: Session, t: Traffic, k: nat)
    requires Shaped(s) && k < 4
  {
    var id := Pack(s.generation, k);
    id in t.inFlight ==> Recorded(s, id) || id in t.dropped || Parked(s, k)
  }

  /** No id in flight is of a later generation, and one that is in flight twice was dropped once. */
  ghost predicate Counted(s: Session, t: Traffic) {
    && (forall id :: id in t.inFlight ==> Generation(id) <= s.generation)
    && (forall id :: t.inFlight[id] >= 2 ==> id in t.dropped)
    && (forall id :: id in t.dropped ==> id in t.inFlight)
  }

  ghost predicate TrafficOk(s: Session, t: Traffic)
    requires Shaped(s)
  {
    Counted(s, t) && ShownOk(s, t.shown) && forall k :: 0 <= k < 4 ==> Explained(s, t, k)
  }

  lemma ParkedKept(s: Session, op: Op, k: nat)
    requires Inv(s) && Allowed(s, op) && k < 4 && Parked(s, k) && Step(s, op).generation == s.generation
    ensures Parked(Step(s, op), k)
  {
    assert PageOk(s, k);
    match op {
      case Answer(id, reply, now) => ParkedThroughAnswer(s, id, reply, now, k);
      case Connection(offline) =>
      case _ =>
    }
  }

  lemma ParkedThroughAnswer(s: Session, id: nat, reply: Reply, now: nat, k: nat)
    requires Inv(s) && Allowed(s, Answer(id, reply, now)) && k < 4 && Parked(s, k)
    ensures Parked(ApplyReply(s, id, reply, now), k)
  {
    if KindByte(id) < 4 && s.pageIds[KindByte(id)] == Some(id) {
      assert AnswersPage(s, id, KindByte(id));
      PageReplyOutcome(s, KindByte(id), reply, now);
      hide PageReply;
    }
  }

  /** A parked page sends nothing. */
  lemma ParkedSendsNothing(s: Session, op: Op, k: nat)
    requires Inv(s) && Allowed(s, op) && k < 4 && Parked(s, k) && Step(s, op).generation == s.generation
    ensures !Carries(Issued(s, op), Pack(s.generation, k))
  {
    var id := Pack(s.generation, k);
    PackRoundTrip(s.generation, k);
    if Carries(Issued(s, op), id) {
      assert op.More?;
      KindsNeverCollide(s.generation, s.generation, k, IndexOf(op.kind));
      assert false;
    }
  }

  // each request is sent once

  lemma {:induction false} DuePagesOnce(s: Session, now: nat, n: nat)
    requires Shaped(s) && n <= 4
    ensures Distinct(SentIds(DuePages(s, now, n)))
    ensures forall id :: id in SentIds(DuePages(s, now, n)) ==> KindByte(id) < n
  {
    if n > 0 {
      DuePagesOnce(s, now, n - 1);
      if PageDue(s, n - 1, now) {
        PackRoundTrip(s.generation, n - 1);
        var front, all := SentIds(DuePages(s, now, n - 1)), SentIds(DuePages(s, now, n));
        assert all == front + [Pack(s.generation, n - 1)];
        DistinctAppend(front, [Pack(s.generation, n - 1)]);
      }
    }
  }

  lemma {:induction false} NonePageDue(s: Session, now: nat, n: nat)
    requires Shaped(s) && NoPages(s) && n <= 4
    ensures DuePages(s, now, n) == []
  {
    if n > 0 {
      NonePageDue(s, now, n - 1);
    }
  }

  lemma DueRetriesOnce(s: Session, now: nat)
    requires Inv(s)
    ensures Distinct(SentIds(DueRetries(s, now).1))
  {
    if CombinedDue(s, now) {
      NonePageDue(s, now, 4);
    } else {
      DuePagesOnce(s, now, 4);
      assert DueRetries(s, now).1 == DuePages(s, now, 4);
    }
  }

  lemma SentDistinct(s: Session, op: Op)
    requires Inv(s)
    ensures Distinct(SentIds(Issued(s, op)))
  {
    hide Inv, DueRetries, Fire, SetQuery, SetOffline, ApplyReply;
    if op.TickAt? && !s.offline && s.deadline.None? {
      DueRetriesOnce(s, op.now);
    }
  }

  lemma CarriesSent(commands: seq<Command>, id: nat)
    ensures id in SentIds(commands) <==> Carries(commands, id)
  {
    if Carries(commands, id) {
      var i :| 0 <= i < |commands| && commands[i].requestId == id;
      assert SentIds(commands)[i] == id;
    }
  }

  lemma SentOnce(s: Session, op: Op, id: nat)
    requires Inv(s)
    ensures multiset(SentIds(Issued(s, op)))[id] == if Carries(Issued(s, op), id) then 1 else 0
  {
    hide Inv, Issued, Carries;
    SentDistinct(s, op);
    DistinctCounts(SentIds(Issued(s, op)));
    CarriesSent(Issued(s, op), id);
  }

  /** How the count of an id in flight changes. */
  lemma CountAfter(s: Session, t: Traffic, op: Op, id: nat)
    requires Inv(s) && Real(s, t, op)
    ensures Observed(s, t, op).inFlight[id]
            == t.inFlight[id] - (if op.Answer? && op.id == id then 1 else 0) + (if Carries(Issued(s, op), id) then 1 else 0)
  {
    SentOnce(s, op, id);
  }

  lemma SentOfGeneration(s: Session, op: Op, id: nat)
    requires Inv(s) && Allowed(s, op) && Step(s, op).generation < 0x100_0000_0000_0000 && Carries(Issued(s, op), id)
    ensures Generation(id) == Step(s, op).generation && Recorded(Step(s, op), id) && !Recorded(s, id)
    ensures KindByte(id) < 4 && id == Pack(Step(s, op).generation, KindByte(id))
  {
    OpsSendWhatTheyRecord(s, op);
    StepKeepsInv(s, op);
    var s' := Step(s, op);
    PageIdsArePacked(s');
    PackRoundTrip(s'.generation, 0);
    if s'.pending != Some(id) {
      var k: nat :| AnswersPage(s', id, k);
      PackRoundTrip(s'.generation, k);
    }
  }

  lemma GenerationsGrow(s: Session, op: Op)
    requires Inv(s) && Allowed(s, op)
    ensures Step(s, op).generation >= s.generation
  {
    RowsOnlyGrow(s, op, 0);
  }

  /** Sending an id that is in flight happens exactly for the ids dropped by going offline. */
  lemma ReuseIffDropped(s: Session, t: Traffic, op: Op, id: nat)
    requires Inv(s) && Allowed(s, op) && TrafficOk(s, t) && Step(s, op).generation < 0x100_0000_0000_0000
    requires Carries(Issued(s, op), id)
    ensures id in t.inFlight <==> id in t.dropped
  {
    hide Inv, Allowed, Step, Issued, Recorded, Parked, Carries, ShownOk;
    SentOfGeneration(s, op, id);
    GenerationsGrow(s, op);
    if id in t.inFlight {
      var k := KindByte(id);
      assert Generation(id) <= s.generation;
      assert Explained(s, t, k);
      if Parked(s, k) {
        ParkedSendsNothing(s, op, k);
      }
    }
  }

  /** What happens to a recorded request of the generation. */
  lemma RecordedThen(s: Session, op: Op, id: nat, k: nat)
    requires Inv(s) && Allowed(s, op) && k < 4 && id == Pack(s.generation, k) && Recorded(s, id)
    requires s.generation < 0x100_0000_0000_0000 && Step(s, op).generation == s.generation
    ensures Recorded(Step(s, op), id) || Parked(Step(s, op), k) || id in Collapsed(s, op) || (op.Answer? && op.id == id)
  {
    PageIdsArePacked(s);
    PackRoundTrip(s.generation, k);
    match op {
      case Answer(other, reply, now) =>
        if other != id {
          RecordedThroughAnswer(s, other, reply, now, id);
        }
      case EditQuery(raw, now) => RecordedThroughEdit(s, raw, now, id, k);
      case Connection(offline) => RecordedThroughConnection(s, offline, id, k);
      case TickAt(now) => RecordedThroughTick(s, now, id);
      case More(kind) => RecordedThroughMore(s, kind, id);
    }
  }

  lemma RecordedThroughAnswer(s: Session, other: nat, reply: Reply, now: nat, id: nat)
    requires Inv(s) && Allowed(s, Answer(other, reply, now)) && other != id && Recorded(s, id)
    ensures Shaped(ApplyReply(s, other, reply, now)) && Recorded(ApplyReply(s, other, reply, now), id)
  {
    if s.offline || Generation(other) != s.generation || !Recorded(s, other) {
      OtherRepliesChangeNothing(s, other, reply, now);
    } else {
      ReplyUsesUpItsRequest(s, other, reply, now);
    }
  }

  /** The request is the pending one, or the one of its own page. */
  lemma WhichRecord(s: Session, id: nat, k: nat)
    requires Inv(s) && k < 4 && id == Pack(s.generation, k) && Recorded(s, id)
    ensures s.pageIds[k] == Some(id) || (k == 0 && s.pending == Some(id))
  {
    if s.pending == Some(id) {
      KindsNeverCollide(s.generation, s.generation, k, 0);
    } else {
      var j: nat :| AnswersPage(s, id, j);
      PageIdsArePacked(s);
      KindsNeverCollide(s.generation, s.generation, k, j);
    }
  }

  lemma RecordedThroughEdit(s: Session, raw: string, now: nat, id: nat, k: nat)
    requires Inv(s) && k < 4 && id == Pack(s.generation, k) && Recorded(s, id)
    requires SetQuery(s, raw, now).generation == s.generation
    ensures Shaped(SetQuery(s, raw, now))
    ensures Recorded(SetQuery(s, raw, now), id) || Parked(SetQuery(s, raw, now), k)
  {
    hide Trim;
    var s' := SetQuery(s, raw, now);
    WhichRecord(s, id, k);
    assert PageOk(s, k);
    if s.pageIds[k] == Some(id) {
      assert s'.pageIds[k] == Some(id) ==> AnswersPage(s', id, k);
    }
  }

  lemma RecordedThroughConnection(s: Session, offline: bool, id: nat, k: nat)
    requires Inv(s) && k < 4 && id == Pack(s.generation, k) && Recorded(s, id)
    ensures var s' := SetOffline(s, offline);
            Shaped(s') && (Recorded(s', id) || Parked(s', k) || id in Collapsed(s, Connection(offline)))
  {
    var s' := SetOffline(s, offline);
    WhichRecord(s, id, k);
    assert PageOk(s, k);
    if s.pageIds[k] == Some(id) {
      assert s'.pageIds[k] == Some(id) ==> AnswersPage(s', id, k);
    }
  }

  lemma RecordedThroughTick(s: Session, now: nat, id: nat)
    requires Inv(s) && Recorded(s, id) && Tick(s, now).0.generation == s.generation
    ensures Shaped(Tick(s, now).0) && Recorded(Tick(s, now).0, id)
  {
    var s' := Tick(s, now).0;
    if s.pending != Some(id) {
      var k: nat :| AnswersPage(s, id, k);
      assert PageOk(s, k);
      assert AnswersPage(s', id, k);
    }
  }

  lemma RecordedThroughMore(s: Session, kind: SearchKind, id: nat)
    requires Inv(s) && Recorded(s, id)
    ensures Shaped(ShowMore(s, kind).0) && Recorded(ShowMore(s, kind).0, id)
  {
    var s' := ShowMore(s, kind).0;
    if s.pending != Some(id) {
      var k: nat :| AnswersPage(s, id, k);
      assert PageOk(s, k);
      assert AnswersPage(s', id, k);
    }
  }

  lemma ExplainedKept(s: Session, t: Traffic, op: Op, k: nat)
    requires Inv(s) && Real(s, t, op) && TrafficOk(s, t) && Step(s, op).generation < 0x100_0000_0000_0000 && k < 4
    ensures Explained(Step(s, op), Observed(s, t, op), k)
  {
    var (s', t') := (Step(s, op), Observed(s, t, op));
    var id := Pack(s'.generation, k);
    hide Inv, Allowed, Step, Issued, Recorded, Parked, Carries, ShownOk, Collapsed;
    PackRoundTrip(s'.generation, k);
    GenerationsGrow(s, op);
    CountAfter(s, t, op, id);
    if id in t'.inFlight {
      if Carries(Issued(s, op), id) {
        SentOfGeneration(s, op, id);
      } else if s'.generation == s.generation {
        assert id in t.inFlight && Explained(s, t, k);
        if id !in t.dropped {
          if Parked(s, k) {
            ParkedKept(s, op, k);
          } else {
            RecordedThen(s, op, id, k);
          }
        }
      }
    }
  }

  lemma CountedKept(s: Session, t: Traffic, op: Op)
    requires Inv(s) && Real(s, t, op) && TrafficOk(s, t) && Step(s, op).generation < 0x100_0000_0000_0000
    ensures Counted(Step(s, op), Observed(s, t, op))
  {
    var (s', t') := (Step(s, op), Observed(s, t, op));
    hide Inv, Allowed, Step, Issued, Recorded, Parked, Carries, ShownOk, Collapsed;
    GenerationsGrow(s, op);
    forall id | id in t'.inFlight ensures Generation(id) <= s'.generation {
      CountAfter(s, t, op, id);
      if Carries(Issued(s, op), id) {
        SentOfGeneration(s, op, id);
      }
    }
    forall id | t'.inFlight[id] >= 2 ensures id in t'.dropped {
      CountAfter(s, t, op, id);
      if Carries(Issued(s, op), id) {
        ReuseIffDropped(s, t, op, id);
      }
    }
  }

  lemma TrafficKept(s: Session, t: Traffic, op: Op)
    requires Inv(s) && Real(s, t, op) && TrafficOk(s, t) && Step(s, op).generation < 0x100_0000_0000_0000
    ensures TrafficOk(Step(s, op), Observed(s, t, op))
  {
    CountedKept(s, t, op);
    ShownKept(s, t, op);
    hide Inv, Real, Step, Counted, ShownOk, Explained, Observed;
    forall k | 0 <= k < 4 ensures Explained(Step(s, op), Observed(s, t, op), k) {
      ExplainedKept(s, t, op, k);
    }
  }

  lemma {:induction false} WatchedKept(s: Session, t: Traffic, ops: seq<Op>, s': Session, t': Traffic)
    requires Inv(s) && TrafficOk(s, t) && Watched(s, t, ops, s', t')
    ensures Inv(s') && s'.generation >= s.generation
    ensures s'.generation < 0x100_0000_0000_0000 ==> TrafficOk(s', t')
    decreases |ops|
  {
    hide Inv, Step, TrafficOk, Observed;
    if ops != [] {
      StepKeepsInv(s, ops[0]);
      GenerationsGrow(s, ops[0]);
      WatchedInv(Step(s, ops[0]), Observed(s, t, ops[0]), ops[1..], s', t');
      if s'.generation < 0x100_0000_0000_0000 {
        TrafficKept(s, t, ops[0]);
        WatchedKept(Step(s, ops[0]), Observed(s, t, ops[0]), ops[1..], s', t');
      }
    }
  }

  lemma {:induction false} WatchedInv(s: Session, t: Traffic, ops: seq<Op>, s': Session, t': Traffic)
    requires Inv(s) && Watched(s, t, ops, s', t')
    ensures Inv(s') && s'.generation >= s.generation
    decreases |ops|
  {
    hide Inv, Step, Observed;
    if ops != [] {
      StepKeepsInv(s, ops[0]);
      GenerationsGrow(s, ops[0]);
      WatchedInv(Step(s, ops[0]), Observed(s, t, ops[0]), ops[1..], s', t');
    }
  }

  lemma NothingYet()
    ensures Inv(NewSession()) && TrafficOk(NewSession(), NoTraffic()) && ShownOk(NewSession(), NoTraffic().shown)
  {
    NewSessionInv();
  }

  /**
   * In every run whose replies answer requests in flight, a request is sent while an earlier one with its id is still
   * in flight exactly when going offline dropped that earlier one; so only then can its late reply be taken for the
   * newer one's.
   */
  lemma IdsAreReusedIffDropped(ops: seq<Op>, s: Session, t: Traffic, op: Op, id: nat)
    requires Watched(NewSession(), NoTraffic(), ops, s, t) && Allowed(s, op)
    requires Step(s, op).generation < 0x100_0000_0000_0000 && Carries(Issued(s, op), id)
    ensures id in t.inFlight <==> id in t.dropped
  {
    hide Inv, TrafficOk, Step, Watched;
    NothingYet();
    WatchedKept(NewSession(), NoTraffic(), ops, s, t);
    GenerationsGrow(s, op);
    ReuseIffDropped(s, t, op, id);
  }

  lemma {:induction false} WatchedShown(s: Session, t: Traffic, ops: seq<Op>, s': Session, t': Traffic)
    requires Inv(s) && ShownOk(s, t.shown) && Watched(s, t, ops, s', t')
    ensures Inv(s') && ShownOk(s', t'.shown)
    decreases |ops|
  {
    hide Inv, Step, ShownOk, Observed;
    if ops != [] {
      StepKeepsInv(s, ops[0]);
      ShownKept(s, t, ops[0]);
      WatchedShown(Step(s, ops[0]), Observed(s, t, ops[0]), ops[1..], s', t');
    }
  }

  /** In every such run every request asks for the query shown, except exactly a page asked for after an edit. */
  lemma RunsAskForWhatIsShown(ops: seq<Op>, s: Session, t: Traffic, op: Op, i: nat)
    requires Watched(NewSession(), NoTraffic(), ops, s, t) && i < |Issued(s, op)|
    ensures Issued(s, op)[i].query == Observed(s, t, op).shown <==> !(op.More? && s.query != t.shown)
    ensures op.More? && s.deadline.None? ==> s.query == t.shown
  {
    hide Inv, Step, Watched, Issued, Observed, ShownOk;
    NothingYet();
    WatchedShown(NewSession(), NoTraffic(), ops, s, t);
    RequestsAskForWhatIsShown(s, t, op, i);
  }

  /**
   * Going offline while the retry of a page is in flight, coming back and showing more sends the same id again; the
   * reply to the first request then answers the second.
   */
  lemma CollapseThenReuse(s: Session, t: Traffic, kind: SearchKind)
    requires Inv(s) && s.pageRetries[IndexOf(kind)].Some? && s.pageRetries[IndexOf(kind)].value.issued
    requires Pack(s.generation, IndexOf(kind)) in t.inFlight
    ensures var id := Pack(s.generation, IndexOf(kind));
            var (s1, t1) := (Step(s, Connection(true)), Observed(s, t, Connection(true)));
            var (s2, t2) := (Step(s1, Connection(false)), Observed(s1, t1, Connection(false)));
            && id in t1.dropped && id in t2.dropped
            && Issued(s2, More(kind)) != [] && Issued(s2, More(kind))[0].requestId == id
            && AnswersPage(Step(s2, More(kind)), id, IndexOf(kind))
  {
    var k := IndexOf(kind);
    assert PageOk(s, k);
    assert RetryScheduled(s);
    var s1 := Step(s, Connection(true));
    assert Pack(s.generation, k) in Collapsed(s, Connection(true));
    assert !RetryScheduled(s1);
  }

  // --------------------------------------------------------- such a run

  ghost predicate Reaches(s: Session, t: Traffic) { exists ops :: Watched(NewSession(), NoTraffic(), ops, s, t) }

  lemma {:induction false} WatchedOneMore(s: Session, t: Traffic, ops: seq<Op>, s': Session, t': Traffic, op: Op)
    requires Shaped(s) && Watched(s, t, ops, s', t') && Real(s', t', op)
    ensures Watched(s, t, ops + [op], Step(s', op), Observed(s', t', op))
    decreases |ops|
  {
    hide Step, Observed, Real;
    if ops == [] {
      assert Watched(Step(s, op), Observed(s, t, op), [], Step(s, op), Observed(s, t, op));
    } else {
      assert (ops + [op])[1..] == ops[1..] + [op];
      WatchedOneMore(Step(s, ops[0]), Observed(s, t, ops[0]), ops[1..], s', t', op);
    }
  }

  /** One more operation, with what becomes of the id 256. */
  lemma Extend(s: Session, t: Traffic, op: Op) returns (s': Session, t': Traffic)
    requires Reaches(s, t) && Inv(s) && Real(s, t, op)
    ensures Reaches(s', t') && Inv(s') && s' == Step(s, op)
    ensures t'.inFlight[256]
            == t.inFlight[256] - (if op.Answer? && op.id == 256 then 1 else 0)
               + (if Carries(Issued(s, op), 256) then 1 else 0)
    ensures 256 in t'.dropped <==> (256 in t.dropped || 256 in Collapsed(s, op)) && t'.inFlight[256] > 0
  {
    hide Inv, Allowed, Step, Issued, Carries, Collapsed;
    var ops :| Watched(NewSession(), NoTraffic(), ops, s, t);
    WatchedOneMore(NewSession(), NoTraffic(), ops, s, t, op);
    StepKeepsInv(s, op);
    CountAfter(s, t, op, 256);
    s', t' := Step(s, op), Observed(s, t, op);
  }

  /** A session searching for "a", by what varies below. */
  function At(deadline: Option<nat>, generation: nat, tracks: GroupState, others: GroupState, offline: bool,
              pending: Option<nat>, page: Option<nat>, retry: Option<Retry>): Session {
    Session("a", "a", deadline, generation, [tracks, others, others, others], offline, pending, [page, None, None, None],
            None, [retry, None, None, None])
  }

  const TRACKS := Page([GroupPage(Track, [7], Some(20))], [])

  lemma Typed()
    ensures Step(NewSession(), EditQuery("a", 0)) == At(Some(150), 0, Idle, Idle, false, None, None, None)
    ensures !Carries(Issued(NewSession(), EditQuery("a", 0)), 256)
  {
    assert Trim("a") == "a";
    var s' := Step(NewSession(), EditQuery("a", 0));
    assert s'.groups == [Idle, Idle, Idle, Idle] && s'.pageIds == [None, None, None, None];
  }

  lemma Fired()
    ensures var s := At(Some(150), 0, Idle, Idle, false, None, None, None);
            && Step(s, TickAt(150)) == At(None, 1, Pending, Pending, false, Some(256), None, None)
            && Carries(Issued(s, TickAt(150)), 256)
  {
    var s := At(Some(150), 0, Idle, Idle, false, None, None, None);
    assert Pack(1, 0) == 256;
    assert Issued(s, TickAt(150))[0].requestId == 256;
  }

  lemma Answered()
    ensures var s := At(None, 1, Pending, Pending, false, Some(256), None, None);
            && Allowed(s, Answer(256, TRACKS, 160)) && Issued(s, Answer(256, TRACKS, 160)) == []
            && Step(s, Answer(256, TRACKS, 160))
               == At(None, 1, Loaded([7], Some(20), false), Empty, false, None, None, None)
  {
    var s := At(None, 1, Pending, Pending, false, Some(256), None, None);
    OnePage(s.groups, TRACKS, 0);
    assert Step(s, Answer(256, TRACKS, 160)).groups == [Loaded([7], Some(20), false), Empty, Empty, Empty];
  }

  lemma Asked()
    ensures var s := At(None, 1, Loaded([7], Some(20), false), Empty, false, None, None, None);
            && Step(s, More(Track)) == At(None, 1, Loaded([7], Some(20), true), Empty, false, None, Some(256), None)
            && Carries(Issued(s, More(Track)), 256)
  {
    assert Pack(1, 0) == 256;
    var s := At(None, 1, Loaded([7], Some(20), false), Empty, false, None, None, None);
    assert Issued(s, More(Track))[0].requestId == 256;
  }

  lemma Limited()
    ensures var s := At(None, 1, Loaded([7], Some(20), true), Empty, false, None, Some(256), None);
            && Allowed(s, Answer(256, TooMany(Some(0)), 170)) && Issued(s, Answer(256, TooMany(Some(0)), 170)) == []
            && Step(s, Answer(256, TooMany(Some(0)), 170))
               == At(None, 1, RateLimited(Some([7]), Some(20)), Empty, false, None, None, Some(Retry(170, 0, false)))
  {}

  lemma Retried()
    ensures var s := At(None, 1, RateLimited(Some([7]), Some(20)), Empty, false, None, None, Some(Retry(170, 0, false)));
            && Step(s, TickAt(170))
               == At(None, 1, RateLimited(Some([7]), Some(20)), Empty, false, None, Some(256), Some(Retry(170, 0, true)))
            && Carries(Issued(s, TickAt(170)), 256)
  {
    var s := At(None, 1, RateLimited(Some([7]), Some(20)), Empty, false, None, None, Some(Retry(170, 0, false)));
    assert Pack(1, 0) == 256 && PageDue(s, 0, 170);
    InDuePages(s, 170, 4, PageRequest(s, 0, 20));
    var s' := Step(s, TickAt(170));
    assert s'.pageIds == [Some(256), None, None, None] && s'.pageRetries == [Some(Retry(170, 0, true)), None, None, None];
    var i :| 0 <= i < |DuePages(s, 170, 4)| && DuePages(s, 170, 4)[i] == PageRequest(s, 0, 20);
    assert Issued(s, TickAt(170))[i].requestId == 256;
  }

  lemma WentOffline()
    ensures var s := At(None, 1, RateLimited(Some([7]), Some(20)), Empty, false, None, Some(256), Some(Retry(170, 0, true)));
            && Step(s, Connection(true)) == At(None, 1, Loaded([7], Some(20), false), Empty, true, None, None, None)
            && 256 in Collapsed(s, Connection(true)) && !Carries(Issued(s, Connection(true)), 256)
  {
    var s := At(None, 1, RateLimited(Some([7]), Some(20)), Empty, false, None, Some(256), Some(Retry(170, 0, true)));
    assert s.pageRetries[0].Some? && s.pageIds[0] == Some(256);
    assert RetryScheduled(s);
    var s' := Step(s, Connection(true));
    assert s'.groups == [Loaded([7], Some(20), false), Empty, Empty, Empty] && s'.pageIds == [None, None, None, None];
  }

  lemma CameBack()
    ensures var s := At(None, 1, Loaded([7], Some(20), false), Empty, true, None, None, None);
            && Step(s, Connection(false)) == At(None, 1, Loaded([7], Some(20), false), Empty, false, None, None, None)
            && Collapsed(s, Connection(false)) == {} && !Carries(Issued(s, Connection(false)), 256)
  {}

  lemma NothingCarried()
    ensures !Carries([], 256)
  {}

  /** A first page of tracks has arrived. */
  lemma TracksShown() returns (s: Session, t: Traffic)
    ensures Reaches(s, t) && Inv(s) && t.inFlight[256] == 0
    ensures s == At(None, 1, Loaded([7], Some(20), false), Empty, false, None, None, None)
  {
    s, t := NewSession(), NoTraffic();
    assert Watched(s, t, [], s, t);
    NewSessionInv();
    NothingCarried();
    hide Reaches, Inv, Step, Issued, Carries, Collapsed, At, AnswersPage, NewSession;
    Typed();
    s, t := Extend(s, t, EditQuery("a", 0));
    Fired();
    s, t := Extend(s, t, TickAt(150));
    Answered();
    s, t := Extend(s, t, Answer(256, TRACKS, 160));
  }

  /** The next page is asked for and rate-limited, and its retry is in flight. */
  lemma RetryInFlight() returns (s: Session, t: Traffic)
    ensures Reaches(s, t) && Inv(s) && t.inFlight[256] == 1
    ensures s == At(None, 1, RateLimited(Some([7]), Some(20)), Empty, false, None, Some(256), Some(Retry(170, 0, true)))
  {
    hide Reaches, Inv, Step, Issued, Carries, Collapsed, At, AnswersPage;
    NothingCarried();
    s, t := TracksShown();
    Asked();
    s, t := Extend(s, t, More(Track));
    Limited();
    s, t := Extend(s, t, Answer(256, TooMany(Some(0)), 170));
    Retried();
    s, t := Extend(s, t, TickAt(170));
  }

  /**
   * Then the session goes offline and comes back, and "Show more" asks again: two requests of one id are in flight, and
   * whichever reply comes first is taken for the page.
   */
  lemma IdInFlightTwice() returns (s: Session, t: Traffic)
    ensures Reaches(s, t) && Inv(s) && t.inFlight[256] == 2 && 256 in t.dropped && AnswersPage(s, 256, 0)
  {
    hide Reaches, Inv, Step, Issued, Carries, Collapsed;
    s, t := RetryInFlight();
    WentOffline();
    s, t := Extend(s, t, Connection(true));
    CameBack();
    s, t := Extend(s, t, Connection(false));
    Asked();
    s, t := Extend(s, t, More(Track));
  }
}

/** Request ids are never ambiguous, rows only grow, and "refreshing" tells the truth. */
module SearchProperties {
  import opened Prelude
  import opened RequestIds
  import opened SearchModel
  import opened SearchInvariants

  ghost predicate Run(s: Session, ops: seq<Op>, s': Session)
    requires Shaped(s)
    decreases |ops|
  {
    if ops == [] then s' == s
    else Allowed(s, ops[0]) && Run(Step(s, ops[0]), ops[1..], s')
  }

  lemma {:induction false} RunKeepsInv(s: Session, ops: seq<Op>, s': Session)
    requires Inv(s) && Run(s, ops, s')
    ensures Inv(s')
    decreases |ops|
  {
    hide Inv, Step, Allowed;
    if ops != [] {
      StepKeepsInv(s, ops[0]);
      RunKeepsInv(Step(s, ops[0]), ops[1..], s');
    }
  }

  // ----------------------------------------------------------- request ids

  ghost predicate Recorded(s: Session, id: nat)
    requires Shaped(s)
  {
    s.pending == Some(id) || exists k: nat :: AnswersPage(s, id, k)
  }

  /**
   * In every state of every run no two recorded requests share an id, and the combined request or its retry never
   * coexists with a page request or a page retry, so the id that the combined request shares with the track page is
   * never ambiguous.
   */
  lemma IdsAreNeverAmbiguous(ops: seq<Op>, s: Session)
    requires Run(NewSession(), ops, s)
    ensures Shaped(s)
    ensures s.pending.Some? || s.combinedRetry.Some? ==> NoPages(s)
    ensures forall id: nat, k: nat, k': nat :: AnswersPage(s, id, k) && AnswersPage(s, id, k') ==> k == k'
    ensures forall id: nat, k: nat :: AnswersPage(s, id, k) ==> s.pending != Some(id)
    ensures forall id: nat, k: nat :: AnswersPage(s, id, k) ==> id == Pack(s.generation, k)
  {
    NewSessionInv();
    RunKeepsInv(NewSession(), ops, s);
    PageIdsArePacked(s);
  }

  lemma PageIdsArePacked(s: Session)
    requires Inv(s)
    ensures forall id: nat, k: nat :: AnswersPage(s, id, k) ==> id == Pack(s.generation, k)
    ensures forall id: nat, k: nat, k': nat :: AnswersPage(s, id, k) && AnswersPage(s, id, k') ==> k == k'
    ensures s.pending.Some? || s.combinedRetry.Some? ==> NoPages(s)
  {
    forall id: nat, k: nat | AnswersPage(s, id, k) ensures id == Pack(s.generation, k) {
      assert PageOk(s, k);
    }
    forall id: nat, k: nat, k': nat | AnswersPage(s, id, k) && AnswersPage(s, id, k') ensures k == k' {
      KindsNeverCollide(s.generation, s.generation, k, k');
    }
  }

  /** A reply for which no request is recorded, or of an earlier generation, or that arrives offline, changes nothing. */
  lemma OtherRepliesChangeNothing(s: Session, id: nat, reply: Reply, now: nat)
    requires Shaped(s) && (s.offline || Generation(id) != s.generation || !Recorded(s, id))
    ensures ApplyReply(s, id, reply, now) == s
  {
    assert KindByte(id) < 4 && s.pageIds[KindByte(id)] == Some(id) ==> AnswersPage(s, id, KindByte(id));
  }

  /** A reply that is taken uses up its request and no other, so a second one with the same id changes nothing. */
  lemma ReplyUsesUpItsRequest(s: Session, id: nat, reply: Reply, now: nat)
    requires Inv(s) && Allowed(s, Answer(id, reply, now))
    requires !s.offline && Generation(id) == s.generation && Recorded(s, id)
    ensures var s' := ApplyReply(s, id, reply, now);
            && Shaped(s') && !Recorded(s', id)
            && forall other: nat :: other != id ==> (Recorded(s', other) <==> Recorded(s, other))
  {
    var s' := ApplyReply(s, id, reply, now);
    PageIdsArePacked(s);
    if s.pending == Some(id) {
      CombinedReplyKeepsPages(s, reply, now);
    } else {
      var k: nat :| AnswersPage(s, id, k);
      PackRoundTrip(s.generation, k);
      assert AnswersPage(s, id, KindByte(id));
      PageReplyOutcome(s, k, reply, now);
      hide Inv, PageReply;
      OneIdLess(s, s', id, k);
    }
  }

  lemma OneIdLess(s: Session, s': Session, id: nat, k: nat)
    requires Shaped(s) && Shaped(s') && AnswersPage(s, id, k) && s.pending != Some(id) && s'.pending == s.pending
    requires forall j: nat :: AnswersPage(s, id, j) ==> j == k
    requires s'.pageIds == s.pageIds[k := None]
    ensures !Recorded(s', id)
    ensures forall other: nat :: other != id ==> (Recorded(s', other) <==> Recorded(s, other))
  {
    assert forall other: nat, j: nat :: j != k ==> (AnswersPage(s', other, j) <==> AnswersPage(s, other, j));
    assert forall other: nat :: !AnswersPage(s', other, k);
  }

  lemma CombinedReplyKeepsPages(s: Session, reply: Reply, now: nat)
    requires Shaped(s)
    ensures var s' := CombinedReply(s, reply, now);
            Shaped(s') && s'.pending.None? && s'.pageIds == s.pageIds && s'.pageRetries == s.pageRetries
            && s'.generation == s.generation && s'.offline == s.offline
  {}

  lemma DuplicateRepliesChangeNothing(s: Session, id: nat, first: Reply, second: Reply, now: nat, later: nat)
    requires Inv(s) && Allowed(s, Answer(id, first, now))
    ensures var s' := ApplyReply(s, id, first, now);
            Shaped(s') && (s' != s ==> ApplyReply(s', id, second, later) == s')
  {
    var s' := ApplyReply(s, id, first, now);
    ApplyReplyKeepsInv(s, id, first, now);
    if s' != s {
      if !Recorded(s, id) || s.offline || Generation(id) != s.generation {
        OtherRepliesChangeNothing(s, id, first, now);
      } else {
        ReplyUsesUpItsRequest(s, id, first, now);
        OtherRepliesChangeNothing(s', id, second, later);
      }
    }
  }

  // ------------------------------------------------- what is sent is recorded

  lemma {:induction false} InDuePages(s: Session, now: nat, n: nat, c: Command)
    requires Shaped(s) && n <= 4
    ensures c in DuePages(s, now, n) <==>
            exists k :: 0 <= k < n && PageDue(s, k, now) && c == PageRequest(s, k, s.groups[k].resume.value)
  {
    if n > 0 {
      InDuePages(s, now, n - 1, c);
    }
  }

  predicate Carries(commands: seq<Command>, id: nat) { exists i :: 0 <= i < |commands| && commands[i].requestId == id }

  /**
   * Every request an operation sends is recorded afterwards, was not outstanding before, and nothing else becomes
   * recorded.
   */
  ghost predicate SendsWhatItRecords(s: Session, s': Session, commands: seq<Command>)
    requires Shaped(s) && Shaped(s')
  {
    forall id: nat :: Carries(commands, id) <==> Recorded(s', id) && !Recorded(s, id)
  }

  lemma DueRetriesSend(s: Session, now: nat)
    requires Inv(s)
    ensures var (s', commands) := DueRetries(s, now); Shaped(s') && SendsWhatItRecords(s, s', commands)
  {
    var (s', commands) := DueRetries(s, now);
    DueRetriesKeepsInv(s, now);
    PageIdsArePacked(s);
    PageIdsArePacked(s');
    forall id: nat ensures Carries(commands, id) <==> Recorded(s', id) && !Recorded(s, id) {
      if Carries(commands, id) {
        var i :| 0 <= i < |commands| && commands[i].requestId == id;
        if !(CombinedDue(s, now) && commands[i] == CombinedRequest(s)) {
          assert commands[i] in DuePages(s, now, 4);
          InDuePages(s, now, 4, commands[i]);
          var k :| 0 <= k < 4 && PageDue(s, k, now) && commands[i] == PageRequest(s, k, s.groups[k].resume.value);
          assert PageOk(s, k);
          assert AnswersPage(s', id, k);
        }
      }
      if Recorded(s', id) && !Recorded(s, id) {
        if s'.pending == Some(id) {
          assert commands[0].requestId == id;
        } else {
          var k: nat :| AnswersPage(s', id, k);
          assert !AnswersPage(s, id, k);
          assert PageDue(s, k, now);
          var c := PageRequest(s, k, s.groups[k].resume.value);
          InDuePages(s, now, 4, c);
          assert c in commands;
        }
      }
    }
  }

  lemma NothingNewRecorded(s: Session, s': Session)
    requires Shaped(s) && Shaped(s') && (s'.pending.Some? ==> s'.pending == s.pending)
    requires forall k :: 0 <= k < 4 ==> s'.pageIds[k].Some? ==> s'.pageIds[k] == s.pageIds[k]
    ensures SendsWhatItRecords(s, s', [])
  {
    forall id: nat | Recorded(s', id) ensures Recorded(s, id) {
      if s'.pending != Some(id) {
        var k: nat :| AnswersPage(s', id, k);
        assert AnswersPage(s, id, k);
      }
    }
  }

  lemma FiringSends(s: Session)
    requires Inv(s)
    ensures SendsWhatItRecords(s, Fire(s), [CombinedRequest(Fire(s))])
  {
    var (s', commands) := (Fire(s), [CombinedRequest(Fire(s))]);
    PageIdsArePacked(s);
    forall id: nat ensures Carries(commands, id) <==> Recorded(s', id) && !Recorded(s, id) {
      assert commands[0].requestId == Pack(s'.generation, 0);
      NextGenerationDiffers(s.generation);
      if Recorded(s, id) && s.pending != Some(id) {
        var k: nat :| AnswersPage(s, id, k);
        if id == Pack(s'.generation, 0) {
          KindsNeverCollide(s.generation, s'.generation, k, 0);
        }
      }
    }
  }

  lemma NextGenerationDiffers(g: nat)
    ensures Pack(g, 0) != Pack(g + 1, 0)
  {
    assert (g * 256 + 256) % 0x1_0000_0000_0000_0000 != g * 256 % 0x1_0000_0000_0000_0000;
  }

  lemma ShowMoreSends(s: Session, kind: SearchKind)
    requires Inv(s)
    ensures var (s', c) := ShowMore(s, kind);
            Shaped(s') && SendsWhatItRecords(s, s', if c.Some? then [c.value] else [])
  {
    var (s', c) := ShowMore(s, kind);
    var i := IndexOf(kind);
    ShowMoreKeepsInv(s, kind);
    PageIdsArePacked(s');
    if c.Some? {
      forall id: nat ensures Carries([c.value], id) <==> Recorded(s', id) && !Recorded(s, id) {
        assert [c.value][0].requestId == Pack(s.generation, i);
        assert PageOk(s, i);
        assert AnswersPage(s', Pack(s.generation, i), i);
        assert forall k: nat :: k != i ==> (AnswersPage(s', id, k) <==> AnswersPage(s, id, k));
        assert !AnswersPage(s, id, i);
      }
    } else {
      NothingNewRecorded(s, s');
    }
  }

  lemma OpsSendWhatTheyRecord(s: Session, op: Op)
    requires Inv(s) && Allowed(s, op)
    ensures SendsWhatItRecords(s, Step(s, op), Issued(s, op))
  {
    hide SendsWhatItRecords;
    match op {
      case EditQuery(raw, now) => NothingNewRecorded(s, Step(s, op));
      case Connection(offline) => NothingNewRecorded(s, Step(s, op));
      case TickAt(now) =>
        if !s.offline && s.deadline.None? {
          DueRetriesSend(s, now);
        } else if !s.offline && now >= s.deadline.value && s.query != "" {
          FiringSends(s);
        } else {
          NothingNewRecorded(s, Step(s, op));
        }
      case More(kind) => ShowMoreSends(s, kind);
      case Answer(id, reply, now) => AnswersSendNothing(s, id, reply, now);
    }
  }

  lemma AnswersSendNothing(s: Session, id: nat, reply: Reply, now: nat)
    requires Inv(s) && Allowed(s, Answer(id, reply, now))
    ensures Shaped(ApplyReply(s, id, reply, now)) && SendsWhatItRecords(s, ApplyReply(s, id, reply, now), [])
  {
    hide SendsWhatItRecords;
    var s' := ApplyReply(s, id, reply, now);
    if s' != s && s.pending == Some(id) {
      CombinedReplyKeepsPages(s, reply, now);
    } else if s' != s {
      assert AnswersPage(s, id, KindByte(id));
      PageReplyOutcome(s, KindByte(id), reply, now);
    }
    NothingNewRecorded(s, s');
  }

  // ------------------------------------------------------------------ rows

  /** Group `k` of the session keeps its rows or gains one whole page of the reply. */
  ghost predicate RowsGrowByPages(s: Session, op: Op, s': Session, k: nat)
    requires Shaped(s) && Shaped(s') && k < 4
  {
    || Rows(s'.groups[k]) == Rows(s.groups[k])
    || (op.Answer? && op.reply.Page?
        && exists i :: 0 <= i < |op.reply.groups| && IndexOf(op.reply.groups[i].kind) == k
                       && Rows(s'.groups[k]) == Rows(s.groups[k]) + op.reply.groups[i].items)
  }

  ghost predicate FromOnePage(g: GroupState, pages: seq<GroupPage>, k: nat) {
    || Rows(g) == []
    || exists i :: 0 <= i < |pages| && IndexOf(pages[i].kind) == k && Rows(g) == pages[i].items
  }

  lemma {:induction false} RowsOfPages(groups: seq<GroupState>, pages: seq<GroupPage>, k: nat)
    requires |groups| == 4 && k < 4 && forall j :: 0 <= j < 4 ==> groups[j].Pending?
    ensures FromOnePage(WithGroups(groups, pages)[k], pages, k)
  {
    if pages != [] {
      var n := |pages| - 1;
      RowsOfPages(groups, pages[..n], k);
      PagesSettle(groups, pages[..n]);
      var before := WithGroups(groups, pages[..n])[k];
      if IndexOf(pages[n].kind) != k && Rows(before) != [] {
        var i :| 0 <= i < n && IndexOf(pages[..n][i].kind) == k && Rows(before) == pages[..n][i].items;
        assert pages[i] == pages[..n][i];
      }
    }
  }

  lemma {:induction false} RowsOfUnsupported(groups: seq<GroupState>, kinds: seq<SearchKind>, k: nat)
    requires |groups| == 4 && k < 4
    ensures var g := WithUnsupported(groups, kinds)[k]; g == groups[k] || g == Unsupported
  {
    if kinds != [] {
      RowsOfUnsupported(groups, kinds[..|kinds| - 1], k);
    }
  }

  lemma CombinedRowsGrow(s: Session, id: nat, reply: Reply, now: nat, k: nat)
    requires Inv(s) && s.pending.Some? && k < 4
    ensures RowsGrowByPages(s, Answer(id, reply, now), CombinedReply(s, reply, now), k)
  {
    CombinedGroups(s);
    assert Rows(s.groups[k]) == [];
    if reply.Page? {
      RowsOfPages(Reopened(s), reply.groups, k);
      RowsOfUnsupported(WithGroups(Reopened(s), reply.groups), reply.unsupported, k);
      var g := WithGroups(Reopened(s), reply.groups)[k];
      var s' := CombinedReply(s, reply, now);
      assert Rows(s'.groups[k]) == Rows(g) || Rows(s'.groups[k]) == [];
      if Rows(g) != [] {
        var i :| 0 <= i < |reply.groups| && IndexOf(reply.groups[i].kind) == k && Rows(g) == reply.groups[i].items;
        assert Rows(s.groups[k]) + reply.groups[i].items == reply.groups[i].items;
      }
    }
  }

  lemma PageRowsGrow(s: Session, id: nat, j: nat, reply: Reply, now: nat, k: nat)
    requires Inv(s) && j < 4 && s.pageIds[j].Some? && PageOnly(reply, j) && k < 4
    ensures RowsGrowByPages(s, Answer(id, reply, now), PageReply(s, j, reply, now), k)
  {
    PageReplyOutcome(s, j, reply, now);
  }

  /** Within one generation rows only grow, and only by whole pages of an answer; generations only go up. */
  lemma RowsOnlyGrow(s: Session, op: Op, k: nat)
    requires Inv(s) && Allowed(s, op) && k < 4
    ensures Step(s, op).generation >= s.generation
    ensures Step(s, op).generation == s.generation ==> RowsGrowByPages(s, op, Step(s, op), k)
  {
    assert PageOk(s, k);
    match op {
      case Answer(id, reply, now) =>
        hide RowsGrowByPages;
        if s.offline || Generation(id) != s.generation {
          SameRows(s, op, k);
        } else if s.pending == Some(id) {
          CombinedRowsGrow(s, id, reply, now, k);
          CombinedReplyKeepsPages(s, reply, now);
        } else if KindByte(id) < 4 && s.pageIds[KindByte(id)] == Some(id) {
          assert AnswersPage(s, id, KindByte(id));
          PageRowsGrow(s, id, KindByte(id), reply, now, k);
          PageReplyOutcome(s, KindByte(id), reply, now);
        } else {
          SameRows(s, op, k);
        }
      case _ =>
    }
  }

  lemma SameRows(s: Session, op: Op, k: nat)
    requires Shaped(s) && k < 4
    ensures RowsGrowByPages(s, op, s, k)
  {}

  /** Over any run that stays within one generation, what a group shows at first stays the start of what it shows. */
  lemma {:induction false} RowsArePrefixes(s: Session, ops: seq<Op>, s': Session, k: nat)
    requires Inv(s) && Run(s, ops, s') && k < 4
    ensures Shaped(s') && s'.generation >= s.generation
    ensures s'.generation == s.generation ==> Rows(s.groups[k]) <= Rows(s'.groups[k])
    decreases |ops|
  {
    hide Inv, Step, Allowed;
    if ops != [] {
      StepKeepsInv(s, ops[0]);
      RowsOnlyGrow(s, ops[0], k);
      RowsArePrefixes(Step(s, ops[0]), ops[1..], s', k);
    }
  }

  // ------------------------------------------------------------ refreshing

  /** Whenever no debounce is armed, "refreshing" is shown exactly while a retry is scheduled or outstanding. */
  lemma RefreshingIsTrue(ops: seq<Op>, s: Session)
    requires Run(NewSession(), ops, s)
    ensures s.deadline.None? ==> (Refreshing(s) <==> RetryScheduled(s))
    ensures RetryScheduled(s) ==> Refreshing(s)
  {
    NewSessionInv();
    RunKeepsInv(NewSession(), ops, s);
    if s.combinedRetry.Some? {
      assert s.groups[0].RateLimited?;
    } else if RetryScheduled(s) {
      var k :| 0 <= k < 4 && s.pageRetries[k].Some?;
      assert PageOk(s, k) && s.groups[k].RateLimited?;
    } else if Refreshing(s) {
      var k :| 0 <= k < 4 && s.groups[k].RateLimited?;
      assert PageOk(s, k);
    }
  }

  // -------------------------------------------- a group that hangs for good

  /** The group waits for a page that nobody has asked for. */
  ghost predicate Hung(s: Session, k: nat)
    requires Shaped(s) && k < 4
  {
    s.groups[k].Loaded? && s.groups[k].loadingMore && s.pageIds[k].None? && s.pageRetries[k].None?
  }

  /** A page answer leaves its group hung exactly when it is a success that does not carry the group. */
  lemma PageReplyHangsIff(s: Session, k: nat, reply: Reply, now: nat)
    requires Inv(s) && k < 4 && s.pageIds[k].Some? && PageOnly(reply, k)
    ensures Hung(PageReply(s, k, reply, now), k) <==> reply.Page? && reply.groups == []
  {
    PageReplyOutcome(s, k, reply, now);
  }

  /** Within its generation nothing an operation does gets a hung group going again, and "Show more" stays refused. */
  lemma HungStays(s: Session, op: Op, k: nat)
    requires Inv(s) && Allowed(s, op) && k < 4 && Hung(s, k) && Step(s, op).generation == s.generation
    ensures Hung(Step(s, op), k) && Step(s, op).groups[k] == s.groups[k]
    ensures op.More? && IndexOf(op.kind) == k ==> Issued(s, op) == []
  {
    assert PageOk(s, k);
    match op {
      case Answer(id, reply, now) =>
        if s.pending == Some(id) {
        } else if KindByte(id) < 4 && s.pageIds[KindByte(id)] == Some(id) {
          assert AnswersPage(s, id, KindByte(id));
          PageReplyOutcome(s, KindByte(id), reply, now);
        }
      case _ =>
    }
  }

  lemma {:induction false} HungForTheGeneration(s: Session, ops: seq<Op>, s': Session, k: nat)
    requires Inv(s) && Run(s, ops, s') && k < 4 && Hung(s, k) && s'.generation == s.generation
    ensures Shaped(s') && Hung(s', k) && s'.groups[k] == s.groups[k]
    decreases |ops|
  {
    hide Inv, Step, Allowed, Hung;
    if ops != [] {
      StepKeepsInv(s, ops[0]);
      RowsOnlyGrow(s, ops[0], k);
      RowsArePrefixes(Step(s, ops[0]), ops[1..], s', k);
      HungStays(s, ops[0], k);
      HungForTheGeneration(Step(s, ops[0]), ops[1..], s', k);
    }
  }

  // ---------------------------------------------- rows of two queries in one

  /**
   * Until the debounce fires, "Show more" asks for the edited query but in the old generation, so its answer is
   * appended to the rows of the query before.
   */
  lemma ShowMoreMixesQueries(s: Session, raw: string, kind: SearchKind, page: GroupPage, now: nat, later: nat)
    requires Inv(s) && !s.offline && s.generation < 0x100_0000_0000_0000
    requires Trim(raw) != "" && Trim(raw) != s.query
    requires MoreToShow(s.groups[IndexOf(kind)]) && page.kind == kind
    ensures var k := IndexOf(kind);
            var edited := SetQuery(s, raw, now);
            var (asked, command) := ShowMore(edited, kind);
            && command.Some? && command.value.query == Trim(raw) != s.query
            && var answered := ApplyReply(asked, command.value.requestId, Page([page], []), later);
               Rows(answered.groups[k]) == Rows(s.groups[k]) + page.items
  {
    hide Trim;
    var k := IndexOf(kind);
    var edited := SetQuery(s, raw, now);
    var (asked, command) := ShowMore(edited, kind);
    SetQueryKeepsInv(s, raw, now);
    ShowMoreKeepsInv(edited, kind);
    PackRoundTrip(s.generation, k);
    var id := Pack(s.generation, k);
    assert AnswersPage(asked, id, k);
    PageIdsArePacked(asked);
    PageReplyOutcome(asked, k, Page([page], []), later);
    assert PageOk(s, k);
  }
}

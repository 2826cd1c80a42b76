/** Which pages a session asks for, and what each answer, edit, tick and loss of connection makes of the groups. */
module SearchOutcomes {
  import opened Prelude
  import opened RequestIds
  import opened Backoff
  import opened SearchModel
  import opened SearchInvariants
  import opened SearchProperties

  // --------------------------------------------------------- which pages

  /** What the last page of kind `k` in an answer says comes next, if there is one. */
  function LastNext(pages: seq<GroupPage>, k: nat): Option<Option<nat>> {
    if pages == [] then None
    else
      var page := pages[|pages| - 1];
      if IndexOf(page.kind) == k then Some(page.next) else LastNext(pages[..|pages| - 1], k)
  }

  /** The session takes the reply: it is online, and the id is recorded in this generation. */
  ghost predicate Takes(s: Session, id: nat)
    requires Shaped(s)
  {
    !s.offline && Generation(id) == s.generation && Recorded(s, id)
  }

  /** Where each kind's next page starts, read off the answers taken in this generation. */
  ghost function NextStarts(s: Session, op: Op, next: seq<Option<nat>>): (r: seq<Option<nat>>)
    requires Shaped(s) && |next| == 4
    ensures |r| == 4
  {
    if Step(s, op).generation != s.generation then Four(None)
    else if op.Answer? && op.reply.Page? && Takes(s, op.id) then
      seq(4, k requires 0 <= k < 4 =>
        if LastNext(op.reply.groups, k).Some? then LastNext(op.reply.groups, k).value else next[k])
    else next
  }

  /** A group that has rows knows where its next page starts. */
  predicate KnowsNext(g: GroupState, next: Option<nat>) {
    && (g.Loaded? ==> g.next == next)
    && (g.RateLimited? && g.stale.Some? ==> g.resume == next)
  }

  ghost predicate AllKnowNext(s: Session, next: seq<Option<nat>>)
    requires Shaped(s) && |next| == 4
  {
    forall k :: 0 <= k < 4 ==> KnowsNext(s.groups[k], next[k])
  }

  lemma {:induction false} PagesKnowNext(groups: seq<GroupState>, pages: seq<GroupPage>, k: nat)
    requires |groups| == 4 && k < 4 && forall j :: 0 <= j < 4 ==> groups[j].Pending?
    ensures var g := WithGroups(groups, pages)[k];
            if LastNext(pages, k).Some? then KnowsNext(g, LastNext(pages, k).value) else g.Pending?
  {
    if pages != [] {
      PagesKnowNext(groups, pages[..|pages| - 1], k);
      PagesSettle(groups, pages[..|pages| - 1]);
    }
  }

  lemma CombinedKnowsNext(s: Session, reply: Reply, now: nat, next: seq<Option<nat>>, k: nat)
    requires Inv(s) && s.pending.Some? && |next| == 4 && k < 4
    ensures var g := CombinedReply(s, reply, now).groups[k];
            KnowsNext(g, if reply.Page? && LastNext(reply.groups, k).Some? then LastNext(reply.groups, k).value
                         else next[k])
  {
    CombinedGroups(s);
    if reply.Page? {
      PagesKnowNext(Reopened(s), reply.groups, k);
      RowsOfUnsupported(WithGroups(Reopened(s), reply.groups), reply.unsupported, k);
    }
  }

  lemma PageKnowsNext(s: Session, id: nat, j: nat, reply: Reply, now: nat, next: seq<Option<nat>>, k: nat)
    requires Inv(s) && j < 4 && s.pageIds[j].Some? && PageOnly(reply, j) && |next| == 4 && k < 4
    requires AllKnowNext(s, next)
    ensures var g := PageReply(s, j, reply, now).groups[k];
            KnowsNext(g, if reply.Page? && LastNext(reply.groups, k).Some? then LastNext(reply.groups, k).value
                         else next[k])
  {
    PageReplyOutcome(s, j, reply, now);
    hide PageReply;
    assert KnowsNext(s.groups[k], next[k]);
    if reply.Page? && reply.groups != [] {
      assert reply.groups[..|reply.groups| - 1] == [];
    }
  }

  lemma AnswerKnowsNext(s: Session, id: nat, reply: Reply, now: nat, next: seq<Option<nat>>)
    requires Inv(s) && Allowed(s, Answer(id, reply, now)) && |next| == 4 && AllKnowNext(s, next)
    ensures AllKnowNext(ApplyReply(s, id, reply, now), NextStarts(s, Answer(id, reply, now), next))
  {
    var s' := ApplyReply(s, id, reply, now);
    var next' := NextStarts(s, Answer(id, reply, now), next);
    AnswerKeepsGeneration(s, id, reply, now);
    hide CombinedReply, PageReply, Inv, Allowed;
    if Takes(s, id) {
      forall k | 0 <= k < 4 ensures KnowsNext(s'.groups[k], next'[k]) {
        if s.pending == Some(id) {
          CombinedKnowsNext(s, reply, now, next, k);
        } else {
          var j := AnsweredPage(s, id, reply, now);
          PageKnowsNext(s, id, j, reply, now, next, k);
        }
      }
    } else {
      OtherRepliesChangeNothing(s, id, reply, now);
    }
  }

  /** A reply that is taken and is not the combined one answers the page request of its own kind. */
  lemma AnsweredPage(s: Session, id: nat, reply: Reply, now: nat) returns (k: nat)
    requires Inv(s) && Allowed(s, Answer(id, reply, now)) && Takes(s, id) && s.pending != Some(id)
    ensures k < 4 && AnswersPage(s, id, k) && KindByte(id) == k && PageOnly(reply, k)
    ensures ApplyReply(s, id, reply, now) == PageReply(s, k, reply, now)
  {
    PageIdsArePacked(s);
    k :| AnswersPage(s, id, k);
    PackRoundTrip(s.generation, k);
  }

  lemma AnswerKeepsGeneration(s: Session, id: nat, reply: Reply, now: nat)
    requires Inv(s)
    ensures ApplyReply(s, id, reply, now).generation == s.generation
  {
    hide ApplyPage;
  }

  lemma StepKnowsNext(s: Session, op: Op, next: seq<Option<nat>>)
    requires Inv(s) && Allowed(s, op) && |next| == 4 && AllKnowNext(s, next)
    ensures AllKnowNext(Step(s, op), NextStarts(s, op, next))
  {
    match op {
      case Answer(id, reply, now) => AnswerKnowsNext(s, id, reply, now, next);
      case EditQuery(raw, now) =>
        assert forall k :: 0 <= k < 4 ==> KnowsNext(s.groups[k], next[k]);
      case Connection(offline) =>
        forall k | 0 <= k < 4 ensures KnowsNext(SetOffline(s, offline).groups[k], next[k]) {
          assert KnowsNext(s.groups[k], next[k]) && PageOk(s, k);
        }
      case TickAt(now) =>
        assert forall k :: 0 <= k < 4 ==> KnowsNext(s.groups[k], next[k]);
      case More(kind) =>
        assert forall k :: 0 <= k < 4 ==> KnowsNext(s.groups[k], next[k]);
    }
  }

  /** A run, with where the next pages start before and after it. */
  ghost predicate PageRun(s: Session, next: seq<Option<nat>>, ops: seq<Op>, s': Session, next': seq<Option<nat>>)
    : (ok: bool)
    requires Shaped(s) && |next| == 4
    ensures ok ==> Shaped(s') && |next'| == 4
    decreases |ops|
  {
    if ops == [] then s' == s && next' == next
    else Allowed(s, ops[0]) && PageRun(Step(s, ops[0]), NextStarts(s, ops[0], next), ops[1..], s', next')
  }

  lemma {:induction false} RunKnowsNext(s: Session, next: seq<Option<nat>>, ops: seq<Op>, s': Session,
                                        next': seq<Option<nat>>)
    requires Inv(s) && |next| == 4 && AllKnowNext(s, next) && PageRun(s, next, ops, s', next')
    ensures Inv(s') && AllKnowNext(s', next')
    decreases |ops|
  {
    hide Inv, Step, Allowed, NextStarts, AllKnowNext;
    if ops != [] {
      StepKeepsInv(s, ops[0]);
      StepKnowsNext(s, ops[0], next);
      RunKnowsNext(Step(s, ops[0]), NextStarts(s, ops[0], next), ops[1..], s', next');
    }
  }

  /** A request for everything: all four kinds, from the first hit on. */
  predicate AsksForAll(c: Command) { c.kinds == [Track, Album, Artist, Playlist] && c.offset == 0 && c.limit == 20 }

  /** A request for the next page of one kind. */
  predicate AsksForNext(c: Command, kind: SearchKind, next: seq<Option<nat>>)
    requires |next| == 4
  {
    c.kinds == [kind] && next[IndexOf(kind)] == Some(c.offset) && c.limit == 20
  }

  /**
   * In every run: a request is either for all four kinds from the start, or for the page that follows the last one
   * answered in this generation, whether "Show more" or a retry sends it; "Show more" asks for its own kind.
   */
  lemma RequestsAskForTheNextPage(ops: seq<Op>, s: Session, next: seq<Option<nat>>, op: Op, i: nat)
    requires PageRun(NewSession(), Four(None), ops, s, next) && i < |Issued(s, op)|
    ensures var c := Issued(s, op)[i];
            && (op.TickAt? ==> AsksForAll(c) || exists kind :: AsksForNext(c, kind, next))
            && (op.More? ==> AsksForNext(c, op.kind, next) && |Issued(s, op)| == 1)
            && (op.TickAt? || op.More?)
  {
    NewSessionInv();
    RunKnowsNext(NewSession(), Four(None), ops, s, next);
    match op {
      case TickAt(now) =>
        if !s.offline && s.deadline.None? {
          RetryAsks(s, now, next, i);
        }
      case More(kind) => assert KnowsNext(s.groups[IndexOf(kind)], next[IndexOf(kind)]);
      case _ =>
    }
  }

  lemma RetryAsks(s: Session, now: nat, next: seq<Option<nat>>, i: nat)
    requires Inv(s) && |next| == 4 && AllKnowNext(s, next) && i < |DueRetries(s, now).1|
    ensures var c := DueRetries(s, now).1[i]; AsksForAll(c) || exists kind :: AsksForNext(c, kind, next)
  {
    var c := DueRetries(s, now).1[i];
    if !(CombinedDue(s, now) && i == 0) {
      assert c in DuePages(s, now, 4);
      InDuePages(s, now, 4, c);
      var k :| 0 <= k < 4 && PageDue(s, k, now) && c == PageRequest(s, k, s.groups[k].resume.value);
      assert PageOk(s, k) && KnowsNext(s.groups[k], next[k]);
      assert AsksForNext(c, GROUP_ORDER[k], next) by {
        assert IndexOf(GROUP_ORDER[k]) == k;
      }
    }
  }

  // ------------------------------------------------------------ the answers

  /** The retry for a request that was rate-limited, the one before it being `previous`. */
  predicate RetriesAfter(retry: Option<Retry>, previous: Option<Retry>, retryAfterMs: Option<nat>, now: nat) {
    var attempt := if previous.None? then 0 else Min(previous.value.attempt + 1, 255);
    && retry.Some? && !retry.value.issued && retry.value.attempt == attempt
    && retry.value.due == now + BackoffDelay(attempt, retryAfterMs)
  }

  /** What a page answer makes of its group, and that it touches no other. */
  lemma PageAnswered(s: Session, id: nat, k: nat, reply: Reply, now: nat)
    requires Inv(s) && Allowed(s, Answer(id, reply, now)) && Takes(s, id) && AnswersPage(s, id, k)
    ensures var (s', rows) := (ApplyReply(s, id, reply, now), Rows(s.groups[k]));
            && Shaped(s') && s'.pageIds[k].None?
            && (forall j :: 0 <= j < 4 && j != k ==>
                  s'.groups[j] == s.groups[j] && s'.pageIds[j] == s.pageIds[j] && s'.pageRetries[j] == s.pageRetries[j])
            && (reply.Page? && reply.groups != [] ==>
                  s'.groups[k] == Loaded(rows + reply.groups[0].items, reply.groups[0].next, false)
                  && s'.pageRetries[k].None?)
            && (reply == Failed ==>
                  && s'.groups[k].Loaded? && s'.groups[k].items == rows && !s'.groups[k].loadingMore
                  && s'.groups[k].next.Some? && MoreToShow(s'.groups[k]) && s'.pageRetries[k].None?)
            && (reply.TooMany? ==>
                  && s'.groups[k].RateLimited? && s'.groups[k].stale == Some(rows) && s'.groups[k].resume.Some?
                  && RetriesAfter(s'.pageRetries[k], s.pageRetries[k], reply.retryAfterMs, now))
            && s'.pending == s.pending && s'.deadline == s.deadline && s'.query == s.query
  {
    PageIdsArePacked(s);
    PackRoundTrip(s.generation, k);
    PageReplyOutcome(s, k, reply, now);
    assert PageOk(s, k);
    hide PageReply;
  }

  /** The last page of kind `k` in an answer. */
  function LastPage(pages: seq<GroupPage>, k: nat): Option<GroupPage> {
    if pages == [] then None
    else if IndexOf(pages[|pages| - 1].kind) == k then Some(pages[|pages| - 1])
    else LastPage(pages[..|pages| - 1], k)
  }

  lemma {:induction false} LastPageCounts(groups: seq<GroupState>, pages: seq<GroupPage>, k: nat)
    requires |groups| == 4 && k < 4 && forall j :: 0 <= j < 4 ==> groups[j].Pending?
    ensures WithGroups(groups, pages)[k] ==
              match LastPage(pages, k)
              case None => Pending
              case Some(page) => if page.items == [] then Empty else Loaded(page.items, page.next, false)
  {
    if pages != [] {
      LastPageCounts(groups, pages[..|pages| - 1], k);
    }
  }

  lemma {:induction false} UnsupportedCounts(groups: seq<GroupState>, kinds: seq<SearchKind>, k: nat)
    requires |groups| == 4 && k < 4
    ensures WithUnsupported(groups, kinds)[k] == if GROUP_ORDER[k] in kinds then Unsupported else groups[k]
  {
    if kinds != [] {
      var n := |kinds| - 1;
      UnsupportedCounts(groups, kinds[..n], k);
      assert kinds == kinds[..n] + [kinds[n]];
    }
  }

  /**
   * What the combined answer makes of each group: its page's hits, or empty, or unsupported; all empty if it failed; all
   * waiting for one retry if it was rate-limited.
   */
  lemma CombinedAnswered(s: Session, id: nat, reply: Reply, now: nat, k: nat)
    requires Inv(s) && !s.offline && Generation(id) == s.generation && s.pending == Some(id) && k < 4
    ensures var (s', page) := (ApplyReply(s, id, reply, now), if reply.Page? then LastPage(reply.groups, k) else None);
            && Shaped(s') && s'.pending.None? && s'.deadline == s.deadline && s'.query == s.query
            && (reply.TooMany? ==>
                  && s'.groups[k] == RateLimited(None, None)
                  && RetriesAfter(s'.combinedRetry, s.combinedRetry, reply.retryAfterMs, now))
            && (!reply.TooMany? ==> s'.combinedRetry.None?)
            && (reply == Failed ==> s'.groups[k] == Empty)
            && (reply.Page? ==>
                  s'.groups[k] ==
                    if GROUP_ORDER[k] in reply.unsupported then Unsupported
                    else if page.None? || page.value.items == [] then Empty
                    else Loaded(page.value.items, page.value.next, false))
  {
    CombinedGroups(s);
    if reply.Page? {
      LastPageCounts(Reopened(s), reply.groups, k);
      UnsupportedCounts(WithGroups(Reopened(s), reply.groups), reply.unsupported, k);
    }
  }

  /** A search is under way exactly while its debounce runs or a group waits for the combined answer. */
  lemma InFlightIsTrue(ops: seq<Op>, s: Session)
    requires Run(NewSession(), ops, s)
    ensures Shaped(s)
    ensures InFlight(s) <==> s.deadline.Some? || exists k :: 0 <= k < 4 && s.groups[k] == Pending
  {
    NewSessionInv();
    RunKeepsInv(NewSession(), ops, s);
    assert s.pending.Some? && s.combinedRetry.None? ==> s.groups[0] == Pending;
    forall k | 0 <= k < 4 && s.groups[k] == Pending ensures s.pending.Some? && s.combinedRetry.None? {
      assert PageOk(s, k);
    }
  }

  /** White space, code point by code point. */
  lemma WhiteListed(c: char)
    ensures White(c) <==>
              c as int in {0x9, 0xA, 0xB, 0xC, 0xD, 0x20, 0x85, 0xA0, 0x1680, 0x2000, 0x2001, 0x2002, 0x2003, 0x2004,
                           0x2005, 0x2006, 0x2007, 0x2008, 0x2009, 0x200A, 0x2028, 0x2029, 0x202F, 0x205F, 0x3000}
  {}

  /** Trimming takes white space off both ends and nothing else. */
  lemma {:induction false} TrimmedEnds(s: string) returns (before: string, after: string)
    ensures s == before + Trim(s) + after
    ensures forall c :: c in before || c in after ==> White(c)
  {
    hide White;
    if s != [] && White(s[0]) {
      before, after := TrimmedEnds(s[1..]);
      before := [s[0]] + before;
    } else if s != [] && White(s[|s| - 1]) {
      before, after := TrimmedEnds(s[..|s| - 1]);
      after := after + [s[|s| - 1]];
    } else {
      before, after := [], [];
    }
  }

  // ----------------------------------------------------------- the debounce

  /** An edit to a new query sends nothing by itself; it waits 150 ms, and drops what was to be retried. */
  lemma EditedQueryWaits(s: Session, raw: string, now: nat)
    requires Inv(s)
    ensures var (s', q) := (SetQuery(s, raw, now), Trim(raw));
            && s'.rawQuery == raw && s'.query == q && Issued(s, EditQuery(raw, now)) == []
            && (q != "" && q != s.query ==>
                  && s'.deadline == Some(now + 150) && s'.generation == s.generation && s'.groups == s.groups
                  && !RetryScheduled(s') && s'.combinedRetry.None?)
            && (q != "" && q == s.query ==> s' == s.(rawQuery := raw))
            && (q == "" ==>
                  && s'.generation == s.generation + 1 && s'.deadline.None? && s'.pending.None?
                  && NoPages(s') && AllGroups(s', Idle) && !RetryScheduled(s'))
  {}

  /** While a debounce is armed a tick sends nothing before it is due; then one request for a new generation. */
  lemma DebounceFiresOnce(s: Session, now: nat, later: nat)
    requires Inv(s) && s.deadline.Some?
    ensures var (s', sent) := Tick(s, now);
            && (s.offline || now < s.deadline.value ==> s' == s && sent == [])
            && (!s.offline && now >= s.deadline.value ==>
                  && |sent| == 1 && AsksForAll(sent[0]) && sent[0].query == s.query
                  && sent[0].requestId == Pack(s.generation + 1, 0)
                  && s'.generation == s.generation + 1 && s'.deadline.None? && s'.query == s.query
                  && AllGroups(s', Pending) && NoPages(s') && s'.pending == Some(sent[0].requestId)
                  && Tick(s', later).1 == [])
  {
    if !s.offline && now >= s.deadline.value {
      NothingDue(Tick(s, now).0, later);
    }
  }

  lemma NothingDue(s: Session, now: nat)
    requires Shaped(s) && s.combinedRetry.None? && NoPages(s)
    ensures DueRetries(s, now).1 == []
  {
    NoPageDue(s, now);
  }

  lemma NoPageDue(s: Session, now: nat)
    requires Shaped(s) && forall k :: 0 <= k < 4 ==> !PageDue(s, k, now)
    ensures DuePages(s, now, 4) == []
  {
    var due := DuePages(s, now, 4);
    if due != [] {
      InDuePages(s, now, 4, due[0]);
      assert false;
    }
  }

  // ------------------------------------------------------------- the retries

  /** A page's retry goes out with the first online tick that finds it due, once, from where the page was to start. */
  lemma PageRetryIsSent(s: Session, k: nat, now: nat, later: nat)
    requires Inv(s) && k < 4 && s.pageRetries[k].Some? && !s.pageRetries[k].value.issued
    requires !s.offline && s.deadline.None?
    ensures PageOk(s, k) && s.groups[k].RateLimited? && s.groups[k].resume.Some?
    ensures var (s', sent) := Tick(s, now);
            var c := SearchCatalog(Pack(s.generation, k), s.query, [GROUP_ORDER[k]], s.groups[k].resume.value, 20);
            && Shaped(s')
            && (now >= s.pageRetries[k].value.due ==>
                  && c in sent && s'.pageIds[k] == Some(c.requestId) && s'.pageRetries[k].value.issued
                  && s'.groups == s.groups && c !in Tick(s', later).1)
            && (now < s.pageRetries[k].value.due ==> s'.pageRetries[k] == s.pageRetries[k] && c !in sent)
  {
    assert PageOk(s, k);
    var c := PageRequest(s, k, s.groups[k].resume.value);
    InDuePages(s, now, 4, c);
    assert PageDue(s, k, now) <==> now >= s.pageRetries[k].value.due;
    var s' := Tick(s, now).0;
    InDuePages(s', later, 4, c);
    assert s.combinedRetry.None?;
    if now < s.pageRetries[k].value.due {
      assert forall j :: 0 <= j < 4 && j != k ==> GROUP_ORDER[j] != GROUP_ORDER[k];
    }
  }

  /** The same for the combined request, which goes out as it did the first time. */
  lemma CombinedRetryIsSent(s: Session, now: nat, later: nat)
    requires Inv(s) && s.combinedRetry.Some? && !s.combinedRetry.value.issued && !s.offline && s.deadline.None?
    ensures var (s', sent) := Tick(s, now);
            && (now < s.combinedRetry.value.due ==> sent == [] && s'.pending.None?)
            && (now >= s.combinedRetry.value.due ==>
                  && |sent| == 1 && AsksForAll(sent[0]) && sent[0].query == s.query
                  && s'.pending == Some(sent[0].requestId) && s'.generation == s.generation
                  && Tick(s', later).1 == [])
  {
    NoPageDue(s, now);
    NoPageDue(Tick(s, now).0, later);
  }

  // ---------------------------------------------------------------- offline

  /**
   * Offline nothing goes out by the clock. A page that was to be retried is as loaded as before, so that it can be asked
   * for again; a combined request that was to be retried is dropped, and runs anew when its time has come and the
   * connection is back.
   */
  lemma OfflineThenBack(s: Session, k: nat, now: nat, later: nat)
    requires Inv(s) && k < 4
    ensures var off := SetOffline(s, true);
            && Shaped(off) && off.offline && Tick(off, now) == (off, []) && !RetryScheduled(off)
            && off.query == s.query && off.generation == s.generation
            && (s.pageRetries[k].Some? ==>
                  && s.groups[k].RateLimited? && off.groups[k] == Loaded(Rows(s.groups[k]), s.groups[k].resume, false)
                  && MoreToShow(off.groups[k]) && off.pageIds[k].None?)
            && (s.pageRetries[k].None? && s.combinedRetry.None? ==>
                  off.groups[k] == s.groups[k] && off.pageIds[k] == s.pageIds[k])
            && (s.combinedRetry.None? ==> off.deadline == s.deadline && off.pending == s.pending)
            && (s.combinedRetry.Some? ==>
                  && AllGroups(off, Idle) && off.pending.None? && off.deadline == Some(s.combinedRetry.value.due)
                  && var sent := Tick(SetOffline(off, false), later).1;
                     if later < s.combinedRetry.value.due then sent == []
                     else |sent| == 1 && AsksForAll(sent[0]) && sent[0].query == s.query)
            && SetOffline(off, false) == off.(offline := false)
  {
    assert PageOk(s, k);
    var off := SetOffline(s, true);
    if s.pageRetries[k].Some? {
      assert RetryScheduled(s);
    }
  }
}

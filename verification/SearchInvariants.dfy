/** What every run of a search session keeps. */
module SearchInvariants {
  import opened Prelude
  import opened RequestIds
  import opened SearchModel

  // ------------------------------------------------------------------ runs

  datatype Op =
    | EditQuery(raw: string, now: nat)
    | Connection(offline: bool)
    | TickAt(now: nat)
    | More(kind: SearchKind)
    | Answer(id: nat, reply: Reply, now: nat)

  function Step(s: Session, op: Op): (s': Session)
    requires Shaped(s)
    ensures Shaped(s')
  {
    match op
    case EditQuery(raw, now) => SetQuery(s, raw, now)
    case Connection(offline) => SetOffline(s, offline)
    case TickAt(now) => Tick(s, now).0
    case More(kind) => ShowMore(s, kind).0
    case Answer(id, reply, now) => ApplyReply(s, id, reply, now)
  }

  /** The requests an operation sends. */
  function Issued(s: Session, op: Op): seq<Command>
    requires Shaped(s)
  {
    match op
    case TickAt(now) => Tick(s, now).1
    case More(kind) => var c := ShowMore(s, kind).1; if c.Some? then [c.value] else []
    case _ => []
  }

  /** The answer to a page request carries at most that one group, and calls nothing unsupported. */
  predicate PageOnly(reply: Reply, k: nat) {
    reply.Page? ==>
      reply.unsupported == [] && |reply.groups| <= 1 && (reply.groups != [] ==> IndexOf(reply.groups[0].kind) == k)
  }

  /** The id answers the outstanding page request of kind `k`. */
  predicate AnswersPage(s: Session, id: nat, k: nat)
    requires Shaped(s)
  {
    k < 4 && s.pageIds[k] == Some(id)
  }

  ghost predicate Allowed(s: Session, op: Op)
    requires Shaped(s)
  {
    op.Answer? ==> forall k: nat :: AnswersPage(s, op.id, k) ==> PageOnly(op.reply, k)
  }

  // ------------------------------------------------------------ invariants

  /** Nothing is outstanding or scheduled for any single page. */
  ghost predicate NoPages(s: Session)
    requires Shaped(s)
  {
    forall k :: 0 <= k < 4 ==> s.pageIds[k].None? && s.pageRetries[k].None?
  }

  ghost predicate AllGroups(s: Session, g: GroupState)
    requires Shaped(s)
  {
    forall k :: 0 <= k < 4 ==> s.groups[k] == g
  }

  /** The combined request and its retry, and what they say about the groups. */
  ghost predicate CombinedOk(s: Session)
    requires Shaped(s)
  {
    && (s.pending.Some? ==> s.pending.value == Pack(s.generation, 0))
    && (s.pending.Some? || s.combinedRetry.Some? ==> NoPages(s))
    && (s.combinedRetry.Some? ==>
          AllGroups(s, RateLimited(None, None)) && (s.combinedRetry.value.issued <==> s.pending.Some?))
    && (s.pending.Some? && s.combinedRetry.None? ==> AllGroups(s, Pending))
    && (s.query == "" ==> s.deadline.None? && s.pending.None? && s.combinedRetry.None? && NoPages(s) && AllGroups(s, Idle))
  }

  /** One group with its page request and its retry. */
  ghost predicate PageOk(s: Session, k: nat)
    requires Shaped(s) && k < 4
  {
    var (g, id, retry) := (s.groups[k], s.pageIds[k], s.pageRetries[k]);
    && (id.Some? ==> id.value == Pack(s.generation, k))
    && (retry.Some? ==> g.RateLimited? && g.stale.Some? && g.resume.Some? && (retry.value.issued <==> id.Some?))
    && (retry.None? && id.Some? ==> g.Loaded? && g.loadingMore && g.next.Some?)
    && (g.Pending? ==> s.pending.Some? && s.combinedRetry.None?)
    && (g.RateLimited? ==> (g.stale.Some? <==> g.resume.Some?))
    && (g.RateLimited? && s.deadline.None? ==> s.combinedRetry.Some? || retry.Some?)
    && (g.Loaded? && g.loadingMore ==> g.next.Some?)
  }

  ghost predicate Inv(s: Session): (ok: bool)
    ensures ok ==> Shaped(s)
  {
    Shaped(s) && CombinedOk(s) && forall k :: 0 <= k < 4 ==> PageOk(s, k)
  }

  lemma NewSessionInv()
    ensures Inv(NewSession())
  {}

  lemma CancelKeepsInv(s: Session, query: string, raw: string, deadline: nat)
    requires Inv(s) && query != ""
    ensures Inv(CancelRetries(s.(rawQuery := raw, query := query)).(deadline := Some(deadline)))
  {
    var s' := CancelRetries(s.(rawQuery := raw, query := query)).(deadline := Some(deadline));
    forall k | 0 <= k < 4 ensures PageOk(s', k) {
      assert PageOk(s, k);
    }
    assert forall k :: 0 <= k < 4 ==> PageOk(s, k);
  }

  lemma SetQueryKeepsInv(s: Session, raw: string, now: nat)
    requires Inv(s)
    ensures Inv(SetQuery(s, raw, now))
  {
    var trimmed := Trim(raw);
    if trimmed != "" && trimmed != s.query {
      CancelKeepsInv(s, trimmed, raw, now + SEARCH_DEBOUNCE);
    } else if trimmed != "" {
      var s' := SetQuery(s, raw, now);
      assert forall k :: 0 <= k < 4 ==> PageOk(s, k) && PageOk(s', k);
    }
  }

  lemma SetOfflineKeepsInv(s: Session, offline: bool)
    requires Inv(s)
    ensures Inv(SetOffline(s, offline))
  {
    var s' := SetOffline(s, offline);
    assert forall k :: 0 <= k < 4 ==> PageOk(s, k);
    forall k | 0 <= k < 4 ensures PageOk(s', k) {
      assert PageOk(s, k);
    }
  }

  lemma DueRetriesKeepsInv(s: Session, now: nat)
    requires Inv(s)
    ensures Inv(DueRetries(s, now).0)
  {
    var s' := DueRetries(s, now).0;
    assert forall k :: 0 <= k < 4 ==> PageOk(s, k);
    forall k | 0 <= k < 4 ensures PageOk(s', k) {
      assert PageOk(s, k);
    }
  }

  lemma TickKeepsInv(s: Session, now: nat)
    requires Inv(s)
    ensures Inv(Tick(s, now).0)
  {
    DueRetriesKeepsInv(s, now);
  }

  lemma ShowMoreKeepsInv(s: Session, kind: SearchKind)
    requires Inv(s)
    ensures Inv(ShowMore(s, kind).0)
  {
    var s' := ShowMore(s, kind).0;
    var i := IndexOf(kind);
    assert PageOk(s, i);
    forall k | 0 <= k < 4 ensures PageOk(s', k) {
      assert PageOk(s, k);
    }
  }

  // --------------------------------------------------------------- replies

  /** The groups a combined reply can leave. */
  predicate Settled(g: GroupState) { g.Empty? || g.Unsupported? || (g.Loaded? && !g.loadingMore) }

  lemma {:induction false} PagesSettle(groups: seq<GroupState>, pages: seq<GroupPage>)
    requires |groups| == 4 && forall k :: 0 <= k < 4 ==> groups[k].Pending?
    ensures forall k :: 0 <= k < 4 ==> var g := WithGroups(groups, pages)[k]; g.Pending? || Settled(g)
  {
    if pages != [] {
      PagesSettle(groups, pages[..|pages| - 1]);
    }
  }

  lemma {:induction false} UnsupportedSettle(groups: seq<GroupState>, kinds: seq<SearchKind>)
    requires |groups| == 4 && forall k :: 0 <= k < 4 ==> groups[k].Pending? || Settled(groups[k])
    ensures forall k :: 0 <= k < 4 ==> var g := WithUnsupported(groups, kinds)[k]; g.Pending? || Settled(g)
  {
    if kinds != [] {
      UnsupportedSettle(groups, kinds[..|kinds| - 1]);
    }
  }

  lemma CombinedGroups(s: Session)
    requires Inv(s) && s.pending.Some?
    ensures forall k :: 0 <= k < 4 ==> Reopened(s)[k] == Pending
  {}

  lemma CombinedReplySettles(s: Session, reply: Reply, now: nat)
    requires Inv(s) && s.pending.Some?
    ensures var s' := CombinedReply(s, reply, now);
            if reply.TooMany? then AllGroups(s', RateLimited(None, None))
            else forall k :: 0 <= k < 4 ==> Settled(s'.groups[k])
  {
    CombinedGroups(s);
    if reply.Page? {
      PagesSettle(Reopened(s), reply.groups);
      UnsupportedSettle(WithGroups(Reopened(s), reply.groups), reply.unsupported);
    }
  }

  lemma CombinedReplyKeepsInv(s: Session, reply: Reply, now: nat)
    requires Inv(s) && s.pending.Some?
    ensures Inv(CombinedReply(s, reply, now))
  {
    var s' := CombinedReply(s, reply, now);
    CombinedReplySettles(s, reply, now);
    hide Reopened, ApplyPage;
    forall k | 0 <= k < 4 ensures PageOk(s', k) {
      assert PageOk(s, k);
    }
  }

  /** A page reply that carries at most the one group touches only that group. */
  lemma OnePage(groups: seq<GroupState>, reply: Reply, k: nat)
    requires |groups| == 4 && k < 4 && reply.Page? && PageOnly(reply, k)
    ensures ApplyPage(groups, reply) ==
              if reply.groups == [] then groups else groups[k := ApplyGroupPage(groups[k], reply.groups[0])]
  {
    assert WithGroups(groups, []) == groups;
    if reply.groups != [] {
      assert reply.groups[..|reply.groups| - 1] == [];
    }
  }

  /** What a page reply leaves of its own group. */
  function AfterPage(g: GroupState, reply: Reply): GroupState
    requires g.Loaded?
  {
    match reply
    case Page(groups, _) => if groups == [] then g else ApplyGroupPage(g, groups[0])
    case TooMany(_) => RateLimited(Some(g.items), g.next)
    case Failed => g.(loadingMore := false)
  }

  lemma PageReplyOutcome(s: Session, k: nat, reply: Reply, now: nat)
    requires Inv(s) && k < 4 && s.pageIds[k].Some? && PageOnly(reply, k)
    ensures var g := Resumed(s.groups[k], s.pageRetries[k]);
            && g.Loaded? && g.loadingMore && g.next.Some? && g.items == Rows(s.groups[k])
            && var s' := PageReply(s, k, reply, now);
               && s'.groups == s.groups[k := AfterPage(g, reply)]
               && s'.pageIds == s.pageIds[k := None]
               && s'.pageRetries == s.pageRetries[k :=
                    if reply.TooMany? then Some(NextRetry(s.pageRetries[k], reply.retryAfterMs, now)) else None]
               && s' == s.(groups := s'.groups, pageIds := s'.pageIds, pageRetries := s'.pageRetries)
  {
    assert PageOk(s, k);
    if reply.Page? {
      OnePage(s.groups[k := Resumed(s.groups[k], s.pageRetries[k])], reply, k);
    }
  }

  lemma PageReplyKeepsInv(s: Session, k: nat, reply: Reply, now: nat)
    requires Inv(s) && k < 4 && s.pageIds[k].Some? && PageOnly(reply, k)
    ensures Inv(PageReply(s, k, reply, now))
  {
    PageReplyOutcome(s, k, reply, now);
    hide PageReply;
    var s' := PageReply(s, k, reply, now);
    forall j | 0 <= j < 4 ensures PageOk(s', j) {
      assert PageOk(s, j);
    }
  }

  lemma ApplyReplyKeepsInv(s: Session, id: nat, reply: Reply, now: nat)
    requires Inv(s) && Allowed(s, Answer(id, reply, now))
    ensures Inv(ApplyReply(s, id, reply, now))
  {
    hide Inv, CombinedReply, PageReply;
    if s.offline || Generation(id) != s.generation {
    } else if s.pending == Some(id) {
      CombinedReplyKeepsInv(s, reply, now);
    } else if KindByte(id) < 4 && s.pageIds[KindByte(id)] == Some(id) {
      assert AnswersPage(s, id, KindByte(id));
      PageReplyKeepsInv(s, KindByte(id), reply, now);
    }
  }

  lemma StepKeepsInv(s: Session, op: Op)
    requires Inv(s) && Allowed(s, op)
    ensures Inv(Step(s, op))
  {
    hide Inv, Allowed, SetQuery, SetOffline, Tick, ShowMore, ApplyReply;
    match op {
      case EditQuery(raw, now) => SetQueryKeepsInv(s, raw, now);
      case Connection(offline) => SetOfflineKeepsInv(s, offline);
      case TickAt(now) => TickKeepsInv(s, now);
      case More(kind) => ShowMoreKeepsInv(s, kind);
      case Answer(id, reply, now) => ApplyReplyKeepsInv(s, id, reply, now);
    }
  }
}

/** The search session as a value: one function per operation. */
module SearchModel {
  import opened Prelude
  import opened RequestIds
  import opened Backoff

  const SEARCH_DEBOUNCE := 150
  const SEARCH_PAGE := 20

  /** A search hit; its metadata plays no part here. */
  type Hit = nat

  datatype GroupState =
    | Idle
    | Pending
    | Loaded(items: seq<Hit>, next: Option<nat>, loadingMore: bool)
    | Empty
    | Unsupported
    | RateLimited(stale: Option<seq<Hit>>, resume: Option<nat>)

  datatype Retry = Retry(due: nat, attempt: nat, issued: bool)

  datatype GroupPage = GroupPage(kind: SearchKind, items: seq<Hit>, next: Option<nat>)

  datatype Reply =
    | Page(groups: seq<GroupPage>, unsupported: seq<SearchKind>)
    | TooMany(retryAfterMs: Option<nat>)
    | Failed

  datatype Command = SearchCatalog(requestId: nat, query: string, kinds: seq<SearchKind>, offset: nat, limit: nat)

  datatype Session = Session(
    rawQuery: string,
    query: string,
    deadline: Option<nat>,
    generation: nat,
    groups: seq<GroupState>,
    offline: bool,
    pending: Option<nat>,
    pageIds: seq<Option<nat>>,
    combinedRetry: Option<Retry>,
    pageRetries: seq<Option<Retry>>)

  predicate Shaped(s: Session) { |s.groups| == 4 && |s.pageIds| == 4 && |s.pageRetries| == 4 }

  function Four<T>(x: T): (r: seq<T>)
    ensures |r| == 4 && forall k :: 0 <= k < 4 ==> r[k] == x
  {
    [x, x, x, x]
  }

  function NewSession(): Session {
    Session("", "", None, 0, Four(Idle), false, None, Four(None), None, Four(None))
  }

  function Rows(g: GroupState): seq<Hit> {
    if g.Loaded? then g.items else if g.RateLimited? && g.stale.Some? then g.stale.value else []
  }

  // ------------------------------------------------------------- accessors

  predicate RetryScheduled(s: Session) {
    s.combinedRetry.Some? || exists k :: 0 <= k < |s.pageRetries| && s.pageRetries[k].Some?
  }

  predicate Refreshing(s: Session) { exists k :: 0 <= k < |s.groups| && s.groups[k].RateLimited? }

  predicate InFlight(s: Session) { s.deadline.Some? || (s.pending.Some? && s.combinedRetry.None?) }

  // ------------------------------------------------------------- the query

  /** Unicode white space. */
  predicate White(c: char) {
    var u := c as int;
    || 9 <= u <= 13 || u == 0x20 || u == 0x85 || u == 0xA0 || u == 0x1680 || 0x2000 <= u <= 0x200A
    || u == 0x2028 || u == 0x2029 || u == 0x202F || u == 0x205F || u == 0x3000
  }

  function Trim(s: string): (r: string)
    ensures r != "" ==> !White(r[0]) && !White(r[|r| - 1])
    ensures s == "" || White(s[0]) || White(s[|s| - 1]) || r == s
  {
    if s != [] && White(s[0]) then Trim(s[1..])
    else if s != [] && White(s[|s| - 1]) then Trim(s[..|s| - 1])
    else s
  }

  /** Drop every retry, and the outstanding request of every retry that was issued. */
  function CancelRetries(s: Session): Session
    requires Shaped(s)
  {
    s.(pending := if s.combinedRetry.Some? && s.combinedRetry.value.issued then None else s.pending,
       pageIds := seq(4, k requires 0 <= k < 4 =>
         if s.pageRetries[k].Some? && s.pageRetries[k].value.issued then None else s.pageIds[k]),
       combinedRetry := None,
       pageRetries := Four(None))
  }

  function ResetToIdle(s: Session): Session {
    s.(combinedRetry := None, pageRetries := Four(None), generation := s.generation + 1, deadline := None,
       pending := None, pageIds := Four(None), groups := Four(Idle))
  }

  function SetQuery(s: Session, raw: string, now: nat): Session
    requires Shaped(s)
  {
    var trimmed := Trim(raw);
    if trimmed == "" then ResetToIdle(s.(rawQuery := raw, query := trimmed))
    else if trimmed == s.query then s.(rawQuery := raw)
    else CancelRetries(s.(rawQuery := raw, query := trimmed)).(deadline := Some(now + SEARCH_DEBOUNCE))
  }

  // --------------------------------------------------------------- offline

  function Mapped(groups: seq<GroupState>, f: GroupState -> GroupState): (r: seq<GroupState>)
    ensures |r| == |groups| && forall k :: 0 <= k < |groups| ==> r[k] == f(groups[k])
  {
    seq(|groups|, k requires 0 <= k < |groups| => f(groups[k]))
  }

  predicate Placeholder(g: GroupState) { g.RateLimited? && g.stale.None? }

  function DropPlaceholder(g: GroupState): GroupState { if Placeholder(g) then Idle else g }

  function BackToLoaded(g: GroupState): GroupState {
    if g.RateLimited? && g.stale.Some? then Loaded(g.stale.value, g.resume, false) else Idle
  }

  function DropCombinedRetry(s: Session): Session {
    if s.combinedRetry.None? then s
    else s.(groups := Mapped(s.groups, DropPlaceholder), pending := None, deadline := Some(s.combinedRetry.value.due))
  }

  function DropPageRetries(s: Session): Session
    requires Shaped(s)
  {
    s.(groups := seq(4, k requires 0 <= k < 4 =>
         if s.pageRetries[k].Some? then BackToLoaded(s.groups[k]) else s.groups[k]),
       pageIds := seq(4, k requires 0 <= k < 4 => if s.pageRetries[k].Some? then None else s.pageIds[k]),
       combinedRetry := None,
       pageRetries := Four(None))
  }

  function SetOffline(s: Session, offline: bool): Session
    requires Shaped(s)
  {
    if !offline || !RetryScheduled(s) then s.(offline := offline)
    else DropPageRetries(DropCombinedRetry(s.(offline := offline)))
  }

  // -------------------------------------------------------------- requests

  function CombinedRequest(s: Session): Command {
    SearchCatalog(Pack(s.generation, 0), s.query, GROUP_ORDER, 0, SEARCH_PAGE)
  }

  function PageRequest(s: Session, k: nat, offset: nat): Command
    requires k < 4
  {
    SearchCatalog(Pack(s.generation, k), s.query, [GROUP_ORDER[k]], offset, SEARCH_PAGE)
  }

  predicate CombinedDue(s: Session, now: nat) {
    s.combinedRetry.Some? && !s.combinedRetry.value.issued && now >= s.combinedRetry.value.due
  }

  predicate PageDue(s: Session, k: nat, now: nat)
    requires Shaped(s) && k < 4
  {
    && s.pageRetries[k].Some? && !s.pageRetries[k].value.issued && now >= s.pageRetries[k].value.due
    && s.groups[k].RateLimited? && s.groups[k].resume.Some?
  }

  /** The pages of the first `n` kinds whose retry is due. */
  function DuePages(s: Session, now: nat, n: nat): seq<Command>
    requires Shaped(s) && n <= 4
  {
    if n == 0 then []
    else if PageDue(s, n - 1, now) then DuePages(s, now, n - 1) + [PageRequest(s, n - 1, s.groups[n - 1].resume.value)]
    else DuePages(s, now, n - 1)
  }

  function IssueCombined(s: Session, now: nat): Session {
    if CombinedDue(s, now) then
      s.(combinedRetry := Some(s.combinedRetry.value.(issued := true)), pending := Some(Pack(s.generation, 0)))
    else s
  }

  function IssuePages(s: Session, now: nat, n: nat): Session
    requires Shaped(s) && n <= 4
  {
    s.(pageRetries := seq(4, k requires 0 <= k < 4 =>
         if k < n && PageDue(s, k, now) then Some(s.pageRetries[k].value.(issued := true)) else s.pageRetries[k]),
       pageIds := seq(4, k requires 0 <= k < 4 =>
         if k < n && PageDue(s, k, now) then Some(Pack(s.generation, k)) else s.pageIds[k]))
  }

  function DueRetries(s: Session, now: nat): (Session, seq<Command>)
    requires Shaped(s)
  {
    (IssuePages(IssueCombined(s, now), now, 4),
     (if CombinedDue(s, now) then [CombinedRequest(s)] else []) + DuePages(s, now, 4))
  }

  /** The debounce fires: a new generation with one request for all four groups. */
  function Fire(s: Session): Session {
    var s' := s.(deadline := None, generation := s.generation + 1, groups := Four(Pending), pageIds := Four(None),
                 combinedRetry := None, pageRetries := Four(None));
    s'.(pending := Some(Pack(s'.generation, 0)))
  }

  function Tick(s: Session, now: nat): (Session, seq<Command>)
    requires Shaped(s)
  {
    if s.offline then (s, [])
    else if s.deadline.None? then DueRetries(s, now)
    else if now < s.deadline.value then (s, [])
    else if s.query == "" then (s.(deadline := None), [])
    else (Fire(s), [CombinedRequest(Fire(s))])
  }

  predicate MoreToShow(g: GroupState) { g.Loaded? && g.next.Some? && !g.loadingMore }

  function ShowMore(s: Session, kind: SearchKind): (Session, Option<Command>)
    requires Shaped(s)
  {
    var k := IndexOf(kind);
    var g := s.groups[k];
    if !MoreToShow(g) then (s, None)
    else
      (s.(groups := s.groups[k := g.(loadingMore := true)], pageIds := s.pageIds[k := Some(Pack(s.generation, k))]),
       Some(PageRequest(s, k, g.next.value)))
  }

  // --------------------------------------------------------------- replies

  function ApplyGroupPage(g: GroupState, page: GroupPage): GroupState {
    if g.Loaded? && g.loadingMore then Loaded(g.items + page.items, page.next, false)
    else if page.items == [] then Empty
    else Loaded(page.items, page.next, false)
  }

  function WithGroups(groups: seq<GroupState>, pages: seq<GroupPage>): (r: seq<GroupState>)
    requires |groups| == 4
    ensures |r| == 4
  {
    if pages == [] then groups
    else
      var page := pages[|pages| - 1];
      var before := WithGroups(groups, pages[..|pages| - 1]);
      before[IndexOf(page.kind) := ApplyGroupPage(before[IndexOf(page.kind)], page)]
  }

  function WithUnsupported(groups: seq<GroupState>, kinds: seq<SearchKind>): (r: seq<GroupState>)
    requires |groups| == 4
    ensures |r| == 4
  {
    if kinds == [] then groups
    else WithUnsupported(groups, kinds[..|kinds| - 1])[IndexOf(kinds[|kinds| - 1]) := Unsupported]
  }

  function ApplyPage(groups: seq<GroupState>, page: Reply): (r: seq<GroupState>)
    requires |groups| == 4 && page.Page?
    ensures |r| == 4
  {
    WithUnsupported(WithGroups(groups, page.groups), page.unsupported)
  }

  function Reopen(g: GroupState): GroupState { if Placeholder(g) then Pending else g }

  function Settle(g: GroupState): GroupState { if g.Pending? then Empty else g }

  function Limit(g: GroupState): GroupState { if g.Pending? then RateLimited(None, None) else g }

  /** The attempt number saturates at 255. */
  function NextRetry(previous: Option<Retry>, retryAfterMs: Option<nat>, now: nat): Retry {
    var attempt := if previous.Some? then Min(previous.value.attempt + 1, 255) else 0;
    Retry(now + BackoffDelay(attempt, retryAfterMs), attempt, false)
  }

  function Reopened(s: Session): seq<GroupState> {
    if s.combinedRetry.Some? then Mapped(s.groups, Reopen) else s.groups
  }

  function CombinedReply(s: Session, reply: Reply, now: nat): Session
    requires Shaped(s)
  {
    var s' := s.(pending := None, combinedRetry := None);
    match reply
    case Page(_, _) => s'.(groups := Mapped(ApplyPage(Reopened(s), reply), Settle))
    case TooMany(retryAfterMs) =>
      s'.(groups := Mapped(Reopened(s), Limit), combinedRetry := Some(NextRetry(s.combinedRetry, retryAfterMs, now)))
    case Failed => s'.(groups := Mapped(Reopened(s), Settle))
  }

  /** The group as it was with its page outstanding, before a retry. */
  function Resumed(g: GroupState, retry: Option<Retry>): GroupState {
    if retry.Some? && g.RateLimited? && g.stale.Some? then Loaded(g.stale.value, g.resume, true) else g
  }

  function PageReply(s: Session, k: nat, reply: Reply, now: nat): Session
    requires Shaped(s) && k < 4
  {
    var g := Resumed(s.groups[k], s.pageRetries[k]);
    var s' := s.(pageIds := s.pageIds[k := None], pageRetries := s.pageRetries[k := None], groups := s.groups[k := g]);
    match reply
    case Page(_, _) => s'.(groups := ApplyPage(s'.groups, reply))
    case TooMany(retryAfterMs) =>
      if !g.Loaded? then s'
      else
        s'.(groups := s'.groups[k := RateLimited(Some(g.items), g.next)],
            pageRetries := s'.pageRetries[k := Some(NextRetry(s.pageRetries[k], retryAfterMs, now))])
    case Failed => if !g.Loaded? then s' else s'.(groups := s'.groups[k := g.(loadingMore := false)])
  }

  function ApplyReply(s: Session, id: nat, reply: Reply, now: nat): Session
    requires Shaped(s)
  {
    if s.offline || Generation(id) != s.generation then s
    else if s.pending == Some(id) then CombinedReply(s, reply, now)
    else if KindByte(id) < 4 && s.pageIds[KindByte(id)] == Some(id) then PageReply(s, KindByte(id), reply, now)
    else s
  }
}

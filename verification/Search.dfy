/** The search session object. */
module Search {
  import opened Prelude
  import opened RequestIds
  import opened Backoff
  import opened SearchModel

  /** The groups of `before`, the first `n` of them put through `f`. */
  ghost predicate MappedUpTo(before: seq<GroupState>, after: seq<GroupState>, f: GroupState -> GroupState, n: nat) {
    && |before| == |after| == 4 && n <= 4
    && (forall k :: 0 <= k < n ==> after[k] == f(before[k]))
    && forall k :: n <= k < 4 ==> after[k] == before[k]
  }

  lemma MappedAll(before: seq<GroupState>, after: seq<GroupState>, f: GroupState -> GroupState)
    requires MappedUpTo(before, after, f, 4)
    ensures after == Mapped(before, f)
  {}

  lemma NoPageIssued(s: Session, mid: Session, now: nat)
    requires Shaped(s) && mid == IssueCombined(s, now)
    ensures IssuePages(mid, now, 0) == mid && DuePages(mid, now, 0) == []
    ensures DuePages(mid, now, 4) == DuePages(s, now, 4)
  {
    assert IssuePages(mid, now, 0).pageRetries == mid.pageRetries && IssuePages(mid, now, 0).pageIds == mid.pageIds;
    DuePagesAgree(s, mid, now, 4);
  }

  /** Which pages are due depends on neither the combined retry nor the pending request. */
  lemma {:induction false} DuePagesAgree(s: Session, mid: Session, now: nat, n: nat)
    requires Shaped(s) && n <= 4 && mid == s.(combinedRetry := mid.combinedRetry, pending := mid.pending)
    ensures DuePages(mid, now, n) == DuePages(s, now, n)
  {
    if n > 0 {
      DuePagesAgree(s, mid, now, n - 1);
    }
  }

  lemma OneMoreIssued(s: Session, now: nat, k: nat)
    requires Shaped(s) && k < 4
    ensures var before := IssuePages(s, now, k);
            && Shaped(before) && before.groups == s.groups && before.query == s.query && before.generation == s.generation
            && (PageDue(before, k, now) <==> PageDue(s, k, now))
            && IssuePages(s, now, k + 1) ==
                 (if PageDue(s, k, now) then
                    before.(pageRetries := before.pageRetries[k := Some(before.pageRetries[k].value.(issued := true))],
                            pageIds := before.pageIds[k := Some(Pack(s.generation, k))])
                  else before)
            && DuePages(s, now, k + 1) ==
                 DuePages(s, now, k)
                 + (if PageDue(s, k, now) then [PageRequest(before, k, before.groups[k].resume.value)] else [])
  {
    var before, after := IssuePages(s, now, k), IssuePages(s, now, k + 1);
    assert after.pageIds == if PageDue(s, k, now) then before.pageIds[k := Some(Pack(s.generation, k))] else before.pageIds;
    assert after.pageRetries ==
      if PageDue(s, k, now) then before.pageRetries[k := Some(before.pageRetries[k].value.(issued := true))]
      else before.pageRetries;
  }

  class SearchSession {
    var rawQuery: string
    var query: string
    var debounceDeadline: Option<nat>
    var generation: nat
    var groups: seq<GroupState>
    var offline: bool
    var pendingRequestId: Option<nat>
    var showMoreRequestIds: seq<Option<nat>>
    var combinedRetry: Option<Retry>
    var showMoreRetries: seq<Option<Retry>>

    ghost function Value(): Session
      reads this
    {
      Session(rawQuery, query, debounceDeadline, generation, groups, offline, pendingRequestId, showMoreRequestIds,
              combinedRetry, showMoreRetries)
    }

    ghost predicate Valid()
      reads this
    {
      Shaped(Value())
    }

    constructor ()
      ensures Valid() && Value() == NewSession()
    {
      rawQuery, query, debounceDeadline, generation, offline := "", "", None, 0, false;
      groups := [Idle, Idle, Idle, Idle];
      pendingRequestId, combinedRetry := None, None;
      showMoreRequestIds, showMoreRetries := [None, None, None, None], [None, None, None, None];
    }

    method AnyRetryScheduled() returns (any: bool)
      requires Valid()
      ensures any == RetryScheduled(Value())
    {
      any := combinedRetry.Some?;
      for k := 0 to 4
        invariant any <==> combinedRetry.Some? || exists j :: 0 <= j < k && showMoreRetries[j].Some?
      {
        any := any || showMoreRetries[k].Some?;
      }
    }

    method AnyRefreshing() returns (any: bool)
      requires Valid()
      ensures any == Refreshing(Value())
    {
      any := false;
      for k := 0 to 4
        invariant any <==> exists j :: 0 <= j < k && groups[j].RateLimited?
      {
        any := any || groups[k].RateLimited?;
      }
    }

    method ClearRetries()
      modifies this`combinedRetry, this`showMoreRetries
      ensures combinedRetry.None? && showMoreRetries == Four(None)
    {
      combinedRetry := None;
      showMoreRetries := [None, None, None, None];
    }

    method CancelAllRetries()
      requires Valid()
      modifies this`pendingRequestId, this`showMoreRequestIds, this`combinedRetry, this`showMoreRetries
      ensures Valid() && Value() == CancelRetries(old(Value()))
    {
      if combinedRetry.Some? && combinedRetry.value.issued {
        pendingRequestId := None;
      }
      for k := 0 to 4
        invariant Valid() && combinedRetry == old(combinedRetry) && showMoreRetries == old(showMoreRetries)
        invariant pendingRequestId == CancelRetries(old(Value())).pending
        invariant forall j :: 0 <= j < 4 ==>
                    showMoreRequestIds[j] ==
                      if j < k && showMoreRetries[j].Some? && showMoreRetries[j].value.issued then None
                      else old(showMoreRequestIds)[j]
      {
        if showMoreRetries[k].Some? && showMoreRetries[k].value.issued {
          showMoreRequestIds := showMoreRequestIds[k := None];
        }
      }
      ClearRetries();
      assert showMoreRequestIds == CancelRetries(old(Value())).pageIds;
    }

    method GoIdle()
      modifies this
      ensures Valid() && Value() == ResetToIdle(old(Value()))
    {
      ClearRetries();
      generation := generation + 1;
      debounceDeadline := None;
      pendingRequestId := None;
      showMoreRequestIds := [None, None, None, None];
      groups := [Idle, Idle, Idle, Idle];
    }

    method EditQuery(raw: string, now: nat)
      requires Valid()
      modifies this
      ensures Valid() && Value() == SetQuery(old(Value()), raw, now)
    {
      rawQuery := raw;
      var trimmed := Trim(raw);
      if trimmed == "" {
        query := trimmed;
        GoIdle();
        return;
      }
      if trimmed == query {
        return;
      }
      query := trimmed;
      CancelAllRetries();
      debounceDeadline := Some(now + SEARCH_DEBOUNCE);
    }

    /** Put every group through `f`, one after the other. */
    method EachGroup(f: GroupState -> GroupState)
      requires Valid()
      modifies this`groups
      ensures Valid() && groups == Mapped(old(groups), f)
    {
      for k := 0 to 4
        invariant MappedUpTo(old(groups), groups, f, k)
      {
        groups := groups[k := f(groups[k])];
      }
      MappedAll(old(groups), groups, f);
    }

    method GiveUpPageRetries()
      requires Valid()
      modifies this`groups, this`showMoreRequestIds, this`combinedRetry, this`showMoreRetries
      ensures Valid() && Value() == DropPageRetries(old(Value()))
    {
      for k := 0 to 4
        invariant Valid() && showMoreRetries == old(showMoreRetries)
        invariant forall j :: 0 <= j < 4 ==>
                    && groups[j] == (if j < k && showMoreRetries[j].Some? then BackToLoaded(old(groups)[j])
                                     else old(groups)[j])
                    && showMoreRequestIds[j] == (if j < k && showMoreRetries[j].Some? then None
                                                 else old(showMoreRequestIds)[j])
      {
        if showMoreRetries[k].None? { continue; }
        showMoreRequestIds := showMoreRequestIds[k := None];
        var g := groups[k];
        groups := groups[k := Idle];
        if g.RateLimited? && g.stale.Some? {
          groups := groups[k := Loaded(g.stale.value, g.resume, false)];
        }
      }
      ClearRetries();
      assert groups == DropPageRetries(old(Value())).groups;
      assert showMoreRequestIds == DropPageRetries(old(Value())).pageIds;
    }

    method ReportOffline(now: bool)
      requires Valid()
      modifies this
      ensures Valid() && Value() == SetOffline(old(Value()), now)
    {
      offline := now;
      var retrying := AnyRetryScheduled();
      if !now || !retrying {
        return;
      }
      if combinedRetry.Some? {
        EachGroup(DropPlaceholder);
        pendingRequestId := None;
        debounceDeadline := Some(combinedRetry.value.due);
      }
      GiveUpPageRetries();
    }

    /** Re-issue the page retry of one kind, if it is due. */
    method IssuePage(k: nat, now: nat) returns (commands: seq<Command>)
      requires Valid() && k < 4
      modifies this`showMoreRetries, this`showMoreRequestIds
      ensures Valid()
      ensures var s := old(Value());
              if PageDue(s, k, now) then
                && Value() == s.(pageRetries := s.pageRetries[k := Some(s.pageRetries[k].value.(issued := true))],
                                 pageIds := s.pageIds[k := Some(Pack(s.generation, k))])
                && commands == [PageRequest(s, k, s.groups[k].resume.value)]
              else Value() == s && commands == []
    {
      if showMoreRetries[k].None? { return []; }
      var retry := showMoreRetries[k].value;
      if retry.issued || now < retry.due { return []; }
      if !groups[k].RateLimited? || groups[k].resume.None? { return []; }
      showMoreRetries := showMoreRetries[k := Some(retry.(issued := true))];
      var id := Pack(generation, k);
      showMoreRequestIds := showMoreRequestIds[k := Some(id)];
      return [SearchCatalog(id, query, [GROUP_ORDER[k]], groups[k].resume.value, SEARCH_PAGE)];
    }

    method IssueDueRetries(now: nat) returns (commands: seq<Command>)
      requires Valid()
      modifies this`combinedRetry, this`pendingRequestId, this`showMoreRetries, this`showMoreRequestIds
      ensures Valid() && (Value(), commands) == DueRetries(old(Value()), now)
    {
      commands := [];
      if combinedRetry.Some? && !combinedRetry.value.issued && now >= combinedRetry.value.due {
        combinedRetry := Some(combinedRetry.value.(issued := true));
        var id := Pack(generation, 0);
        pendingRequestId := Some(id);
        commands := [SearchCatalog(id, query, GROUP_ORDER, 0, SEARCH_PAGE)];
      }
      ghost var mid, first := Value(), commands;
      NoPageIssued(old(Value()), mid, now);
      for k := 0 to 4
        invariant Valid() && Value() == IssuePages(mid, now, k)
        invariant commands == first + DuePages(mid, now, k)
      {
        hide PageDue, IssuePages, DuePages;
        OneMoreIssued(mid, now, k);
        var more := IssuePage(k, now);
        commands := commands + more;
      }
    }

    method Advance(now: nat) returns (commands: seq<Command>)
      requires Valid()
      modifies this
      ensures Valid() && (Value(), commands) == Tick(old(Value()), now)
    {
      if offline {
        return [];
      }
      if debounceDeadline.None? {
        commands := IssueDueRetries(now);
        return;
      }
      if now < debounceDeadline.value {
        return [];
      }
      debounceDeadline := None;
      if query == "" {
        return [];
      }
      generation := generation + 1;
      groups := [Pending, Pending, Pending, Pending];
      showMoreRequestIds := [None, None, None, None];
      ClearRetries();
      var id := Pack(generation, 0);
      pendingRequestId := Some(id);
      return [SearchCatalog(id, query, GROUP_ORDER, 0, SEARCH_PAGE)];
    }

    method RequestMore(kind: SearchKind) returns (command: Option<Command>)
      requires Valid()
      modifies this`groups, this`showMoreRequestIds
      ensures Valid() && (Value(), command) == ShowMore(old(Value()), kind)
    {
      var k := IndexOf(kind);
      var g := groups[k];
      if !g.Loaded? || g.next.None? || g.loadingMore {
        return None;
      }
      groups := groups[k := g.(loadingMore := true)];
      var id := Pack(generation, k);
      showMoreRequestIds := showMoreRequestIds[k := Some(id)];
      return Some(SearchCatalog(id, query, [kind], g.next.value, SEARCH_PAGE));
    }

    method FoldGroup(page: GroupPage)
      requires Valid()
      modifies this`groups
      ensures Valid() && groups == old(groups)[IndexOf(page.kind) := ApplyGroupPage(old(groups)[IndexOf(page.kind)], page)]
    {
      var k := IndexOf(page.kind);
      var g := groups[k];
      if g.Loaded? && g.loadingMore {
        groups := groups[k := Loaded(g.items + page.items, page.next, false)];
        return;
      }
      groups := groups[k := if page.items == [] then Empty else Loaded(page.items, page.next, false)];
    }

    method FoldPage(reply: Reply)
      requires Valid() && reply.Page?
      modifies this`groups
      ensures Valid() && groups == ApplyPage(old(groups), reply)
    {
      for i := 0 to |reply.groups|
        invariant Valid() && groups == WithGroups(old(groups), reply.groups[..i])
      {
        assert reply.groups[..i + 1][..i] == reply.groups[..i];
        FoldGroup(reply.groups[i]);
      }
      assert reply.groups[..|reply.groups|] == reply.groups;
      ghost var folded := groups;
      for i := 0 to |reply.unsupported|
        invariant Valid() && groups == WithUnsupported(folded, reply.unsupported[..i])
      {
        assert reply.unsupported[..i + 1][..i] == reply.unsupported[..i];
        groups := groups[IndexOf(reply.unsupported[i]) := Unsupported];
      }
      assert reply.unsupported[..|reply.unsupported|] == reply.unsupported;
    }

    method TakeCombinedReply(reply: Reply, now: nat)
      requires Valid()
      modifies this`pendingRequestId, this`combinedRetry, this`groups
      ensures Valid() && Value() == CombinedReply(old(Value()), reply, now)
    {
      pendingRequestId := None;
      var previous := combinedRetry;
      combinedRetry := None;
      if previous.Some? {
        EachGroup(Reopen);
      }
      match reply {
        case Page(_, _) =>
          FoldPage(reply);
          EachGroup(Settle);
        case TooMany(retryAfterMs) =>
          EachGroup(Limit);
          var attempt := if previous.Some? then Min(previous.value.attempt + 1, 255) else 0;
          combinedRetry := Some(Retry(now + BackoffDelay(attempt, retryAfterMs), attempt, false));
        case Failed =>
          EachGroup(Settle);
      }
    }

    method TakePageReply(k: nat, reply: Reply, now: nat)
      requires Valid() && k < 4
      modifies this`showMoreRequestIds, this`showMoreRetries, this`groups
      ensures Valid() && Value() == PageReply(old(Value()), k, reply, now)
    {
      showMoreRequestIds := showMoreRequestIds[k := None];
      var previous := showMoreRetries[k];
      showMoreRetries := showMoreRetries[k := None];
      var limited := groups[k];
      if previous.Some? && limited.RateLimited? && limited.stale.Some? {
        groups := groups[k := Loaded(limited.stale.value, limited.resume, true)];
      }
      assert groups == old(groups)[k := Resumed(old(groups)[k], previous)];
      match reply {
        case Page(_, _) =>
          FoldPage(reply);
        case TooMany(retryAfterMs) =>
          var g := groups[k];
          if g.Loaded? {
            groups := groups[k := RateLimited(Some(g.items), g.next)];
            var attempt := if previous.Some? then Min(previous.value.attempt + 1, 255) else 0;
            showMoreRetries := showMoreRetries[k := Some(Retry(now + BackoffDelay(attempt, retryAfterMs), attempt, false))];
          }
        case Failed =>
          var g := groups[k];
          if g.Loaded? {
            groups := groups[k := g.(loadingMore := false)];
          }
      }
    }

    method TakeReply(id: nat, reply: Reply, now: nat)
      requires Valid()
      modifies this`pendingRequestId, this`combinedRetry, this`showMoreRequestIds, this`showMoreRetries, this`groups
      ensures Valid() && Value() == ApplyReply(old(Value()), id, reply, now)
    {
      if offline {
        return;
      }
      if Generation(id) != generation {
        return;
      }
      if pendingRequestId == Some(id) {
        TakeCombinedReply(reply, now);
        return;
      }
      var k := KindByte(id);
      if k >= 4 || showMoreRequestIds[k] != Some(id) {
        return;
      }
      TakePageReply(k, reply, now);
    }
  }
}

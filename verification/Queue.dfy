/** The mutable play queue: each method is proved to do to its fields what the queue model says. */
module PlayQueue {
  import opened Prelude
  import opened Shuffle
  import M = QueueModel
  import I = QueueInvariants

  type Item = M.Item
  type Uid = M.Uid
  type TrackId = M.TrackId

  /** Several tracks queued one by one: changes accumulate, the first playback change is the one reported. */
  ghost function QueuedAll(q: M.State, tracks: seq<TrackId>): (o: M.Outcome)
    requires M.Safe(q)
    ensures M.Safe(o.queue)
    decreases |tracks|
  {
    if tracks == [] then M.Outcome(q, M.NO_CHANGE)
    else
      var before := QueuedAll(q, tracks[..|tracks| - 1]);
      var o := M.PlayNextTrack(before.queue, tracks[|tracks| - 1]);
      I.PlayNextTrackSafe(before.queue, tracks[|tracks| - 1]);
      M.Outcome(o.queue, Merged(before.change, o.change))
  }

  function Merged(a: M.Change, b: M.Change): M.Change {
    M.Change(a.orderChanged || b.orderChanged, a.cursorChanged || b.cursorChanged,
             if a.playback.NoPlayback? then b.playback else a.playback)
  }

  /** Tracks queued while something is current go behind the block in the order given; otherwise the first one starts. */
  lemma {:induction false} QueuedInOrder(q: M.State, tracks: seq<TrackId>)
    requires M.Safe(q)
    ensures var o := QueuedAll(q, tracks);
            && (q.current.Some? ==>
                  && o.queue == q.(playNext := q.playNext + M.NewRows(tracks, q.nextUid, M.PlayNext),
                                   nextUid := q.nextUid + |tracks|)
                  && o.change == if tracks == [] then M.NO_CHANGE else M.REORDERED)
            && (q.current.None? && tracks != [] ==>
                  o.change.playback == M.PlayNextTrack(q, tracks[0]).change.playback)
  {
    hide M.Advance, M.Safe;
    if tracks == [] {
      assert q.playNext + M.NewRows(tracks, q.nextUid, M.PlayNext) == q.playNext;
    } else {
      var n := |tracks| - 1;
      QueuedInOrder(q, tracks[..n]);
      if q.current.Some? {
        assert q.playNext + M.NewRows(tracks[..n], q.nextUid, M.PlayNext)
                 + [M.Item(q.nextUid + n, tracks[n], M.PlayNext, false)]
               == q.playNext + M.NewRows(tracks, q.nextUid, M.PlayNext);
      } else {
        StartedAtOnce(q, tracks[0]);
      }
    }
  }

  lemma StartedAtOnce(q: M.State, track: TrackId)
    requires M.Safe(q) && q.current.None?
    ensures !M.PlayNextTrack(q, track).change.playback.NoPlayback?
  {
    hide M.FindIndex;
  }

  lemma HasTrackAppend(a: seq<Item>, b: seq<Item>, track: TrackId)
    ensures M.HasTrack(a + b, track) <==> M.HasTrack(a, track) || M.HasTrack(b, track)
  {
    assert forall i :: 0 <= i < |a| ==> (a + b)[i] == a[i];
    assert forall i :: 0 <= i < |b| ==> (a + b)[|a| + i] == b[i];
  }

  class Queue {
    var context: seq<Item>
    var playNext: seq<Item>
    var current: Option<Item>
    var contextPos: Option<nat>
    var shuffleOrder: Option<seq<Uid>>
    var repeat: M.Repeat
    var history: seq<Uid>
    var mode: M.Mode
    var nextUid: nat

    ghost function Value(): M.State
      reads this
    {
      M.State(context, playNext, current, contextPos, shuffleOrder, repeat, history, mode, nextUid)
    }

    ghost predicate Valid()
      reads this
    {
      M.Safe(Value())
    }

    constructor ()
      ensures Valid() && M.WellFormed(Value()) && Value() == M.NEW
    {
      context, playNext, current, contextPos, shuffleOrder := [], [], None, None, None;
      repeat, history, mode, nextUid := M.Off, [], M.HostDriven, 0;
    }

    method AllocUid() returns (uid: Uid)
      modifies this`nextUid
      ensures uid == old(nextUid) && nextUid == uid + 1
    {
      uid := nextUid;
      nextUid := nextUid + 1;
    }

    // ------------------------------------------------------------ reading

    method EffectiveOrder() returns (order: seq<Item>)
      requires Valid()
      ensures order == M.EffectiveOrder(Value())
    {
      order := if current.Some? then [current.value] else [];
      order := order + playNext;
      var upcoming := UpcomingContextItems();
      order := order + upcoming;
    }

    method UpcomingContextItems() returns (items: seq<Item>)
      requires Valid()
      ensures items == M.UpcomingContext(Value())
    {
      if shuffleOrder.Some? {
        var ids := shuffleOrder.value;
        items := [];
        for i := |ids| downto 0
          invariant items == M.Resolve(context, ids[i..])
        {
          assert ids[i..][1..] == ids[i + 1..];
          var at := M.FindIndex(context, ids[i]);
          if at.Some? {
            items := [context[at.value]] + items;
          }
        }
        assert ids[0..] == ids;
      } else {
        var start := if contextPos.Some? then contextPos.value + 1 else 0;
        items := if start <= |context| then context[start..] else [];
      }
    }

    // ---------------------------------------------------- cursor movement

    method PushHistory(uid: Uid)
      requires |history| <= M.HISTORY_LIMIT
      modifies this`history
      ensures history == M.PushHistory(old(history), uid)
    {
      history := history + [uid];
      ghost var pushed := history;
      while |history| > M.HISTORY_LIMIT
        invariant |history| <= |pushed| && history == pushed[|pushed| - |history|..]
        invariant |history| == |pushed| || |history| >= M.HISTORY_LIMIT
      {
        history := history[1..];
      }
    }

    method SetCurrent(item: Item)
      requires |history| <= M.HISTORY_LIMIT
      modifies this`history, this`current
      ensures Value() == M.SetCurrent(old(Value()), item)
    {
      PushHistory(item.uid);
      current := Some(item);
    }

    method BuildShuffleOrder(rng: Rng) returns (order: seq<Uid>)
      requires M.Start(Value()) <= |context|
      ensures order == M.BuildShuffleOrder(Value(), rng)
    {
      var start := if contextPos.Some? then contextPos.value + 1 else 0;
      var tail := context[start..];
      var ids := new Uid[|tail|](i requires 0 <= i < |tail| => tail[i].uid);
      assert ids[..] == M.Ids(tail);
      ShuffleInPlace(ids, rng);
      order := ids[..];
    }

    method DropShuffled(uid: Uid)
      modifies this`shuffleOrder
      ensures shuffleOrder == M.DropShuffled(old(shuffleOrder), uid)
    {
      if shuffleOrder.Some? {
        shuffleOrder := Some(Without(shuffleOrder.value, uid));
      }
    }

    method NextContextUid() returns (next: Option<Uid>)
      ensures next == M.NextContextUid(Value())
    {
      if shuffleOrder.Some? {
        return if shuffleOrder.value == [] then None else Some(shuffleOrder.value[0]);
      }
      var index := if contextPos.Some? then contextPos.value + 1 else 0;
      return if index < |context| then Some(context[index].uid) else None;
    }

    method TakeContext(uid: Uid) returns (change: M.Change)
      requires Valid() && uid in M.Ids(context)
      modifies this
      ensures var o := M.TakeContext(old(Value()), M.FindIndex(old(context), uid).value);
              Value() == o.queue && change == o.change
    {
      var index := M.FindIndex(context, uid).value;
      contextPos := Some(index);
      DropShuffled(uid);
      var item := context[index];
      if item.unavailable {
        return M.Change(false, true, M.Skipped(uid));
      }
      SetCurrent(item);
      return M.Change(false, true, M.MoveTo(uid));
    }

    method TakePlayNext() returns (change: M.Change)
      requires Valid() && playNext != []
      modifies this
      ensures var o := M.TakePlayNext(old(Value())); Value() == o.queue && change == o.change
    {
      var item := playNext[0];
      playNext := playNext[1..];
      if item.unavailable {
        return M.Change(true, false, M.Skipped(item.uid));
      }
      SetCurrent(item);
      return M.Change(true, true, M.MoveTo(item.uid));
    }

    method Rewind(rng: Rng)
      modifies this`contextPos, this`shuffleOrder
      ensures Value() == M.Rewound(old(Value()), rng)
    {
      contextPos := None;
      if shuffleOrder.Some? {
        var order := BuildShuffleOrder(rng);
        shuffleOrder := Some(order);
      }
    }

    method Advance(reason: M.Reason, rng: Rng) returns (change: M.Change)
      requires Valid()
      modifies this
      ensures var o := M.Advance(old(Value()), reason, rng); Value() == o.queue && change == o.change
      ensures Valid()
    {
      I.AdvanceSafe(Value(), reason, rng);
      hide M.FindIndex, M.PushHistory, M.TakeContext, M.TakePlayNext, Shuffled;
      if repeat == M.One && reason in {M.TrackEnd, M.SeekPastEnd} && current.Some? {
        PushHistory(current.value.uid);
        return M.Change(false, false, M.Restart);
      }
      ghost var start := Value();
      ghost var rewound := false;
      while true
        invariant Valid()
        invariant Value() == if rewound then M.Rewound(start, rng) else start
        invariant rewound ==> start.playNext == [] && M.NextContextUid(start).None? && start.repeat == M.All
        invariant rewound ==> start.context != []
        decreases !rewound
      {
        if playNext != [] {
          change := TakePlayNext();
          return;
        }
        var next := NextContextUid();
        if rewound {
          M.RewoundNames(start, rng);
        }
        if next.Some? {
          change := TakeContext(next.value);
          return;
        }
        if repeat == M.All && context != [] {
          I.RewoundSafe(start, rng);
          Rewind(rng);
          rewound := true;
          continue;
        }
        var hadCurrent := current.Some?;
        current := None;
        return M.Change(false, hadCurrent, if hadCurrent then M.EndOfQueue else M.Empty);
      }
    }

    method SkipBack(positionMs: nat) returns (change: M.Change)
      requires Valid()
      modifies this
      ensures var o := M.SkipBack(old(Value()), positionMs); Value() == o.queue && change == o.change
      ensures Valid()
    {
      I.SkipBackSafe(Value(), positionMs);
      assert |history| <= M.HISTORY_LIMIT;
      hide M.FindIndex, M.Safe, M.PushHistory;
      if positionMs > 3000 {
        return M.Change(false, false, M.Restart);
      }
      if history != [] && current.Some? && current.value.uid == history[|history| - 1] {
        history := history[..|history| - 1];
      }
      if history == [] {
        return M.Change(false, false, M.Restart);
      }
      var uid := history[|history| - 1];
      history := history[..|history| - 1];
      var at := M.FindIndex(context, uid);
      if at.Some? {
        contextPos := at;
        current := Some(context[at.value]);
        PushHistory(uid);
        return M.Change(false, true, M.MoveTo(uid));
      }
      return M.Change(false, false, M.Restart);
    }

    method MoveCurrentTo(uid: Uid) returns (change: M.Change)
      requires Valid()
      modifies this
      ensures var o := M.MoveCurrentTo(old(Value()), uid); Value() == o.queue && change == o.change
      ensures Valid()
    {
      I.MoveCurrentToSafe(Value(), uid);
      var at := M.FindIndex(context, uid);
      if at.None? {
        return M.NO_CHANGE;
      }
      contextPos := at;
      DropShuffled(uid);
      SetCurrent(context[at.value]);
      return M.Change(false, true, M.MoveTo(uid));
    }

    // ------------------------------------------------------ adding tracks

    /** Append fresh rows for `tracks` to the context. */
    method PushRows(tracks: seq<TrackId>) returns (uids: seq<Uid>)
      modifies this`context, this`nextUid
      ensures var rows := M.NewRows(tracks, old(nextUid), M.Context);
              && context == old(context) + rows && nextUid == old(nextUid) + |tracks| && uids == M.Ids(rows)
    {
      uids := [];
      ghost var rows := M.NewRows(tracks, nextUid, M.Context);
      for i := 0 to |tracks|
        invariant nextUid == old(nextUid) + i
        invariant context == old(context) + rows[..i]
        invariant uids == M.Ids(rows)[..i]
      {
        var uid := AllocUid();
        uids := uids + [uid];
        context := context + [M.Item(uid, tracks[i], M.Context, false)];
        assert rows[..i + 1] == rows[..i] + [rows[i]];
      }
    }

    method Clear(newMode: M.Mode)
      modifies this
      ensures Value() == M.Cleared(old(Value()), newMode)
    {
      context, playNext, shuffleOrder, contextPos, current := [], [], None, None, None;
      mode := newMode;
    }

    method ReplaceContext(tracks: seq<TrackId>) returns (change: M.Change)
      requires Valid()
      modifies this
      ensures var o := M.ReplaceContext(old(Value()), tracks); Value() == o.queue && change == o.change
      ensures Valid()
    {
      I.ReplaceSafe(Value(), tracks);
      assert |history| <= M.HISTORY_LIMIT;
      hide M.Safe, M.PushHistory;
      Clear(M.HostDriven);
      var uids := PushRows(tracks);
      if context == [] {
        return M.Change(true, true, M.Empty);
      }
      contextPos := Some(0);
      SetCurrent(context[0]);
      return M.Change(true, true, M.Restart);
    }

    method ReplaceContextAt(tracks: seq<TrackId>, cursor: nat) returns (change: M.Change)
      requires Valid()
      modifies this
      ensures var o := M.ReplaceContextAt(old(Value()), tracks, cursor); Value() == o.queue && change == o.change
      ensures Valid()
    {
      I.ReplaceAtSafe(Value(), tracks, cursor);
      change := ReplaceContext(tracks);
      if context == [] {
        return;
      }
      var index := Min(cursor, |context| - 1);
      if index != 0 {
        contextPos := Some(index);
        var item := context[index];
        current := Some(item);
        history := history[..|history| - 1];
        PushHistory(item.uid);
      }
      return M.Change(true, true, M.Restart);
    }

    method AddContext(tracks: seq<TrackId>) returns (change: M.Change)
      requires Valid()
      modifies this
      ensures var o := M.AddContext(old(Value()), tracks); Value() == o.queue && change == o.change
      ensures Valid()
    {
      I.AddContextSafe(Value(), tracks);
      if tracks == [] {
        return M.NO_CHANGE;
      }
      var autoStart := current.None?;
      var insertionStart := |context|;
      var uids := PushRows(tracks);
      shuffleOrder := M.ExtendShuffled(shuffleOrder, uids);
      if autoStart {
        contextPos := Some(insertionStart);
        SetCurrent(context[insertionStart]);
        return M.Change(true, true, M.Restart);
      }
      return M.REORDERED;
    }

    method AdoptTransferContext(track: TrackId) returns (change: M.Change)
      requires Valid()
      modifies this
      ensures var o := M.AdoptTransferContext(old(Value()), track); Value() == o.queue && change == o.change
      ensures Valid()
    {
      Clear(M.SourceDriven);
      var uid := AllocUid();
      var item := M.Item(uid, track, M.Revealed, false);
      context := [item];
      contextPos := Some(0);
      SetCurrent(item);
      return M.Change(true, true, M.MoveTo(uid));
    }

    method Reveal(track: TrackId) returns (uid: Uid)
      requires Valid()
      modifies this
      ensures Value() == M.Reveal(old(Value()), track) && uid == old(nextUid)
      ensures Valid()
    {
      I.RevealSafe(Value(), track);
      uid := AllocUid();
      context := context + [M.Item(uid, track, M.Revealed, false)];
      shuffleOrder := M.ExtendShuffled(shuffleOrder, [uid]);
    }

    method PlayNext(uid: Uid) returns (change: M.Change)
      requires Valid()
      modifies this
      ensures var o := M.PlayNextUid(old(Value()), uid); Value() == o.queue && change == o.change
      ensures Valid()
    {
      I.PlayNextSafe(Value(), uid);
      var at := M.FindIndex(playNext, uid);
      if at.Some? {
        var item := playNext[at.value];
        playNext := M.RemoveAt(playNext, at.value);
        playNext := playNext + [item];
        return M.REORDERED;
      }
      at := M.FindIndex(context, uid);
      if at.None? {
        return M.NO_CHANGE;
      }
      var item := context[at.value].(origin := M.PlayNext);
      context := M.RemoveAt(context, at.value);
      if contextPos.Some? && at.value <= contextPos.value {
        contextPos := Some(if contextPos.value == 0 then 0 else contextPos.value - 1);
      }
      DropShuffled(uid);
      playNext := playNext + [item];
      return M.REORDERED;
    }

    method PlayNextTrack(track: TrackId) returns (change: M.Change)
      requires Valid()
      modifies this
      ensures var o := M.PlayNextTrack(old(Value()), track); Value() == o.queue && change == o.change
      ensures Valid()
    {
      I.PlayNextTrackSafe(Value(), track);
      var autoStart := current.None?;
      var uid := AllocUid();
      playNext := playNext + [M.Item(uid, track, M.PlayNext, false)];
      if autoStart {
        change := Advance(M.Skip, SeedOne());
        return;
      }
      return M.REORDERED;
    }

    method PlayNextTracks(tracks: seq<TrackId>) returns (change: M.Change)
      requires Valid()
      modifies this
      ensures var o := QueuedAll(old(Value()), tracks); Value() == o.queue && change == o.change
      ensures Valid()
    {
      change := M.NO_CHANGE;
      for i := 0 to |tracks|
        invariant Valid()
        invariant var o := QueuedAll(old(Value()), tracks[..i]); Value() == o.queue && change == o.change
      {
        assert tracks[..i + 1][..i] == tracks[..i];
        var step := PlayNextTrack(tracks[i]);
        change := Merged(change, step);
      }
      assert tracks[..|tracks|] == tracks;
    }

    // --------------------------------------------------------- reordering

    method Tail() returns (tail: seq<Item>)
      requires Valid()
      ensures tail == M.Tail(Value())
    {
      var upcoming := UpcomingContextItems();
      tail := playNext + upcoming;
    }

    /** The tail indices the call moves a row between, if it moves any. */
    method FindMovement(tail: seq<Item>, uid: Uid, target: M.Target) returns (movement: Option<(nat, nat)>)
      requires tail == M.Tail(Value())
      ensures movement == M.Movement(Value(), uid, target)
    {
      hide M.Tail, M.FindIndex;
      if current.Some? && current.value.uid == uid {
        return None;
      }
      var from := M.FindIndex(tail, uid);
      if from.None? {
        return None;
      }
      var want := M.TargetIndex(target, from.value);
      if want.None? {
        return None;
      }
      var to := Min(want.value, |tail| - 1);
      return if to == from.value then None else Some((from.value, to));
    }

    method ReorderTail(uid: Uid, target: M.Target) returns (change: M.Change)
      requires Valid()
      modifies this
      ensures var o := M.ReorderTail(old(Value()), uid, target); Value() == o.queue && change == o.change
      ensures Valid()
    {
      I.ReorderSafe(Value(), uid, target);
      var tail := Tail();
      hide M.Tail, M.Movement, M.Safe, M.ApplyTail;
      var movement := FindMovement(tail, uid, target);
      if movement.None? {
        return M.NO_CHANGE;
      }
      var (from, to) := movement.value;
      var item := tail[from];
      tail := M.RemoveAt(tail, from);
      tail := tail[..to] + [item] + tail[to..];
      ApplyTail(tail);
      return M.REORDERED;
    }

    method ApplyTail(tail: seq<Item>)
      modifies this
      ensures Value() == M.ApplyTail(old(Value()), tail)
    {
      var split := Min(|playNext|, |tail|);
      var contextPart := tail[split..];
      playNext := M.WithOrigin(tail[..split], M.PlayNext);
      var keep := Min(if contextPos.Some? then contextPos.value + 1 else 0, |context|);
      context := context[..keep];
      ghost var kept, appended := context, M.AsContext(contextPart);
      for i := 0 to |contextPart|
        invariant context == kept + appended[..i]
        invariant Value() == old(Value()).(playNext := M.WithOrigin(tail[..split], M.PlayNext), context := context)
      {
        var item := contextPart[i];
        if item.origin == M.PlayNext {
          item := item.(origin := M.Context);
        }
        context := context + [item];
        assert appended[..i + 1] == appended[..i] + [appended[i]];
      }
      assert appended[..|contextPart|] == appended;
      shuffleOrder := None;
    }

    method Remove(uid: Uid) returns (change: M.Change)
      requires Valid()
      modifies this
      ensures var o := M.Remove(old(Value()), uid); Value() == o.queue && change == o.change
      ensures Valid()
    {
      I.RemoveSafe(Value(), uid);
      if current.Some? && current.value.uid == uid {
        change := Advance(M.Removed, SeedOne());
        return;
      }
      var at := M.FindIndex(playNext, uid);
      if at.Some? {
        playNext := M.RemoveAt(playNext, at.value);
        return M.REORDERED;
      }
      at := M.FindIndex(context, uid);
      if at.None? {
        return M.NO_CHANGE;
      }
      context := M.RemoveAt(context, at.value);
      if contextPos.Some? {
        if at.value < contextPos.value {
          contextPos := Some(contextPos.value - 1);
        } else if at.value == contextPos.value {
          contextPos := Some(if contextPos.value == 0 then 0 else contextPos.value - 1);
        }
      }
      DropShuffled(uid);
      return M.REORDERED;
    }

    // -------------------------------------------------------- other calls

    method SetShuffle(on: bool, rng: Rng) returns (change: M.Change)
      requires Valid() && !M.SetShufflePanics(Value(), on)
      modifies this
      ensures var o := M.SetShuffle(old(Value()), on, rng); Value() == o.queue && change == o.change
      ensures Valid()
    {
      I.ShuffleSafe(Value(), on, rng);
      if on == shuffleOrder.Some? {
        return M.NO_CHANGE;
      }
      if on {
        var order := BuildShuffleOrder(rng);
        shuffleOrder := Some(order);
      } else {
        shuffleOrder := None;
      }
      return M.REORDERED;
    }

    method SetRepeat(newRepeat: M.Repeat) returns (change: M.Change)
      requires Valid()
      modifies this
      ensures var o := M.SetRepeat(old(Value()), newRepeat); Value() == o.queue && change == o.change
      ensures Valid()
    {
      if repeat == newRepeat {
        return M.NO_CHANGE;
      }
      repeat := newRepeat;
      return M.REORDERED;
    }

    method EnsureHostDriven()
      modifies this`mode
      ensures Value() == old(Value()).(mode := M.HostDriven)
    {
      mode := M.HostDriven;
    }

    static method MarkRows(items: seq<Item>, track: TrackId) returns (marked: seq<Item>, any: bool)
      ensures marked == M.Marked(items, track) && (any <==> M.HasTrack(items, track))
      ensures !any ==> marked == items
    {
      marked, any := items, false;
      for i := 0 to |items|
        invariant |marked| == |items| && marked[i..] == items[i..]
        invariant forall j :: 0 <= j < i ==> marked[j] == M.Marked(items, track)[j]
        invariant any <==> exists j :: 0 <= j < i && items[j].track == track
        invariant !any ==> marked == items
      {
        assert marked[i] == marked[i..][0] == items[i];
        if marked[i].track == track {
          marked := marked[i := marked[i].(unavailable := true)];
          any := true;
        }
      }
    }

    method MarkUnavailable(track: TrackId, rng: Rng) returns (change: M.Change)
      requires Valid()
      modifies this
      ensures var o := M.MarkUnavailable(old(Value()), track, rng); Value() == o.queue && change == o.change
      ensures Valid()
    {
      I.MarkSafe(Value(), track, rng);
      I.MarkedRowsSafe(Value(), track);
      hide M.Advance, M.Safe, M.HasTrack;
      var anyContext, anyPlayNext;
      context, anyContext := MarkRows(context, track);
      playNext, anyPlayNext := MarkRows(playNext, track);
      assert M.HasTrack(old(context) + old(playNext), track) <==> anyContext || anyPlayNext by {
        HasTrackAppend(old(context), old(playNext), track);
      }
      if !anyContext && !anyPlayNext {
        assert context == old(context) && playNext == old(playNext);
        return M.NO_CHANGE;
      }
      if current.Some? && current.value.track == track {
        change := Advance(M.Removed, rng);
        return;
      }
      return M.NO_CHANGE;
    }

    method WrapPreview(rng: Rng) returns (order: Option<seq<TrackId>>)
      requires Valid()
      ensures order == M.WrapPreview(Value(), rng)
    {
      if repeat != M.All || |context| < 2 {
        return None;
      }
      var upcoming := UpcomingContextItems();
      if playNext != [] || upcoming != [] || current.None? {
        return None;
      }
      var rest := M.Tracks(M.ItemsExcept(context, current.value.uid));
      if shuffleOrder.Some? {
        var shuffled := new TrackId[|rest|](i requires 0 <= i < |rest| => rest[i]);
        assert shuffled[..] == rest;
        ShuffleInPlace(shuffled, rng);
        rest := shuffled[..];
      }
      return Some([current.value.track] + rest);
    }
  }
}

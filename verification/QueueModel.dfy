/** The play queue as a value: what each call makes of a queue state. */
module QueueModel {
  import opened Prelude
  import opened Shuffle

  type Uid = nat
  type TrackId = string

  datatype Origin = Context | PlayNext | Revealed
  datatype Repeat = Off | One | All
  datatype Mode = HostDriven | SourceDriven
  datatype Reason = TrackEnd | Skip | Removed | SeekPastEnd

  /** What playback has to do after a queue call. */
  datatype Playback = NoPlayback | Restart | MoveTo(uid: Uid) | EndOfQueue | Empty | Skipped(uid: Uid)

  datatype Change = Change(orderChanged: bool, cursorChanged: bool, playback: Playback)

  datatype Item = Item(uid: Uid, track: TrackId, origin: Origin, unavailable: bool)

  datatype State = State(
    context: seq<Item>,
    playNext: seq<Item>,
    current: Option<Item>,
    contextPos: Option<nat>,
    shuffleOrder: Option<seq<Uid>>,
    repeat: Repeat,
    history: seq<Uid>,
    mode: Mode,
    nextUid: nat)

  datatype Outcome = Outcome(queue: State, change: Change)

  const HISTORY_LIMIT := 100

  const NO_CHANGE := Change(false, false, NoPlayback)
  const REORDERED := Change(true, false, NoPlayback)

  const NEW := State([], [], None, None, None, Off, [], HostDriven, 0)

  // -------------------------------------------------------------- look-ups

  function Ids(items: seq<Item>): (r: seq<Uid>)
    ensures |r| == |items| && forall i :: 0 <= i < |r| ==> r[i] == items[i].uid
  {
    seq(|items|, i requires 0 <= i < |items| => items[i].uid)
  }

  function FindIndex(items: seq<Item>, uid: Uid): (r: Option<nat>)
    ensures r.None? <==> uid !in Ids(items)
    ensures r.Some? ==> r.value < |items| && items[r.value].uid == uid
    ensures r.Some? ==> forall i :: 0 <= i < r.value ==> items[i].uid != uid
  {
    if items == [] then None
    else if items[0].uid == uid then assert Ids(items)[0] == uid; Some(0)
    else
      assert Ids(items) == [items[0].uid] + Ids(items[1..]);
      match FindIndex(items[1..], uid)
      case None => None
      case Some(i) => Some(i + 1)
  }

  /** The items named by `ids`, in that order, ids without an item left out. */
  function Resolve(context: seq<Item>, ids: seq<Uid>): (r: seq<Item>)
    ensures forall i :: 0 <= i < |r| ==> r[i] in context
  {
    if ids == [] then []
    else match FindIndex(context, ids[0])
      case None => Resolve(context, ids[1..])
      case Some(i) => [context[i]] + Resolve(context, ids[1..])
  }

  /** Index of the first context item after the cursor. */
  function Start(q: State): nat {
    match q.contextPos case None => 0 case Some(p) => p + 1
  }

  function UpcomingContext(q: State): seq<Item> {
    match q.shuffleOrder
    case Some(ids) => Resolve(q.context, ids)
    case None => if Start(q) <= |q.context| then q.context[Start(q)..] else []
  }

  /** Everything after the current item, in play order. */
  function Tail(q: State): seq<Item> { q.playNext + UpcomingContext(q) }

  function EffectiveOrder(q: State): seq<Item> {
    (if q.current.Some? then [q.current.value] else []) + Tail(q)
  }

  predicate IsCurrent(q: State, uid: Uid) { q.current.Some? && q.current.value.uid == uid }

  // ------------------------------------------------------------ invariants

  ghost predicate CursorInRange(q: State) {
    q.contextPos.Some? ==> q.contextPos.value < |q.context| || StrandedCursor(q)
  }

  ghost predicate ShuffleKnown(order: Option<seq<Uid>>, context: seq<Item>) {
    order.Some? ==> forall u :: u in order.value ==> u in Ids(context)
  }

  ghost predicate AllPlayNext(items: seq<Item>) { forall i :: 0 <= i < |items| ==> items[i].origin == PlayNext }

  ghost predicate NonePlayNext(items: seq<Item>) { forall i :: 0 <= i < |items| ==> items[i].origin != PlayNext }

  ghost predicate Issued(items: seq<Item>, nextUid: nat) { forall i :: 0 <= i < |items| ==> items[i].uid < nextUid }

  /** What every reachable queue satisfies. */
  ghost predicate Safe(q: State) {
    && CursorInRange(q)
    && ShuffleKnown(q.shuffleOrder, q.context)
    && |q.history| <= HISTORY_LIMIT
    && AllPlayNext(q.playNext)
    && NonePlayNext(q.context)
    && Issued(q.context, q.nextUid)
    && Issued(q.playNext, q.nextUid)
    && (q.current.Some? ==> q.current.value.uid < q.nextUid)
  }

  /** The cursor can be left at index 0 of a context that has become empty. */
  predicate StrandedCursor(q: State) { q.contextPos == Some(0) && q.context == [] }

  /** A queue in which no row is listed twice. */
  ghost predicate WellFormed(q: State) {
    && Safe(q)
    && Distinct(Ids(q.context) + Ids(q.playNext))
    && (q.shuffleOrder.Some? ==> Distinct(q.shuffleOrder.value))
  }

  // ------------------------------------------------------- cursor movement

  function PushHistory(history: seq<Uid>, uid: Uid): (r: seq<Uid>)
    ensures r != [] && r[|r| - 1] == uid
    ensures |history| <= HISTORY_LIMIT ==> |r| <= HISTORY_LIMIT
  {
    var h := history + [uid];
    if |h| > HISTORY_LIMIT then h[|h| - HISTORY_LIMIT..] else h
  }

  function SetCurrent(q: State, item: Item): State {
    q.(history := PushHistory(q.history, item.uid), current := Some(item))
  }

  function NextContextUid(q: State): Option<Uid> {
    match q.shuffleOrder
    case Some(ids) => if ids == [] then None else Some(ids[0])
    case None => if Start(q) < |q.context| then Some(q.context[Start(q)].uid) else None
  }

  function BuildShuffleOrder(q: State, rng: Rng): seq<Uid>
    requires Start(q) <= |q.context|
  {
    Shuffled(Ids(q.context[Start(q)..]), rng)
  }

  function DropShuffled(order: Option<seq<Uid>>, uid: Uid): Option<seq<Uid>> {
    match order case None => None case Some(ids) => Some(Without(ids, uid))
  }

  function ExtendShuffled(order: Option<seq<Uid>>, uids: seq<Uid>): Option<seq<Uid>> {
    match order case None => None case Some(ids) => Some(ids + uids)
  }

  /** Move the cursor onto context item `index`; an unavailable item is passed over. */
  function TakeContext(q: State, index: nat): Outcome
    requires index < |q.context|
  {
    var item := q.context[index];
    var q' := q.(contextPos := Some(index), shuffleOrder := DropShuffled(q.shuffleOrder, item.uid));
    if item.unavailable then Outcome(q', Change(false, true, Skipped(item.uid)))
    else Outcome(SetCurrent(q', item), Change(false, true, MoveTo(item.uid)))
  }

  function TakePlayNext(q: State): Outcome
    requires q.playNext != []
  {
    var item := q.playNext[0];
    var q' := q.(playNext := q.playNext[1..]);
    if item.unavailable then Outcome(q', Change(true, false, Skipped(item.uid)))
    else Outcome(SetCurrent(q', item), Change(true, true, MoveTo(item.uid)))
  }

  /** The start of a new cycle under repeat-all. */
  function Rewound(q: State, rng: Rng): State {
    var q' := q.(contextPos := None);
    if q.shuffleOrder.Some? then q'.(shuffleOrder := Some(BuildShuffleOrder(q', rng))) else q'
  }

  predicate RestartsInPlace(q: State, reason: Reason) {
    q.repeat == One && reason in {TrackEnd, SeekPastEnd} && q.current.Some?
  }

  function Advance(q: State, reason: Reason, rng: Rng): Outcome
    requires Safe(q)
  {
    if RestartsInPlace(q, reason) then
      Outcome(q.(history := PushHistory(q.history, q.current.value.uid)), Change(false, false, Restart))
    else if q.playNext != [] then TakePlayNext(q)
    else match NextContextUid(q)
      case Some(uid) => TakeContext(q, FindIndex(q.context, uid).value)
      case None =>
        if q.repeat == All && q.context != [] then
          var w := Rewound(q, rng);
          RewoundNames(q, rng);
          TakeContext(w, FindIndex(w.context, NextContextUid(w).value).value)
        else
          Outcome(q.(current := None), Change(false, q.current.Some?, if q.current.Some? then EndOfQueue else Empty))
  }

  /** Rewinding a non-empty context always leaves something to play, so `advance` never loops twice. */
  lemma RewoundNames(q: State, rng: Rng)
    requires q.context != []
    ensures NextContextUid(Rewound(q, rng)).Some?
    ensures NextContextUid(Rewound(q, rng)).value in Ids(q.context)
  {
    if q.shuffleOrder.Some? {
      assert q.context[0..] == q.context;
      ShuffledPermutes(Ids(q.context), rng);
      SameMembers(Ids(q.context), Shuffled(Ids(q.context), rng));
    } else {
      assert Ids(q.context)[0] == q.context[0].uid;
    }
  }

  function SkipBack(q: State, positionMs: nat): Outcome {
    if positionMs > 3000 then Outcome(q, Change(false, false, Restart))
    else
      var n := |q.history|;
      var h := if n > 0 && IsCurrent(q, q.history[n - 1]) then q.history[..n - 1] else q.history;
      if h == [] then Outcome(q.(history := h), Change(false, false, Restart))
      else
        var uid := h[|h| - 1];
        var q' := q.(history := h[..|h| - 1]);
        match FindIndex(q.context, uid)
        case None => Outcome(q', Change(false, false, Restart))
        case Some(i) =>
          Outcome(
            q'.(contextPos := Some(i), current := Some(q.context[i]), history := PushHistory(q'.history, uid)),
            Change(false, true, MoveTo(uid)))
  }

  function MoveCurrentTo(q: State, uid: Uid): Outcome {
    match FindIndex(q.context, uid)
    case None => Outcome(q, NO_CHANGE)
    case Some(i) =>
      var q' := q.(contextPos := Some(i), shuffleOrder := DropShuffled(q.shuffleOrder, uid));
      Outcome(SetCurrent(q', q.context[i]), Change(false, true, MoveTo(uid)))
  }

  // --------------------------------------------------------- adding tracks

  /** Fresh rows for `tracks`, numbered from `uid` up. */
  function NewRows(tracks: seq<TrackId>, uid: Uid, origin: Origin): (r: seq<Item>)
    ensures |r| == |tracks|
    ensures forall i :: 0 <= i < |r| ==> r[i] == Item(uid + i, tracks[i], origin, false)
  {
    seq(|tracks|, i requires 0 <= i < |tracks| => Item(uid + i, tracks[i], origin, false))
  }

  function Cleared(q: State, mode: Mode): State {
    q.(context := [], playNext := [], shuffleOrder := None, contextPos := None, current := None, mode := mode)
  }

  function ReplaceContext(q: State, tracks: seq<TrackId>): Outcome {
    var rows := NewRows(tracks, q.nextUid, Context);
    var q' := Cleared(q, HostDriven).(context := rows, nextUid := q.nextUid + |tracks|);
    if rows == [] then Outcome(q', Change(true, true, Empty))
    else Outcome(SetCurrent(q'.(contextPos := Some(0)), rows[0]), Change(true, true, Restart))
  }

  function ReplaceContextAt(q: State, tracks: seq<TrackId>, cursor: nat): Outcome {
    var o := ReplaceContext(q, tracks);
    var rows := o.queue.context;
    if rows == [] then o
    else
      var index := Min(cursor, |rows| - 1);
      var q' := if index == 0 then o.queue
        else
          var h := o.queue.history;
          o.queue.(contextPos := Some(index), current := Some(rows[index]),
                   history := PushHistory(h[..|h| - 1], rows[index].uid));
      Outcome(q', Change(true, true, Restart))
  }

  function AddContext(q: State, tracks: seq<TrackId>): Outcome {
    if tracks == [] then Outcome(q, NO_CHANGE)
    else
      var rows := NewRows(tracks, q.nextUid, Context);
      var q' := q.(context := q.context + rows, nextUid := q.nextUid + |tracks|,
                   shuffleOrder := ExtendShuffled(q.shuffleOrder, Ids(rows)));
      if q.current.None? then
        Outcome(SetCurrent(q'.(contextPos := Some(|q.context|)), rows[0]), Change(true, true, Restart))
      else Outcome(q', REORDERED)
  }

  function AdoptTransferContext(q: State, track: TrackId): Outcome {
    var item := Item(q.nextUid, track, Revealed, false);
    var q' := Cleared(q, SourceDriven).(context := [item], contextPos := Some(0), nextUid := q.nextUid + 1);
    Outcome(SetCurrent(q', item), Change(true, true, MoveTo(item.uid)))
  }

  function Reveal(q: State, track: TrackId): State {
    q.(context := q.context + [Item(q.nextUid, track, Revealed, false)], nextUid := q.nextUid + 1,
       shuffleOrder := ExtendShuffled(q.shuffleOrder, [q.nextUid]))
  }

  function RemoveAt<T>(s: seq<T>, i: nat): seq<T>
    requires i < |s|
  {
    s[..i] + s[i + 1..]
  }

  /** Move an existing row to the end of the play-next block. */
  function PlayNextUid(q: State, uid: Uid): Outcome {
    match FindIndex(q.playNext, uid)
    case Some(i) => Outcome(q.(playNext := RemoveAt(q.playNext, i) + [q.playNext[i]]), REORDERED)
    case None =>
      match FindIndex(q.context, uid)
      case None => Outcome(q, NO_CHANGE)
      case Some(i) =>
        var pos := match q.contextPos
          case Some(p) => if i <= p then Some(if p == 0 then 0 else p - 1) else Some(p)
          case None => None;
        Outcome(
          q.(context := RemoveAt(q.context, i), contextPos := pos,
             shuffleOrder := DropShuffled(q.shuffleOrder, uid),
             playNext := q.playNext + [q.context[i].(origin := PlayNext)]),
          REORDERED)
  }

  function PlayNextTrack(q: State, track: TrackId): Outcome
    requires Safe(q)
  {
    var item := Item(q.nextUid, track, PlayNext, false);
    var q' := q.(playNext := q.playNext + [item], nextUid := q.nextUid + 1);
    if q.current.None? then Advance(q', Skip, SeedOne()) else Outcome(q', REORDERED)
  }

  // ------------------------------------------------------------ reordering

  function MoveItem<T>(s: seq<T>, from: nat, to: nat): (r: seq<T>)
    requires from < |s| && to < |s|
    ensures |r| == |s|
  {
    var rest := RemoveAt(s, from);
    rest[..to] + [s[from]] + rest[to..]
  }

  function WithOrigin(items: seq<Item>, origin: Origin): (r: seq<Item>)
    ensures |r| == |items|
    ensures forall i :: 0 <= i < |r| ==> r[i] == items[i].(origin := origin)
  {
    seq(|items|, i requires 0 <= i < |items| => items[i].(origin := origin))
  }

  /** A row that leaves the play-next block becomes a context row. */
  function AsContext(items: seq<Item>): (r: seq<Item>)
    ensures |r| == |items|
    ensures forall i :: 0 <= i < |r| ==>
              r[i] == (if items[i].origin == PlayNext then items[i].(origin := Context) else items[i])
  {
    seq(|items|, i requires 0 <= i < |items| =>
      if items[i].origin == PlayNext then items[i].(origin := Context) else items[i])
  }

  function ApplyTail(q: State, tail: seq<Item>): State {
    var split := Min(|q.playNext|, |tail|);
    var keep := Min(Start(q), |q.context|);
    q.(playNext := WithOrigin(tail[..split], PlayNext),
       context := q.context[..keep] + AsContext(tail[split..]),
       shuffleOrder := None)
  }

  /** Where a reordering call wants the row that now sits at tail index `from`. */
  datatype Target = Up | Down | To(effectiveIndex: nat)

  function TargetIndex(t: Target, from: nat): Option<nat> {
    match t
    case Up => if from == 0 then None else Some(from - 1)
    case Down => Some(from + 1)
    case To(i) => Some(if i == 0 then 0 else i - 1)
  }

  /** The tail indices a reordering call really moves between, if it moves anything. */
  function Movement(q: State, uid: Uid, t: Target): (r: Option<(nat, nat)>)
    ensures r.Some? ==> r.value.0 < |Tail(q)| && r.value.1 < |Tail(q)| && r.value.0 != r.value.1
    ensures r.Some? ==> Tail(q)[r.value.0].uid == uid
  {
    if IsCurrent(q, uid) then None
    else match FindIndex(Tail(q), uid)
      case None => None
      case Some(from) =>
        match TargetIndex(t, from)
        case None => None
        case Some(want) =>
          var to := Min(want, |Tail(q)| - 1);
          if to == from then None else Some((from, to))
  }

  function ReorderTail(q: State, uid: Uid, t: Target): Outcome {
    match Movement(q, uid, t)
    case None => Outcome(q, NO_CHANGE)
    case Some((from, to)) => Outcome(ApplyTail(q, MoveItem(Tail(q), from, to)), REORDERED)
  }

  // ---------------------------------------------------------- other calls

  function Remove(q: State, uid: Uid): Outcome
    requires Safe(q)
  {
    if IsCurrent(q, uid) then Advance(q, Removed, SeedOne())
    else match FindIndex(q.playNext, uid)
      case Some(i) => Outcome(q.(playNext := RemoveAt(q.playNext, i)), REORDERED)
      case None =>
        match FindIndex(q.context, uid)
        case None => Outcome(q, NO_CHANGE)
        case Some(i) =>
          var pos := match q.contextPos
            case Some(p) => if i <= p then Some(if p == 0 then 0 else p - 1) else Some(p)
            case None => None;
          Outcome(
            q.(context := RemoveAt(q.context, i), contextPos := pos, shuffleOrder := DropShuffled(q.shuffleOrder, uid)),
            REORDERED)
  }

  /** Turning shuffle on slices the context from after the cursor; a cursor past the end makes that slice panic. */
  predicate SetShufflePanics(q: State, on: bool) {
    on && q.shuffleOrder.None? && Start(q) > |q.context|
  }

  function SetShuffle(q: State, on: bool, rng: Rng): Outcome
    requires !SetShufflePanics(q, on)
  {
    if on == q.shuffleOrder.Some? then Outcome(q, NO_CHANGE)
    else Outcome(q.(shuffleOrder := if on then Some(BuildShuffleOrder(q, rng)) else None), REORDERED)
  }

  function SetRepeat(q: State, mode: Repeat): Outcome {
    if q.repeat == mode then Outcome(q, NO_CHANGE) else Outcome(q.(repeat := mode), REORDERED)
  }

  function Marked(items: seq<Item>, track: TrackId): (r: seq<Item>)
    ensures |r| == |items|
    ensures forall i :: 0 <= i < |r| ==>
              r[i] == (if items[i].track == track then items[i].(unavailable := true) else items[i])
  {
    seq(|items|, i requires 0 <= i < |items| =>
      if items[i].track == track then items[i].(unavailable := true) else items[i])
  }

  predicate HasTrack(items: seq<Item>, track: TrackId) { exists i :: 0 <= i < |items| && items[i].track == track }

  function MarkUnavailable(q: State, track: TrackId, rng: Rng): Outcome
    requires Safe(q)
  {
    if !HasTrack(q.context + q.playNext, track) then Outcome(q, NO_CHANGE)
    else
      var q' := q.(context := Marked(q.context, track), playNext := Marked(q.playNext, track));
      assert Ids(q'.context) == Ids(q.context);
      if q.current.Some? && q.current.value.track == track then Advance(q', Removed, rng)
      else Outcome(q', NO_CHANGE)
  }

  function PrefetchTarget(q: State): Option<TrackId> {
    if q.playNext != [] then Some(q.playNext[0].track)
    else match NextContextUid(q)
      case Some(uid) =>
        (match FindIndex(q.context, uid) case None => None case Some(i) => Some(q.context[i].track))
      case None => if q.repeat == All && q.context != [] then Some(q.context[0].track) else None
  }

  function Tracks(items: seq<Item>): (r: seq<TrackId>)
    ensures |r| == |items| && forall i :: 0 <= i < |r| ==> r[i] == items[i].track
  {
    seq(|items|, i requires 0 <= i < |items| => items[i].track)
  }

  function ItemsExcept(items: seq<Item>, uid: Uid): seq<Item> {
    if items == [] then []
    else (if items[0].uid == uid then [] else [items[0]]) + ItemsExcept(items[1..], uid)
  }

  function WrapPreview(q: State, rng: Rng): Option<seq<TrackId>> {
    if q.repeat != All || |q.context| < 2 || Tail(q) != [] || q.current.None? then None
    else
      var rest := Tracks(ItemsExcept(q.context, q.current.value.uid));
      Some([q.current.value.track] + (if q.shuffleOrder.Some? then Shuffled(rest, rng) else rest))
  }
}

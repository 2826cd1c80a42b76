/** A fill while the store is being written: every frame reads the store as it stands at that moment. */
module LiveFill {
  import opened StoreModel
  import opened Prelude
  import opened RtModel
  import DecodeAhead
  import StoreRace

  ghost predicate AllWellFormed(views: seq<View>) { forall i :: 0 <= i < |views| ==> WellFormed(views[i]) }

  /** One frame per view, up to the first that finds nothing. */
  ghost function DeliverEach(views: seq<View>, s: FeedState): (d: Delivery)
    requires AllWellFormed(views)
    decreases |views|
  {
    if views == [] then Delivery(s, [], [])
    else
      var d := Deliver(Some(views[0]), s, 1);
      if d.frames == [] then d else Chain(d, DeliverEach(views[1..], d.state))
  }

  function Chain(d: Delivery, rest: Delivery): Delivery { Delivery(rest.state, d.frames + rest.frames, d.at + rest.at) }

  // ------------------------------------------------- one view is the fill

  lemma ChainPrepended(frame: Frame, position: nat, s: FeedState, rest: Delivery)
    ensures Chain(Prepend(frame, position, Delivery(s, [], [])), rest) == Prepend(frame, position, rest)
  {}

  lemma {:induction false} DeliverSplits(store: Option<View>, s: FeedState, n: nat)
    requires ReadyStore(store) && n > 0
    ensures var d := Deliver(store, s, 1);
            Deliver(store, s, n) == if d.frames == [] then d else Chain(d, Deliver(store, d.state, n - 1))
    decreases Rank(store, s)
  {
    hide ReadyStore, StoreFrame;
    if s.feed == Store && !CoversAt(store, s.cursor) {
      DeliverSplits(store, FallBack(s), n);
    } else if s.feed == Store {
      var next := s.(samples := PopFrame(s.samples), cursor := s.cursor + 1);
      ChainPrepended(StoreFrame(store, s.cursor), s.cursor, next, Deliver(store, next, n - 1));
    } else if |s.samples| >= 2 {
      var next := s.(samples := s.samples[2..], cursor := s.cursor + 1);
      ChainPrepended((s.samples[0], s.samples[1]), s.cursor, next, Deliver(store, next, n - 1));
    } else if CoversAt(store, s.cursor) {
      DeliverSplits(store, s.(samples := [], feed := Store), n);
    }
  }

  /** If nothing is written meanwhile, this is the fill of the real-time half. */
  lemma {:induction false} UnchangedStoreIsOneFill(v: View, s: FeedState, n: nat)
    requires WellFormed(v)
    ensures DeliverEach(seq(n, i => v), s) == Deliver(Some(v), s, n)
    decreases n
  {
    hide WellFormed, Rank;
    if n > 0 {
      var views := seq(n, i => v);
      assert views[0] == v && views[1..] == seq(n - 1, i => v);
      DeliverSplits(Some(v), s, n);
      UnchangedStoreIsOneFill(v, Deliver(Some(v), s, 1).state, n - 1);
    }
  }

  // --------------------------------------------------- while it is written

  lemma {:induction false} OneStoreFrame(v: View, s: FeedState, track: DecodeAhead.Track)
    requires WellFormed(v) && DecodeAhead.Agrees(v, track) && s.feed == Store && Covers(v, s.cursor)
    ensures var next := s.(samples := PopFrame(s.samples), cursor := s.cursor + 1);
            Deliver(Some(v), s, 1) == Delivery(next, [track(s.cursor)], [s.cursor])
  {
    var next := s.(samples := PopFrame(s.samples), cursor := s.cursor + 1);
    assert Deliver(Some(v), next, 0) == Delivery(next, [], []);
  }

  /** Each view agrees with the track and covers the frame it is read for. */
  ghost predicate Serves(views: seq<View>, cursor: nat, track: DecodeAhead.Track) {
    forall i: nat :: i < |views| ==>
      WellFormed(views[i]) && DecodeAhead.Agrees(views[i], track) && Covers(views[i], cursor + i)
  }

  lemma ServesOn(views: seq<View>, cursor: nat, track: DecodeAhead.Track)
    requires Serves(views, cursor, track) && views != []
    ensures WellFormed(views[0]) && DecodeAhead.Agrees(views[0], track) && Covers(views[0], cursor)
    ensures AllWellFormed(views) && Serves(views[1..], cursor + 1, track)
  {
    hide WellFormed, DecodeAhead.Agrees, Covers;
    assert Covers(views[0], cursor + 0);
    forall i: nat | i < |views[1..]|
      ensures WellFormed(views[1..][i]) && DecodeAhead.Agrees(views[1..][i], track) && Covers(views[1..][i], cursor + 1 + i)
    {
      assert views[1..][i] == views[i + 1] && cursor + (i + 1) == cursor + 1 + i;
    }
  }

  lemma {:induction false} ServedFramesAreTheTrack(views: seq<View>, s: FeedState, track: DecodeAhead.Track)
    requires AllWellFormed(views) && Serves(views, s.cursor, track) && s.feed == Store
    ensures var d := DeliverEach(views, s);
            && |d.frames| == |views| && d.state.cursor == s.cursor + |views| && d.state.feed == Store
            && forall i :: 0 <= i < |views| ==> d.frames[i] == track(s.cursor + i)
    decreases |views|
  {
    hide Serves, WellFormed, DecodeAhead.Agrees, Covers, Deliver;
    if views != [] {
      ServesOn(views, s.cursor, track);
      OneStoreFrame(views[0], s, track);
      ServedFramesAreTheTrack(views[1..], s.(samples := PopFrame(s.samples), cursor := s.cursor + 1), track);
    }
  }

  /** Any steps of writer and readers before each frame. */
  ghost predicate Blocks(s: StoreRace.System, blocks: seq<seq<StoreRace.Step>>, track: DecodeAhead.Track)
    requires StoreRace.Consistent(s, track)
    decreases |blocks|
  {
    blocks == [] || (
      && StoreRace.Run(s, blocks[0], track)
      && (StoreRace.RunConsistent(s, blocks[0], track);
          Blocks(StoreRace.After(s, blocks[0], track), blocks[1..], track)))
  }

  /** The store as each frame finds it. */
  ghost function Views(s: StoreRace.System, blocks: seq<seq<StoreRace.Step>>, track: DecodeAhead.Track): seq<View>
    requires StoreRace.Consistent(s, track) && Blocks(s, blocks, track)
    decreases |blocks|
  {
    if blocks == [] then []
    else
      StoreRace.RunConsistent(s, blocks[0], track);
      var s' := StoreRace.After(s, blocks[0], track);
      [s'.store] + Views(s', blocks[1..], track)
  }

  lemma {:induction false} ViewsAgree(s: StoreRace.System, blocks: seq<seq<StoreRace.Step>>, track: DecodeAhead.Track)
    requires StoreRace.Consistent(s, track) && Blocks(s, blocks, track)
    ensures var views := Views(s, blocks, track);
            && |views| == |blocks| && WellFormed(s.store)
            && forall i :: 0 <= i < |views| ==>
                 WellFormed(views[i]) && DecodeAhead.Agrees(views[i], track) && DecodeAhead.Extends(s.store, views[i])
    decreases |blocks|
  {
    hide WellFormed, DecodeAhead.Agrees, DecodeAhead.Extends, StoreRace.Consistent, StoreRace.Run, StoreRace.After;
    StoreOfConsistent(s, track);
    if blocks != [] {
      var s' := StoreRace.After(s, blocks[0], track);
      StoreRace.RunConsistent(s, blocks[0], track);
      StoreOfConsistent(s', track);
      ViewsAgree(s', blocks[1..], track);
      var rest := Views(s', blocks[1..], track);
      forall i | 0 <= i < |rest| ensures DecodeAhead.Extends(s.store, rest[i]) {
        DecodeAhead.ExtendsTwice(s.store, s'.store, rest[i]);
      }
    }
  }

  lemma StoreOfConsistent(s: StoreRace.System, track: DecodeAhead.Track)
    requires StoreRace.Consistent(s, track)
    ensures WellFormed(s.store) && DecodeAhead.Agrees(s.store, track)
  {}

  /** Frames published before stay readable, and the track's, as long as no completion cuts the length below them. */
  lemma PublishedFramesAreServed(system: StoreRace.System, blocks: seq<seq<StoreRace.Step>>, track: DecodeAhead.Track,
                                 frame: nat)
    requires StoreRace.Consistent(system, track) && Blocks(system, blocks, track)
    requires forall f: nat :: frame <= f < frame + |blocks| ==> Published(system.store.filled, f)
    requires LongEnough(Views(system, blocks, track), frame)
    ensures WellFormed(system.store) && |Views(system, blocks, track)| == |blocks|
    ensures AllWellFormed(Views(system, blocks, track)) && Serves(Views(system, blocks, track), frame, track)
  {
    var views := Views(system, blocks, track);
    hide StoreRace.Consistent, Blocks, Views, WellFormed, DecodeAhead.Agrees, DecodeAhead.Extends, Published;
    ViewsAgree(system, blocks, track);
    forall i: nat | i < |views| ensures Covers(views[i], frame + i) {
      ExtendsPublishes(system.store, views[i], frame + i);
    }
  }

  /**
   * A seek into frames published by then plays the track from the target on, whatever the writer and other readers do
   * before each frame, as long as no completion cuts the length below what is played.
   */
  lemma SeekPlaysTheTrackWhileWritten(system: StoreRace.System, blocks: seq<seq<StoreRace.Step>>,
                                      track: DecodeAhead.Track, s: FeedState, frame: nat)
    requires StoreRace.Consistent(system, track) && Blocks(system, blocks, track)
    requires frame < system.store.len && blocks != []
    requires forall f: nat :: frame <= f < frame + |blocks| ==> Published(system.store.filled, f)
    requires LongEnough(Views(system, blocks, track), frame)
    ensures AllWellFormed(Views(system, blocks, track)) && WellFormed(system.store)
    ensures var d := DeliverEach(Views(system, blocks, track), Seeked(Some(system.store), s, frame));
            && |d.frames| == |blocks| && d.state.cursor == frame + |blocks|
            && forall i :: 0 <= i < |blocks| ==> d.frames[i] == track(frame + i)
  {
    hide DeliverEach, StoreRace.Consistent, Blocks, Views, WellFormed, Serves, LongEnough, AllWellFormed;
    PublishedFramesAreServed(system, blocks, track, frame);
    assert Covers(system.store, frame);
    ServedFramesAreTheTrack(Views(system, blocks, track), Seeked(Some(system.store), s, frame), track);
  }

  /** Each view's length reaches past the frame it is read for. */
  predicate LongEnough(views: seq<View>, frame: nat) { forall i :: 0 <= i < |views| ==> frame + i < views[i].len }

  lemma ExtendsPublishes(v: View, v': View, f: nat)
    requires WellFormed(v) && WellFormed(v') && DecodeAhead.Extends(v, v') && Published(v.filled, f)
    ensures Published(v'.filled, f)
  {}
}

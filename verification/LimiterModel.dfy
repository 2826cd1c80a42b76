/** The sliding-window limiter behind the gateway, against the full history of admissions. */
module LimiterModel {
  import opened Prelude

  datatype RateCategory = Transport | Markers | Effects | State | Timers | Ui | Notify

  const CATEGORIES := [Transport, Markers, Effects, State, Timers, Ui, Notify]

  function Index(c: RateCategory): (i: nat)
    ensures i < 7 && CATEGORIES[i] == c
  {
    match c
    case Transport => 0
    case Markers => 1
    case Effects => 2
    case State => 3
    case Timers => 4
    case Ui => 5
    case Notify => 6
  }

  function Limit(c: RateCategory): (n: nat)
    ensures n > 0
  {
    if c == Notify then 6 else 100
  }

  /** In milliseconds. */
  function Window(c: RateCategory): (w: nat)
    ensures w > 0
  {
    if c == Notify then 60_000 else 1_000
  }

  /** Time passed since `then_`, none if that lies ahead. */
  function Since(now: nat, earlier: nat): nat { if now < earlier then 0 else now - earlier }

  // ------------------------------------------------------------ the buckets

  type Buckets = b: seq<seq<nat>> | |b| == 7 witness seq(7, i => [])

  /** Old entries leave at the front, up to the first that is young enough. */
  function Evicted(bucket: seq<nat>, window: nat, now: nat): seq<nat> {
    if bucket != [] && Since(now, bucket[0]) >= window then Evicted(bucket[1..], window, now) else bucket
  }

  function EvictAll(b: Buckets, now: nat): Buckets {
    seq(7, i requires 0 <= i < 7 => Evicted(b[i], Window(CATEGORIES[i]), now))
  }

  function Admit(b: Buckets, c: RateCategory, now: nat): (r: (Buckets, bool)) {
    var bucket := Evicted(b[Index(c)], Window(c), now);
    if |bucket| >= Limit(c) then (b[Index(c) := bucket], false) else (b[Index(c) := bucket + [now]], true)
  }

  // ------------------------------------------------------------ the gateway

  type Permission = nat
  /** A 16-bit number. */
  type PluginId = id: nat | id < 0x1_0000

  /** What a request kind asks for: a permission, focus, and the bucket it counts under. */
  datatype RequestKind = RequestKind(requires_: Option<Permission>, needsFocus: bool, category: RateCategory)

  datatype Verdict = Admitted | PermissionDenied | NoFocus | RateLimited

  /** Either a request, with the focus holder of that moment, or an eviction of every bucket. */
  datatype Event = Request(kind: RequestKind, holder: Option<PluginId>, now: nat) | EvictEverything(now: nat)

  datatype Plugin = Plugin(id: PluginId, granted: set<Permission>)

  /** The verdict before the limiter is asked. */
  function Screened(p: Plugin, kind: RequestKind, holder: Option<PluginId>): Verdict {
    if kind.requires_.Some? && kind.requires_.value !in p.granted then PermissionDenied
    else if kind.needsFocus && holder != Some(p.id) then NoFocus
    else Admitted
  }

  function Handle(p: Plugin, b: Buckets, e: Event): (r: (Buckets, Verdict)) {
    match e
    case EvictEverything(now) => (EvictAll(b, now), Admitted)
    case Request(kind, holder, now) =>
      var screened := Screened(p, kind, holder);
      if screened != Admitted then (b, screened)
      else
        var (b', ok) := Admit(b, kind.category, now);
        (b', if ok then Admitted else RateLimited)
  }

  /**
   * What a request is told: denied exactly when a permission is required and missing; without focus exactly when that is
   * not so, focus is needed and this plugin does not hold it; otherwise what the limiter says.
   */
  ghost predicate ToldRightly(p: Plugin, b: Buckets, kind: RequestKind, holder: Option<PluginId>, now: nat, v: Verdict) {
    var granted := kind.requires_.None? || kind.requires_.value in p.granted;
    var focused := !kind.needsFocus || holder == Some(p.id);
    && (v == PermissionDenied <==> !granted)
    && (v == NoFocus <==> granted && !focused)
    && (v == Admitted <==> granted && focused && Admit(b, kind.category, now).1)
    && (v == RateLimited <==> granted && focused && !Admit(b, kind.category, now).1)
  }

  lemma RequestsAreToldRightly(p: Plugin, b: Buckets, kind: RequestKind, holder: Option<PluginId>, now: nat)
    ensures var (b', v) := Handle(p, b, Request(kind, holder, now));
            && ToldRightly(p, b, kind, holder, now, v)
            && (v == PermissionDenied || v == NoFocus ==> b' == b)
            && forall c :: c != kind.category ==> b'[Index(c)] == b[Index(c)]
  {
    forall c | c != kind.category ensures Index(c) != Index(kind.category) {
      assert CATEGORIES[Index(c)] == c;
    }
  }

  // -------------------------------------------- the reference: full history

  /** The admissions of a category young enough to count at `now`. */
  function Younger(history: seq<nat>, window: nat, now: nat): (r: seq<nat>)
    ensures |r| <= |history|
  {
    if history == [] then []
    else if Since(now, history[0]) < window then [history[0]] + Younger(history[1..], window, now)
    else Younger(history[1..], window, now)
  }

  /** Decide from all admissions so far, with no buckets and no eviction. */
  function Judge(p: Plugin, h: Buckets, e: Event): Verdict {
    match e
    case EvictEverything(_) => Admitted
    case Request(kind, holder, now) =>
      var granted := kind.requires_ == None || kind.requires_.value in p.granted;
      if !granted then PermissionDenied
      else if kind.needsFocus && (holder == None || holder.value != p.id) then NoFocus
      else if |Younger(h[Index(kind.category)], Window(kind.category), now)| >= Limit(kind.category) then RateLimited
      else Admitted
  }

  function Recorded(p: Plugin, h: Buckets, e: Event): Buckets {
    if e.Request? && Judge(p, h, e) == Admitted then
      h[Index(e.kind.category) := h[Index(e.kind.category)] + [e.now]]
    else h
  }

  // ------------------------------------------------------- buckets vs. history

  ghost predicate Sorted(s: seq<nat>) { forall i, j :: 0 <= i < j < |s| ==> s[i] <= s[j] }

  /** The bucket is what is left of the history after dropping entries that are too old at `last`. */
  ghost predicate Tracks(bucket: seq<nat>, history: seq<nat>, window: nat, last: nat) {
    && |bucket| <= |history| && bucket == history[|history| - |bucket|..]
    && Sorted(history) && (forall t :: t in history ==> t <= last)
    && forall i :: 0 <= i < |history| - |bucket| ==> Since(last, history[i]) >= window
  }

  lemma {:induction false} YoungerSkipsOld(history: seq<nat>, k: nat, window: nat, now: nat)
    requires k <= |history| && forall i :: 0 <= i < k ==> Since(now, history[i]) >= window
    ensures Younger(history, window, now) == Younger(history[k..], window, now)
  {
    if k > 0 {
      YoungerSkipsOld(history[1..], k - 1, window, now);
      assert history[1..][k - 1..] == history[k..];
    }
  }

  lemma {:induction false} AllYoung(history: seq<nat>, window: nat, now: nat)
    requires forall t :: t in history ==> Since(now, t) < window
    ensures Younger(history, window, now) == history
  {
    if history != [] {
      AllYoung(history[1..], window, now);
    }
  }

  /** `r` is what is left of the bucket, and everything before it is old. */
  ghost predicate LeftOf(bucket: seq<nat>, r: seq<nat>, window: nat, now: nat) {
    && |r| <= |bucket| && r == bucket[|bucket| - |r|..]
    && forall i :: 0 <= i < |bucket| - |r| ==> Since(now, bucket[i]) >= window
  }

  lemma LeftOfLonger(bucket: seq<nat>, r: seq<nat>, window: nat, now: nat)
    requires bucket != [] && LeftOf(bucket[1..], r, window, now) && Since(now, bucket[0]) >= window
    ensures LeftOf(bucket, r, window, now)
  {
    assert bucket[1..][|bucket| - 1 - |r|..] == bucket[|bucket| - |r|..];
    forall i | 0 <= i < |bucket| - |r| ensures Since(now, bucket[i]) >= window {
      if i > 0 {
        assert bucket[1..][i - 1] == bucket[i];
      }
    }
  }

  lemma LeftOfItself(bucket: seq<nat>, window: nat, now: nat)
    ensures LeftOf(bucket, bucket, window, now)
  {}

  /** If the first of a sorted bucket is young, all of it is. */
  lemma YoungFromTheFirst(bucket: seq<nat>, window: nat, now: nat)
    requires Sorted(bucket) && bucket != [] && Since(now, bucket[0]) < window
    ensures forall t :: t in bucket ==> Since(now, t) < window
  {
    forall t | t in bucket ensures Since(now, t) < window {
      var i :| 0 <= i < |bucket| && bucket[i] == t;
      assert bucket[0] <= bucket[i];
    }
  }

  /** On a sorted bucket, evicting from the front is keeping the young ones. */
  lemma {:induction false} EvictedIsYounger(bucket: seq<nat>, window: nat, now: nat)
    requires Sorted(bucket)
    ensures Evicted(bucket, window, now) == Younger(bucket, window, now)
    ensures LeftOf(bucket, Evicted(bucket, window, now), window, now)
  {
    hide LeftOf, Sorted, Since;
    if bucket == [] {
      LeftOfItself(bucket, window, now);
    } else if Since(now, bucket[0]) >= window {
      SortedTail(bucket, 1);
      EvictedIsYounger(bucket[1..], window, now);
      LeftOfLonger(bucket, Evicted(bucket[1..], window, now), window, now);
    } else {
      YoungFromTheFirst(bucket, window, now);
      AllYoung(bucket, window, now);
      LeftOfItself(bucket, window, now);
    }
  }

  /** Evicting every bucket keeps, in each, exactly the entries younger than its window. */
  lemma EvictAllKeepsTheYoung(b: Buckets, now: nat, c: RateCategory)
    requires Sorted(b[Index(c)])
    ensures EvictAll(b, now)[Index(c)] == Younger(b[Index(c)], Window(c), now)
  {
    EvictedIsYounger(b[Index(c)], Window(c), now);
  }

  lemma SortedTail(s: seq<nat>, k: nat)
    requires Sorted(s) && k <= |s|
    ensures Sorted(s[k..])
  {}

  lemma SortedThenLatest(s: seq<nat>, now: nat)
    requires Sorted(s) && forall t :: t in s ==> t <= now
    ensures Sorted(s + [now]) && forall t :: t in s + [now] ==> t <= now
  {
    var s' := s + [now];
    forall i, j | 0 <= i < j < |s'| ensures s'[i] <= s'[j] {
      assert s'[i] in s;
    }
  }

  /** A tail that dropped only old entries stays a tail after dropping more. */
  lemma ShorterTail(bucket: seq<nat>, history: seq<nat>, window: nat, now: nat, r: seq<nat>)
    requires Tracks(bucket, history, window, now)
    requires LeftOf(bucket, r, window, now)
    ensures Tracks(r, history, window, now)
  {
    var k := |history| - |bucket|;
    assert bucket[|bucket| - |r|..] == history[|history| - |r|..];
    forall i | 0 <= i < |history| - |r| ensures Since(now, history[i]) >= window {
      if i >= k {
        assert bucket[i - k] == history[i];
      }
    }
  }

  /** After eviction the bucket is exactly the admissions younger than the window, of all there ever were. */
  lemma EvictionKeepsTrack(bucket: seq<nat>, history: seq<nat>, window: nat, last: nat, now: nat)
    requires Tracks(bucket, history, window, last) && last <= now
    ensures Evicted(bucket, window, now) == Younger(history, window, now)
    ensures Tracks(Evicted(bucket, window, now), history, window, now)
  {
    hide Evicted, Younger, Sorted;
    var k := |history| - |bucket|;
    SortedTail(history, k);
    YoungerSkipsOld(history, k, window, now);
    EvictedIsYounger(bucket, window, now);
    LaterStillTracks(bucket, history, window, last, now);
    ShorterTail(bucket, history, window, now, Evicted(bucket, window, now));
  }

  lemma AdmissionKeepsTrack(bucket: seq<nat>, history: seq<nat>, window: nat, now: nat)
    requires Tracks(bucket, history, window, now)
    ensures Tracks(bucket + [now], history + [now], window, now)
  {
    hide Sorted;
    var (b, h) := (bucket + [now], history + [now]);
    SortedThenLatest(history, now);
    assert h[|h| - |b|..] == history[|history| - |bucket|..] + [now];
  }

  lemma LaterStillTracks(bucket: seq<nat>, history: seq<nat>, window: nat, last: nat, now: nat)
    requires Tracks(bucket, history, window, last) && last <= now
    ensures Tracks(bucket, history, window, now)
  {}

  ghost predicate AllTrack(b: Buckets, h: Buckets, last: nat) {
    forall c :: Tracks(b[Index(c)], h[Index(c)], Window(c), last)
  }

  lemma HandleRefines(p: Plugin, b: Buckets, h: Buckets, e: Event, last: nat)
    requires AllTrack(b, h, last) && last <= e.now
    ensures Handle(p, b, e).1 == Judge(p, h, e)
    ensures AllTrack(Handle(p, b, e).0, Recorded(p, h, e), e.now)
  {
    hide Tracks, Evicted, Younger;
    var (b', h') := (Handle(p, b, e).0, Recorded(p, h, e));
    if e.Request? {
      var c := e.kind.category;
      EvictionKeepsTrack(b[Index(c)], h[Index(c)], Window(c), last, e.now);
      AdmissionKeepsTrack(Evicted(b[Index(c)], Window(c), e.now), h[Index(c)], Window(c), e.now);
    }
    forall c ensures Tracks(b'[Index(c)], h'[Index(c)], Window(c), e.now) {
      LaterStillTracks(b[Index(c)], h[Index(c)], Window(c), last, e.now);
      EvictionKeepsTrack(b[Index(c)], h[Index(c)], Window(c), last, e.now);
      assert e.Request? && Index(c) == Index(e.kind.category) ==> c == e.kind.category;
    }
  }

  // ------------------------------------------------------------------- runs

  /** Time never goes back. */
  ghost predicate InOrder(events: seq<Event>, from: nat)
    decreases |events|
  {
    events == [] || (from <= events[0].now && InOrder(events[1..], events[0].now))
  }

  function Verdicts(p: Plugin, b: Buckets, events: seq<Event>): seq<Verdict>
    decreases |events|
  {
    if events == [] then [] else [Handle(p, b, events[0]).1] + Verdicts(p, Handle(p, b, events[0]).0, events[1..])
  }

  function Judgements(p: Plugin, h: Buckets, events: seq<Event>): seq<Verdict>
    decreases |events|
  {
    if events == [] then [] else [Judge(p, h, events[0])] + Judgements(p, Recorded(p, h, events[0]), events[1..])
  }

  function Final(p: Plugin, b: Buckets, events: seq<Event>): Buckets
    decreases |events|
  {
    if events == [] then b else Final(p, Handle(p, b, events[0]).0, events[1..])
  }

  function History(p: Plugin, h: Buckets, events: seq<Event>): Buckets
    decreases |events|
  {
    if events == [] then h else History(p, Recorded(p, h, events[0]), events[1..])
  }

  function LastTime(events: seq<Event>, from: nat): nat { if events == [] then from else events[|events| - 1].now }

  lemma {:induction false} RunRefines(p: Plugin, b: Buckets, h: Buckets, events: seq<Event>, last: nat)
    requires AllTrack(b, h, last) && InOrder(events, last)
    ensures Verdicts(p, b, events) == Judgements(p, h, events)
    ensures AllTrack(Final(p, b, events), History(p, h, events), LastTime(events, last))
    decreases |events|
  {
    hide AllTrack, Handle, Judge, Recorded;
    if events != [] {
      HandleRefines(p, b, h, events[0], last);
      RunRefines(p, Handle(p, b, events[0]).0, Recorded(p, h, events[0]), events[1..], events[0].now);
    }
  }

  function Fresh(): Buckets { seq(7, i => []) }

  lemma FreshTracks(last: nat)
    ensures AllTrack(Fresh(), Fresh(), last)
  {}

  /**
   * In every run whose clock never goes back, each verdict is the one the full history of admissions gives, and a
   * bucket evicted at the end is exactly the admissions of its category that are younger than its window.
   */
  lemma LimiterIsExact(p: Plugin, events: seq<Event>, c: RateCategory, now: nat)
    requires InOrder(events, 0) && LastTime(events, 0) <= now
    ensures Verdicts(p, Fresh(), events) == Judgements(p, Fresh(), events)
    ensures Evicted(Final(p, Fresh(), events)[Index(c)], Window(c), now)
            == Younger(History(p, Fresh(), events)[Index(c)], Window(c), now)
  {
    FreshTracks(0);
    RunRefines(p, Fresh(), Fresh(), events, 0);
    EvictionKeepsTrack(Final(p, Fresh(), events)[Index(c)], History(p, Fresh(), events)[Index(c)], Window(c),
                       LastTime(events, 0), now);
  }

  // ---------------------------------------------------------------- spacing

  /** Any `limit + 1` admissions in a row span at least a window. */
  ghost predicate Spaced(history: seq<nat>, limit: nat, window: nat) {
    forall i, j :: 0 <= i <= j < |history| && j - i == limit ==> history[j] >= history[i] + window
  }

  ghost predicate AllSpaced(h: Buckets, last: nat) {
    forall c :: Sorted(h[Index(c)]) && (forall t :: t in h[Index(c)] ==> t <= last)
                && Spaced(h[Index(c)], Limit(c), Window(c))
  }

  /** A sorted history has `limit` young admissions as soon as its `limit`-th from the end is young. */
  lemma {:induction false} YoungTail(history: seq<nat>, limit: nat, window: nat, now: nat)
    requires Sorted(history) && 0 < limit <= |history| && Since(now, history[|history| - limit]) < window
    ensures |Younger(history, window, now)| >= limit
  {
    if limit == |history| {
      AllYoung(history, window, now);
    } else {
      assert history[1..][|history| - 1 - limit] == history[|history| - limit];
      YoungTail(history[1..], limit, window, now);
    }
  }

  lemma RecordedStaysSpaced(p: Plugin, h: Buckets, e: Event, last: nat)
    requires AllSpaced(h, last) && last <= e.now
    ensures AllSpaced(Recorded(p, h, e), e.now)
  {
    hide Younger;
    var h' := Recorded(p, h, e);
    if e.Request? && Judge(p, h, e) == Admitted {
      var c := e.kind.category;
      var s := h[Index(c)];
      if Limit(c) <= |s| && Since(e.now, s[|s| - Limit(c)]) < Window(c) {
        YoungTail(s, Limit(c), Window(c), e.now);
        assert false;
      }
      OneMoreSpaced(s, e.now, Limit(c), Window(c));
    }
    forall c ensures Sorted(h'[Index(c)]) && (forall t :: t in h'[Index(c)] ==> t <= e.now)
                     && Spaced(h'[Index(c)], Limit(c), Window(c)) {
      assert e.Request? && Index(c) == Index(e.kind.category) ==> c == e.kind.category;
    }
  }

  lemma OneMoreSpaced(s: seq<nat>, now: nat, limit: nat, window: nat)
    requires Sorted(s) && (forall t :: t in s ==> t <= now) && Spaced(s, limit, window) && limit > 0
    requires limit <= |s| ==> Since(now, s[|s| - limit]) >= window
    requires window > 0
    ensures Sorted(s + [now]) && Spaced(s + [now], limit, window) && forall t :: t in s + [now] ==> t <= now
  {
    SortedThenLatest(s, now);
  }

  lemma {:induction false} HistoryIsSpaced(p: Plugin, h: Buckets, events: seq<Event>, last: nat)
    requires AllSpaced(h, last) && InOrder(events, last)
    ensures AllSpaced(History(p, h, events), LastTime(events, last))
    decreases |events|
  {
    hide AllSpaced, Recorded;
    if events != [] {
      RecordedStaysSpaced(p, h, events[0], last);
      HistoryIsSpaced(p, Recorded(p, h, events[0]), events[1..], events[0].now);
    }
  }

  /** Admissions `i` and `i + limit` of a category are at least one window apart, in every run. */
  lemma AdmissionsAreSpaced(p: Plugin, events: seq<Event>, c: RateCategory, i: nat)
    requires InOrder(events, 0) && i + Limit(c) < |History(p, Fresh(), events)[Index(c)]|
    ensures var h := History(p, Fresh(), events)[Index(c)]; h[i + Limit(c)] >= h[i] + Window(c)
  {
    assert AllSpaced(Fresh(), 0);
    HistoryIsSpaced(p, Fresh(), events, 0);
  }

  // ------------------------------------------------- what leaves no trace

  /** `fewer` is `events` without some evictions and some requests that were refused, for whatever reason. */
  ghost predicate Thinned(p: Plugin, h: Buckets, events: seq<Event>, fewer: seq<Event>)
    decreases |events|
  {
    if events == [] then fewer == []
    else
      || (fewer != [] && fewer[0] == events[0] && Thinned(p, Recorded(p, h, events[0]), events[1..], fewer[1..]))
      || ((events[0].EvictEverything? || Judge(p, h, events[0]) != Admitted) && Thinned(p, h, events[1..], fewer))
  }

  /** The requests admitted, in order. */
  function Admissions(p: Plugin, b: Buckets, events: seq<Event>): seq<Event>
    decreases |events|
  {
    if events == [] then []
    else
      var rest := Admissions(p, Handle(p, b, events[0]).0, events[1..]);
      if events[0].Request? && Handle(p, b, events[0]).1 == Admitted then [events[0]] + rest else rest
  }

  /** Whatever was refused, and whatever was evicted, could be left out without changing one admission. */
  lemma {:induction false} RefusalsLeaveNoTrace(p: Plugin, h: Buckets, b: Buckets, b': Buckets, last: nat, last': nat,
                                                events: seq<Event>, fewer: seq<Event>)
    requires AllTrack(b, h, last) && AllTrack(b', h, last')
    requires InOrder(events, last) && InOrder(fewer, last') && Thinned(p, h, events, fewer)
    ensures Admissions(p, b, events) == Admissions(p, b', fewer)
    decreases |events|
  {
    hide AllTrack, Handle, Judge;
    if events != [] {
      var e := events[0];
      HandleRefines(p, b, h, e, last);
      if fewer != [] && fewer[0] == e && Thinned(p, Recorded(p, h, e), events[1..], fewer[1..]) {
        HandleRefines(p, b', h, e, last');
        RefusalsLeaveNoTrace(p, Recorded(p, h, e), Handle(p, b, e).0, Handle(p, b', e).0, e.now, e.now,
                             events[1..], fewer[1..]);
      } else {
        RefusalsLeaveNoTrace(p, h, Handle(p, b, e).0, b', e.now, last', events[1..], fewer);
      }
    }
  }

  /** From a new gateway: running only part of the refused requests and evictions admits the same requests. */
  lemma RefusedCallsCostNothing(p: Plugin, events: seq<Event>, fewer: seq<Event>)
    requires InOrder(events, 0) && InOrder(fewer, 0) && Thinned(p, Fresh(), events, fewer)
    ensures Admissions(p, Fresh(), events) == Admissions(p, Fresh(), fewer)
  {
    FreshTracks(0);
    RefusalsLeaveNoTrace(p, Fresh(), Fresh(), Fresh(), 0, 0, events, fewer);
  }

  // ------------------------------------------------------------------ bursts

  /** `n` calls at one moment. */
  function Burst(kind: RequestKind, holder: Option<PluginId>, now: nat, n: nat): (r: seq<Event>)
    ensures |r| == n && forall i :: 0 <= i < n ==> r[i] == Request(kind, holder, now)
  {
    seq(n, i => Request(kind, holder, now))
  }

  function SameTime(now: nat, k: nat): (r: seq<nat>)
    ensures |r| == k && forall i :: 0 <= i < k ==> r[i] == now
  {
    seq(k, i => now)
  }

  lemma {:induction false} EvictedTogether(now: nat, k: nat, later: nat, window: nat)
    ensures Evicted(SameTime(now, k), window, later) == if Since(later, now) >= window then [] else SameTime(now, k)
  {
    if k > 0 && Since(later, now) >= window {
      assert SameTime(now, k)[1..] == SameTime(now, k - 1);
      EvictedTogether(now, k - 1, later, window);
    }
  }

  lemma {:induction false} BurstFrom(p: Plugin, b: Buckets, kind: RequestKind, holder: Option<PluginId>, now: nat, n: nat,
                                     k: nat)
    requires Screened(p, kind, holder) == Admitted
    requires b[Index(kind.category)] == SameTime(now, k) && k <= Limit(kind.category)
    ensures |Verdicts(p, b, Burst(kind, holder, now, n))| == n
    ensures forall i :: 0 <= i < n ==>
              Verdicts(p, b, Burst(kind, holder, now, n))[i]
              == if k + i < Limit(kind.category) then Admitted else RateLimited
    ensures Final(p, b, Burst(kind, holder, now, n))[Index(kind.category)]
            == SameTime(now, Min(k + n, Limit(kind.category)))
    decreases n
  {
    if n > 0 {
      var c, events := kind.category, Burst(kind, holder, now, n);
      EvictedTogether(now, k, now, Window(c));
      assert events[1..] == Burst(kind, holder, now, n - 1);
      assert SameTime(now, k) + [now] == SameTime(now, k + 1);
      var (b', k') := (Handle(p, b, events[0]).0, if k < Limit(c) then k + 1 else k);
      assert b'[Index(c)] == SameTime(now, k');
      BurstFrom(p, b', kind, holder, now, n - 1, k');
      var rest := Verdicts(p, b', events[1..]);
      var all := [Handle(p, b, events[0]).1] + rest;
      assert Verdicts(p, b, events) == all;
      hide Verdicts, Handle, Evicted;
      forall i | 0 <= i < n ensures all[i] == if k + i < Limit(c) then Admitted else RateLimited {
        if i > 0 {
          assert all[i] == rest[i - 1];
        }
      }
    }
  }

  /**
   * On a new gateway exactly the first hundred calls of a category at one moment are admitted, six notifications; and
   * once they are used up the next one is admitted exactly a second later, a notification a minute later.
   */
  lemma BurstsAreCut(p: Plugin, kind: RequestKind, holder: Option<PluginId>, now: nat, n: nat, i: nat, later: nat)
    requires kind.requires_.None? || kind.requires_.value in p.granted
    requires !kind.needsFocus || holder == Some(p.id)
    requires i < n && now <= later
    ensures var (quota, pause) := if kind.category == Notify then (6, 60_000) else (100, 1_000);
            var events := Burst(kind, holder, now, n);
            && |Verdicts(p, Fresh(), events)| == n
            && (Verdicts(p, Fresh(), events)[i] == Admitted <==> i < quota)
            && (n >= quota ==>
                  (Handle(p, Final(p, Fresh(), events), Request(kind, holder, later)).1 == Admitted <==>
                     later >= now + pause))
  {
    var events := Burst(kind, holder, now, n);
    assert Fresh()[Index(kind.category)] == SameTime(now, 0);
    BurstFrom(p, Fresh(), kind, holder, now, n, 0);
    var k := Min(n, Limit(kind.category));
    EvictedTogether(now, k, later, Window(kind.category));
    assert Final(p, Fresh(), events)[Index(kind.category)] == SameTime(now, k);
    assert Screened(p, kind, holder) == Admitted;
    assert Evicted(SameTime(now, k), Window(kind.category), later)
           == if later >= now + Window(kind.category) then [] else SameTime(now, k);
    hide Final, Evicted, Verdicts;
  }
}

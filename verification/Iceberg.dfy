// smasher/iceberg.py: hidden orders, seen as levels that keep being refilled.
//
// Icebergs says when a level signals over the full sequence of snapshots of one side; the detector
// keeps one trimmed deque of sizes per price.

module Icebergs {
  import opened Types
  import opened Windows
  import opened Averages

  datatype Config = Config(window: real, threshold: int, minSize: real)

  datatype Snapshot = Snapshot(levels: seq<Level>, at: real)

  datatype Signal = Signal(price: real, replenishments: nat, average: real)

  predicate Lists(levels: seq<Level>, price: real) {
    exists i :: 0 <= i < |levels| && levels[i].price == price
  }

  /** The sizes worth recording that a snapshot lists for a price. */
  function Sightings(c: Config, levels: seq<Level>, price: real, at: real): seq<Stamped<real>> {
    if levels == [] then []
    else
      var l := levels[|levels| - 1];
      Sightings(c, levels[..|levels| - 1], price, at)
        + if l.price == price && l.size > c.minSize then [Stamped(l.size, at)] else []
  }

  /** The sizes recorded for a price since a snapshot last left it out. */
  function SinceAbsent(c: Config, snaps: seq<Snapshot>, price: real): seq<Stamped<real>> {
    if snaps == [] then []
    else
      var s := snaps[|snaps| - 1];
      if !Lists(s.levels, price) then []
      else SinceAbsent(c, snaps[..|snaps| - 1], price) + Sightings(c, s.levels, price, s.at)
  }

  /** How often a size is larger than the one before. */
  function Rises(s: seq<Stamped<real>>): nat {
    if |s| < 2 then 0
    else Rises(s[..|s| - 1]) + if s[|s| - 1].item > s[|s| - 2].item then 1 else 0
  }

  /** The sizes of a price that are in the window when level k of a new snapshot is looked at. */
  function Seen(c: Config, snaps: seq<Snapshot>, s: Snapshot, k: nat): seq<Stamped<real>>
    requires k < |s.levels|
  {
    var p := s.levels[k].price;
    InWindow(SinceAbsent(c, snaps, p) + Sightings(c, s.levels[..k], p, s.at), s.at - c.window)
  }

  /** Level k of a new snapshot signals: it is worth recording, its size rises, and with it there
      are enough rises in the window. */
  predicate Fires(c: Config, snaps: seq<Snapshot>, s: Snapshot, k: nat)
    requires k < |s.levels|
  {
    var w, l := Seen(c, snaps, s, k), s.levels[k];
    && l.size > c.minSize
    && w != [] && w[|w| - 1].item < l.size
    && Rises(w + [Stamped(l.size, s.at)]) >= c.threshold
  }

  function SignalOf(c: Config, snaps: seq<Snapshot>, s: Snapshot, k: nat): Signal
    requires k < |s.levels|
  {
    var w := Seen(c, snaps, s, k) + [Stamped(s.levels[k].size, s.at)];
    Signal(s.levels[k].price, Rises(w), Mean(Items(w)))
  }

  /** The signals of the first k levels of a new snapshot. */
  function Signals(c: Config, snaps: seq<Snapshot>, s: Snapshot, k: nat): seq<Signal>
    requires k <= |s.levels|
  {
    if k == 0 then []
    else Signals(c, snaps, s, k - 1) + if Fires(c, snaps, s, k - 1) then [SignalOf(c, snaps, s, k - 1)] else []
  }

  // ── What a signal means ──

  /** There is a signal for every level that fires, and no other. */
  lemma {:induction false} SignalsAreFires(c: Config, snaps: seq<Snapshot>, s: Snapshot, k: nat, g: Signal)
    requires k <= |s.levels|
    ensures g in Signals(c, snaps, s, k)
            <==> exists j: nat :: j < k && Fires(c, snaps, s, j) && g == SignalOf(c, snaps, s, j)
  {
    hide Fires, SignalOf;
    if k > 0 {
      SignalsAreFires(c, snaps, s, k - 1, g);
    }
  }

  predicate RiseAt(s: seq<Stamped<real>>, i: nat) {
    0 < i < |s| && s[i].item > s[i - 1].item
  }

  ghost function RisesIn(s: seq<Stamped<real>>): set<nat> {
    set i: nat | i < |s| && RiseAt(s, i)
  }

  /** The count is of the places where the size is larger than just before. */
  lemma {:induction false} RisesAreCounted(s: seq<Stamped<real>>)
    ensures Rises(s) == |RisesIn(s)|
  {
    if |s| >= 2 {
      var n := |s| - 1;
      RisesAreCounted(s[..n]);
      forall i: nat | i < n
        ensures RiseAt(s[..n], i) == RiseAt(s, i)
      {
      }
      assert RisesIn(s) == RisesIn(s[..n]) + if RiseAt(s, n) then {n} else {};
    } else {
      assert RisesIn(s) == {};
    }
  }

  /** A level fires when it is large enough to be recorded, larger than at its last sighting in the window, and
      with it the sizes in the window rise often enough. */
  lemma FiresMeans(c: Config, snaps: seq<Snapshot>, s: Snapshot, k: nat)
    requires k < |s.levels|
    ensures var w, l := Seen(c, snaps, s, k), s.levels[k];
      Fires(c, snaps, s, k) <==>
        && c.minSize < l.size && w != [] && w[|w| - 1].item < l.size
        && c.threshold <= |RisesIn(w + [Stamped(l.size, s.at)])|
  {
    RisesAreCounted(Seen(c, snaps, s, k) + [Stamped(s.levels[k].size, s.at)]);
    hide Seen, Rises, RisesIn;
  }

  lemma AverageOf(sizes: seq<real>)
    requires sizes != []
    ensures Times(Mean(sizes), |sizes| as real) == Sum(sizes)
  {
    MeanTimesCount(sizes);
  }

  /** A signal tells the price, the number of rises, and the mean of the sizes in the window. */
  lemma SignalMeans(c: Config, snaps: seq<Snapshot>, s: Snapshot, k: nat)
    requires k < |s.levels|
    ensures var w, g := Seen(c, snaps, s, k) + [Stamped(s.levels[k].size, s.at)], SignalOf(c, snaps, s, k);
      && g.price == s.levels[k].price && g.replenishments == |RisesIn(w)|
      && Times(g.average, |w| as real) == Sum(seq(|w|, i requires 0 <= i < |w| => w[i].item))
  {
    var w := Seen(c, snaps, s, k) + [Stamped(s.levels[k].size, s.at)];
    RisesAreCounted(w);
    assert Items(w) == seq(|w|, i requires 0 <= i < |w| => w[i].item);
    AverageOf(Items(w));
    hide Seen, Rises, RisesIn, Mean, Sum, Items, Times;
  }

  lemma {:induction false} RisesNeedEntries(s: seq<Stamped<real>>)
    ensures s == [] || Rises(s) <= |s| - 1
  {
    if |s| >= 2 {
      RisesNeedEntries(s[..|s| - 1]);
    }
  }

  lemma {:induction false} FlatNeverRises(s: seq<Stamped<real>>)
    requires forall i :: 0 < i < |s| ==> s[i].item <= s[i - 1].item
    ensures Rises(s) == 0
  {
    if |s| >= 2 {
      FlatNeverRises(s[..|s| - 1]);
    }
  }

  /** Level j of snapshot i is a recorded sighting of the price with this size and time. */
  predicate SightingAt(c: Config, snaps: seq<Snapshot>, price: real, e: Stamped<real>, i: nat, j: nat) {
    && i < |snaps| && j < |snaps[i].levels|
    && snaps[i].levels[j] == Level(price, e.item) && e.item > c.minSize && snaps[i].at == e.at
  }

  /** Snapshots i and later all list the price. */
  predicate ListedFrom(snaps: seq<Snapshot>, price: real, i: nat) {
    forall k :: i <= k < |snaps| ==> Lists(snaps[k].levels, price)
  }

  /** What is recorded of a price is exactly what the snapshots show since one last left it out. */
  lemma {:induction false} RecordedMeans(c: Config, snaps: seq<Snapshot>, price: real, e: Stamped<real>)
    ensures e in SinceAbsent(c, snaps, price) <==>
            exists i: nat, j: nat :: SightingAt(c, snaps, price, e, i, j) && ListedFrom(snaps, price, i)
  {
    if snaps != [] {
      var n := |snaps| - 1;
      RecordedMeans(c, snaps[..n], price, e);
      SightingsMean(c, snaps[n].levels, price, snaps[n].at, e);
      if e in SinceAbsent(c, snaps, price) {
        if e in Sightings(c, snaps[n].levels, price, snaps[n].at) {
          var j: nat :| j < |snaps[n].levels| && snaps[n].levels[j] == Level(price, e.item);
          assert SightingAt(c, snaps, price, e, n, j) && ListedFrom(snaps, price, n);
        } else {
          var i: nat, j: nat :| SightingAt(c, snaps[..n], price, e, i, j) && ListedFrom(snaps[..n], price, i);
          ListedLonger(snaps, price, i);
          assert SightingAt(c, snaps, price, e, i, j) && ListedFrom(snaps, price, i);
        }
      }
      if i: nat, j: nat :| SightingAt(c, snaps, price, e, i, j) && ListedFrom(snaps, price, i) {
        assert Lists(snaps[n].levels, price);
        if i < n {
          assert SightingAt(c, snaps[..n], price, e, i, j) && ListedFrom(snaps[..n], price, i);
        }
      }
    }
  }

  lemma ListedLonger(snaps: seq<Snapshot>, price: real, i: nat)
    requires snaps != [] && ListedFrom(snaps[..|snaps| - 1], price, i) && Lists(snaps[|snaps| - 1].levels, price)
    ensures ListedFrom(snaps, price, i)
  {
    forall k | i <= k < |snaps|
      ensures Lists(snaps[k].levels, price)
    {
      if k < |snaps| - 1 {
        assert snaps[..|snaps| - 1][k] == snaps[k];
      }
    }
  }

  lemma {:induction false} SightingsMean(c: Config, levels: seq<Level>, price: real, at: real, e: Stamped<real>)
    ensures e in Sightings(c, levels, price, at) <==>
            e.at == at && e.item > c.minSize && exists j: nat :: j < |levels| && levels[j] == Level(price, e.item)
  {
    if levels != [] {
      var n := |levels| - 1;
      SightingsMean(c, levels[..n], price, at, e);
      if j: nat :| j < |levels| && levels[j] == Level(price, e.item) {
        if j < n {
          assert levels[..n][j] == levels[j];
        }
      }
    }
  }

  /** A level only signals after at least as many earlier in-window sightings as the threshold. */
  lemma SignalNeedsSightings(c: Config, snaps: seq<Snapshot>, s: Snapshot, k: nat)
    requires k < |s.levels| && Fires(c, snaps, s, k)
    ensures |Seen(c, snaps, s, k)| >= c.threshold
  {
    RisesNeedEntries(Seen(c, snaps, s, k) + [Stamped(s.levels[k].size, s.at)]);
  }

  // ── Consumed, then refilled ──

  predicate DropAt(s: seq<Stamped<real>>, i: nat) {
    0 < i < |s| && s[i].item < s[i - 1].item
  }

  /** The size fell since it last rose, or since the first sighting. */
  predicate Consumed(s: seq<Stamped<real>>) {
    |s| >= 2 && !RiseAt(s, |s| - 1) && (DropAt(s, |s| - 1) || Consumed(s[..|s| - 1]))
  }

  /** How often a size is refilled as documented: it rises after it was consumed. */
  function Refills(s: seq<Stamped<real>>): nat {
    if |s| < 2 then 0
    else
      var front := s[..|s| - 1];
      Refills(front) + if RiseAt(s, |s| - 1) && Consumed(front) then 1 else 0
  }

  /** Every rise comes after the size was consumed. */
  ghost predicate RisesAreRefills(s: seq<Stamped<real>>) {
    forall i: nat :: RiseAt(s, i) ==> Consumed(s[..i])
  }

  /** The count of rises is never below that of refills, and is that count if and only if the size was
      consumed before every rise. */
  lemma {:induction false} RisesCountRefillsWhen(s: seq<Stamped<real>>)
    ensures Refills(s) <= Rises(s)
    ensures Refills(s) == Rises(s) <==> RisesAreRefills(s)
  {
    if |s| >= 2 {
      var n := |s| - 1;
      var front := s[..n];
      RisesCountRefillsWhen(front);
      hide Refills, Rises, Consumed;
      RefillStep(s);
      RisesStep(s);
      forall i: nat | i < n
        ensures RiseAt(front, i) == RiseAt(s, i) && front[..i] == s[..i]
      {
      }
      if RisesAreRefills(front) && (RiseAt(s, n) ==> Consumed(front)) {
        forall i: nat | RiseAt(s, i)
          ensures Consumed(s[..i])
        {
          if i < n {
            assert RiseAt(front, i);
          }
        }
      }
      if RisesAreRefills(s) {
        forall i: nat | RiseAt(front, i)
          ensures Consumed(front[..i])
        {
          assert RiseAt(s, i);
        }
      }
    }
  }

  lemma RefillStep(s: seq<Stamped<real>>)
    requires |s| >= 2
    ensures Refills(s) == Refills(s[..|s| - 1]) + if RiseAt(s, |s| - 1) && Consumed(s[..|s| - 1]) then 1 else 0
  {
  }

  lemma RisesStep(s: seq<Stamped<real>>)
    requires |s| >= 2
    ensures Rises(s) == Rises(s[..|s| - 1]) + if RiseAt(s, |s| - 1) then 1 else 0
  {
  }

  ghost predicate Drops(s: seq<Stamped<real>>) {
    exists i: nat :: DropAt(s, i)
  }

  // Without a drop a sequence ends no lower than it begins, and higher if it ever rises.
  lemma {:induction false} NoDropGrows(s: seq<Stamped<real>>)
    requires s != [] && !Drops(s)
    ensures s[0].item <= s[|s| - 1].item
    ensures Rises(s) > 0 ==> s[0].item < s[|s| - 1].item
  {
    if |s| >= 2 {
      var n := |s| - 1;
      var front := s[..n];
      forall i: nat
        ensures !DropAt(front, i)
      {
        assert !DropAt(s, i);
      }
      assert !DropAt(s, n);
      NoDropGrows(front);
    }
  }

  /** n equal steps from a to b. */
  function Stair(a: real, b: real, n: nat, at: real): seq<Stamped<real>>
    decreases n
  {
    if n == 0 then [Stamped(a, at)] else Stair(a, b - (b - a) / n as real, n - 1, at) + [Stamped(b, at)]
  }

  lemma StepDown(a: real, b: real, n: nat)
    requires n > 0 && a < b
    ensures var step := (b - a) / n as real; 0.0 < step && if n == 1 then b - step == a else a < b - step
  {
    var step := (b - a) / n as real;
    assert step * n as real == b - a;
    if n > 1 {
      assert step * (n - 1) as real == b - a - step;
      assert 0.0 < step * (n - 1) as real;
    }
  }

  lemma HigherAppended(front: seq<Stamped<real>>, e: Stamped<real>)
    requires front != [] && front[|front| - 1].item < e.item && !Drops(front)
    ensures !Drops(front + [e]) && Rises(front + [e]) == Rises(front) + 1
  {
    var s := front + [e];
    assert s[..|front|] == front;
    RisesStep(s);
    hide Rises;
    forall i: nat
      ensures !DropAt(s, i)
    {
      assert !DropAt(front, i);
    }
  }

  lemma {:induction false} StairRises(a: real, b: real, n: nat, at: real)
    requires if n == 0 then a == b else a < b
    ensures var s := Stair(a, b, n, at);
      |s| == n + 1 && s[0].item == a && s[n].item == b && !Drops(s) && Rises(s) == n
    decreases n
  {
    if n == 0 {
      assert forall i: nat :: !DropAt([Stamped(a, at)], i);
    } else {
      var step := (b - a) / n as real;
      StepDown(a, b, n);
      StairRises(a, b - step, n - 1, at);
      assert Stair(a, b, n, at) == Stair(a, b - step, n - 1, at) + [Stamped(b, at)];
      hide Stair, Rises, Drops;
      HigherAppended(Stair(a, b - step, n - 1, at), Stamped(b, at));
    }
  }

  /** A window that begins with one size and ends with another. */
  ghost predicate Spans(s: seq<Stamped<real>>, first: real, last: real) {
    s != [] && s[0].item == first && s[|s| - 1].item == last
  }

  /** From the first and the last size of the window, and a positive number of rises between them, one can tell
      that the size was consumed in between if and only if the last is no larger than the first. */
  lemma RisesImplyDropWhen(first: real, last: real, n: nat)
    requires n > 0
    ensures (forall s :: Spans(s, first, last) && Rises(s) >= n ==> Drops(s)) <==> last <= first
  {
    hide Rises, Drops, Stair;
    if last <= first {
      forall s | Spans(s, first, last) && Rises(s) >= n
        ensures Drops(s)
      {
        if !Drops(s) {
          NoDropGrows(s);
          assert false;
        }
      }
    } else {
      StairRises(first, last, n, 0.0);
      assert Spans(Stair(first, last, n, 0.0), first, last);
    }
  }

  /** Sizes 1, 2, 3, 4 signal at a threshold of three although nothing was consumed. */
  lemma GrowthSignals()
    ensures var c := Config(30.0, 3, 0.0);
      var snaps := [Snapshot([Level(99.0, 1.0)], 0.0), Snapshot([Level(99.0, 2.0)], 1.0),
        Snapshot([Level(99.0, 3.0)], 2.0)];
      var s := Snapshot([Level(99.0, 4.0)], 3.0);
      Fires(c, snaps, s, 0) && !Drops(Seen(c, snaps, s, 0) + [Stamped(4.0, 3.0)])
  {
    var c, w, s := Config(30.0, 3, 0.0), GrowingSizes(), Snapshot([Level(99.0, 4.0)], 3.0);
    SeenGrowing();
    assert !Drops([Stamped(1.0, 0.0)]) by {
      assert forall i: nat :: !DropAt([Stamped(1.0, 0.0)], i);
    }
    hide Seen, Drops;
    HigherAppended([Stamped(1.0, 0.0)], Stamped(2.0, 1.0));
    HigherAppended([Stamped(1.0, 0.0)] + [Stamped(2.0, 1.0)], Stamped(3.0, 2.0));
    HigherAppended(w, Stamped(4.0, 3.0));
  }

  ghost function GrowingSizes(): seq<Stamped<real>> {
    [Stamped(1.0, 0.0)] + [Stamped(2.0, 1.0)] + [Stamped(3.0, 2.0)]
  }

  lemma SeenGrowing()
    ensures var c := Config(30.0, 3, 0.0);
      var snaps := [Snapshot([Level(99.0, 1.0)], 0.0), Snapshot([Level(99.0, 2.0)], 1.0),
        Snapshot([Level(99.0, 3.0)], 2.0)];
      Seen(c, snaps, Snapshot([Level(99.0, 4.0)], 3.0), 0) == GrowingSizes()
  {
    var c, sizes := Config(30.0, 3, 0.0), GrowingSizes();
    var a, b, d := Snapshot([Level(99.0, 1.0)], 0.0), Snapshot([Level(99.0, 2.0)], 1.0),
      Snapshot([Level(99.0, 3.0)], 2.0);
    OneSighting(c, [], 99.0, 1.0, 0.0);
    OneSighting(c, [a], 99.0, 2.0, 1.0);
    OneSighting(c, [a, b], 99.0, 3.0, 2.0);
    assert [] + [a] == [a] && [a] + [b] == [a, b] && [a, b] + [d] == [a, b, d];
    assert SinceAbsent(c, [a, b, d], 99.0) == sizes;
    hide SinceAbsent;
    AllInWindow(sizes, -27.0);
    assert Sightings(c, [Level(99.0, 4.0)][..0], 99.0, 3.0) == [];
    assert sizes + [] == sizes;
  }

  lemma OneSighting(c: Config, before: seq<Snapshot>, price: real, size: real, at: real)
    requires size > c.minSize
    ensures SinceAbsent(c, before + [Snapshot([Level(price, size)], at)], price)
      == SinceAbsent(c, before, price) + [Stamped(size, at)]
  {
    var levels := [Level(price, size)];
    assert (before + [Snapshot(levels, at)])[..|before|] == before;
    assert levels[0].price == price && Lists(levels, price);
    assert levels[..0] == [] && Sightings(c, levels, price, at) == [Stamped(size, at)];
  }

  // ── The deque per price ──

  type Tracker = map<real, seq<Stamped<real>>>

  function Tracked(t: Tracker, price: real): seq<Stamped<real>> {
    if price in t then t[price] else []
  }

  /** A deque stands for a history of which nothing is later than now. */
  ghost predicate Stands(d: seq<Stamped<real>>, history: seq<Stamped<real>>, cutoff: real, now: real) {
    SameFrom(d, history, cutoff) && forall e :: e in d ==> e.at <= now
  }

  ghost predicate Tracks(c: Config, t: Tracker, snaps: seq<Snapshot>, now: real) {
    forall p: real :: Stands(Tracked(t, p), SinceAbsent(c, snaps, p), now - c.window, now)
  }

  /** Between two levels of a snapshot. */
  ghost predicate TracksPart(c: Config, t: Tracker, snaps: seq<Snapshot>, s: Snapshot, k: nat)
    requires k <= |s.levels|
  {
    forall p: real ::
      Stands(Tracked(t, p), SinceAbsent(c, snaps, p) + Sightings(c, s.levels[..k], p, s.at), s.at - c.window, s.at)
  }

  lemma TracksLater(c: Config, t: Tracker, snaps: seq<Snapshot>, s: Snapshot, now: real)
    requires Tracks(c, t, snaps, now) && now <= s.at
    ensures TracksPart(c, t, snaps, s, 0)
  {
    hide SinceAbsent, InWindow;
    forall p: real
      ensures Stands(Tracked(t, p), SinceAbsent(c, snaps, p) + Sightings(c, s.levels[..0], p, s.at),
                     s.at - c.window, s.at)
    {
      assert Stands(Tracked(t, p), SinceAbsent(c, snaps, p), now - c.window, now);
      SameFromLater(Tracked(t, p), SinceAbsent(c, snaps, p), now - c.window, s.at - c.window);
      assert SinceAbsent(c, snaps, p) + Sightings(c, s.levels[..0], p, s.at) == SinceAbsent(c, snaps, p);
    }
  }

  lemma SightingsNext(c: Config, levels: seq<Level>, k: nat, price: real, at: real)
    requires k < |levels|
    ensures Sightings(c, levels[..k + 1], price, at) == Sightings(c, levels[..k], price, at)
      + if levels[k].price == price && levels[k].size > c.minSize then [Stamped(levels[k].size, at)] else []
  {
    assert levels[..k + 1][..k] == levels[..k];
  }

  // A level too small to record changes nothing.
  lemma SkipsLevel(c: Config, t: Tracker, snaps: seq<Snapshot>, s: Snapshot, k: nat)
    requires k < |s.levels| && TracksPart(c, t, snaps, s, k) && s.levels[k].size <= c.minSize
    ensures TracksPart(c, t, snaps, s, k + 1)
  {
    hide SinceAbsent, Stands;
    forall p: real
      ensures Stands(Tracked(t, p), SinceAbsent(c, snaps, p) + Sightings(c, s.levels[..k + 1], p, s.at),
                     s.at - c.window, s.at)
    {
      SightingsNext(c, s.levels, k, p, s.at);
      assert Sightings(c, s.levels[..k + 1], p, s.at) == Sightings(c, s.levels[..k], p, s.at);
      assert Stands(Tracked(t, p), SinceAbsent(c, snaps, p) + Sightings(c, s.levels[..k], p, s.at),
                    s.at - c.window, s.at);
    }
  }

  // A recorded level extends its own deque only.
  lemma RecordsLevel(c: Config, t: Tracker, snaps: seq<Snapshot>, s: Snapshot, k: nat)
    requires k < |s.levels| && TracksPart(c, t, snaps, s, k) && s.levels[k].size > c.minSize
    ensures var p, cutoff := s.levels[k].price, s.at - c.window;
      && InTimeOrder(Tracked(t, p)) && InWindow(Tracked(t, p), cutoff) == Seen(c, snaps, s, k)
      && TracksPart(c, t[p := Seen(c, snaps, s, k) + [Stamped(s.levels[k].size, s.at)]], snaps, s, k + 1)
  {
    hide SinceAbsent, Sightings, InWindow, SameFrom;
    var price, cutoff, e := s.levels[k].price, s.at - c.window, Stamped(s.levels[k].size, s.at);
    var w := Seen(c, snaps, s, k);
    var t' := t[price := w + [e]];
    ExtendsDeque(c, t, snaps, s, k);
    forall p: real
      ensures Stands(Tracked(t', p), SinceAbsent(c, snaps, p) + Sightings(c, s.levels[..k + 1], p, s.at), cutoff, s.at)
    {
      SightingsNext(c, s.levels, k, p, s.at);
      if p != price {
        assert Sightings(c, s.levels[..k + 1], p, s.at) == Sightings(c, s.levels[..k], p, s.at);
        assert Tracked(t', p) == Tracked(t, p);
      }
    }
  }

  lemma ExtendsDeque(c: Config, t: Tracker, snaps: seq<Snapshot>, s: Snapshot, k: nat)
    requires k < |s.levels| && TracksPart(c, t, snaps, s, k) && s.levels[k].size > c.minSize
    ensures var p, cutoff, w := s.levels[k].price, s.at - c.window, Seen(c, snaps, s, k);
      && InTimeOrder(Tracked(t, p)) && InWindow(Tracked(t, p), cutoff) == w
      && Stands(w + [Stamped(s.levels[k].size, s.at)],
                SinceAbsent(c, snaps, p) + Sightings(c, s.levels[..k + 1], p, s.at), cutoff, s.at)
  {
    hide SinceAbsent, Sightings, InWindow;
    var p, cutoff, w := s.levels[k].price, s.at - c.window, Seen(c, snaps, s, k);
    var history := SinceAbsent(c, snaps, p) + Sightings(c, s.levels[..k], p, s.at);
    var e := Stamped(s.levels[k].size, s.at);
    assert Stands(Tracked(t, p), history, cutoff, s.at);
    SameFromCut(Tracked(t, p), history, cutoff);
    InWindowMembers(Tracked(t, p), cutoff);
    SameFromNext(w, history, cutoff, e);
    SightingsNext(c, s.levels, k, p, s.at);
    assert history + [e] == SinceAbsent(c, snaps, p) + Sightings(c, s.levels[..k + 1], p, s.at);
  }

  // Dropping the prices that the snapshot leaves out completes it.
  lemma DropsAbsent(c: Config, t: Tracker, t': Tracker, snaps: seq<Snapshot>, s: Snapshot)
    requires TracksPart(c, t, snaps, s, |s.levels|)
    requires t' == map p | p in t && Lists(s.levels, p) :: t[p]
    ensures Tracks(c, t', snaps + [s], s.at)
  {
    assert s.levels[..|s.levels|] == s.levels && (snaps + [s])[..|snaps|] == snaps;
    forall p: real
      ensures Stands(Tracked(t', p), SinceAbsent(c, snaps + [s], p), s.at - c.window, s.at)
    {
      assert Stands(Tracked(t, p), SinceAbsent(c, snaps, p) + Sightings(c, s.levels, p, s.at), s.at - c.window, s.at);
    }
  }

  method CountRises(s: seq<Stamped<real>>) returns (n: nat)
    ensures n == Rises(s)
  {
    n := 0;
    var i := 1;
    while i < |s|
      invariant 1 <= i && (i <= |s| || s == [])
      invariant s != [] ==> n == Rises(s[..i])
      invariant s == [] ==> n == 0
    {
      assert s[..i + 1][..i] == s[..i];
      if s[i].item > s[i - 1].item {
        n := n + 1;
      }
      i := i + 1;
    }
    assert s != [] ==> s[..i] == s;
  }

  lemma ListsNext(levels: seq<Level>, k: nat)
    requires k < |levels|
    ensures forall p: real :: Lists(levels[..k + 1], p) <==> Lists(levels[..k], p) || p == levels[k].price
  {
    forall p: real
      ensures Lists(levels[..k + 1], p) <==> Lists(levels[..k], p) || p == levels[k].price
    {
      if i :| 0 <= i < k && levels[..k][i].price == p {
        assert levels[..k + 1][i].price == p;
      }
      assert levels[..k + 1][k] == levels[k];
    }
  }

  lemma Inhabited(s: set<real>)
    requires s != {}
    ensures exists p :: p in s
  {
    if forall p :: p !in s {
      assert false;
    }
  }

  /** Deletes the trackers of the prices not seen. */
  method DropUnseen(tracker: Tracker, seen: set<real>, ghost levels: seq<Level>) returns (t: Tracker)
    requires forall p: real :: p in seen <==> Lists(levels, p)
    ensures t == map p | p in tracker && Lists(levels, p) :: tracker[p]
  {
    hide Lists;
    t := tracker;
    var prices := tracker.Keys;
    while prices != {}
      invariant prices <= tracker.Keys
      invariant t == map p | p in tracker && (p in prices || p in seen) :: tracker[p]
      decreases |prices|
    {
      Inhabited(prices);
      var price: real :| price in prices;
      prices := prices - {price};
      if price !in seen {
        t := t - {price};
      }
    }
  }

  class IcebergDetector {
    const config: Config
    var bidLevels: Tracker
    var askLevels: Tracker

    // All the snapshots of either side since the last reset.
    ghost var bidSnaps: seq<Snapshot>
    ghost var askSnaps: seq<Snapshot>

    ghost predicate Valid(now: real)
      reads this
    {
      Tracks(config, bidLevels, bidSnaps, now) && Tracks(config, askLevels, askSnaps, now)
    }

    constructor (c: Config, ghost now: real)
      ensures config == c && bidSnaps == [] && askSnaps == [] && Valid(now)
    {
      config := c;
      bidLevels, askLevels, bidSnaps, askSnaps := map[], map[], [], [];
    }

    // One recorded level: cut its deque, look for a rise, append.
    method ProcessLevel(tracker: Tracker, ghost snaps: seq<Snapshot>, ghost s: Snapshot, ghost k: nat, l: Level,
                        ts: real)
      returns (t: Tracker, signal: Option<Signal>)
      requires k < |s.levels| && l == s.levels[k] && ts == s.at && l.size > config.minSize
      requires TracksPart(config, tracker, snaps, s, k)
      ensures TracksPart(config, t, snaps, s, k + 1)
      ensures signal == if Fires(config, snaps, s, k) then Some(SignalOf(config, snaps, s, k)) else None
    {
      hide InWindow, TracksPart, Seen, Mean, Rises;
      RecordsLevel(config, tracker, snaps, s, k);
      var history := Trim(Tracked(tracker, l.price), ts - config.window);
      var replenished := history != [] && history[|history| - 1].item < l.size;
      history := history + [Stamped(l.size, ts)];
      t, signal := tracker[l.price := history], None;
      if replenished {
        var n := CountRises(history);
        if n >= config.threshold {
          signal := Some(Signal(l.price, n, Mean(Items(history))));
        }
      }
    }

    /** One side of a snapshot: exactly the levels that fire signal, and afterwards the deques stand
        for the snapshots with this one. */
    method ProcessSide(levels: seq<Level>, tracker: Tracker, ts: real, ghost snaps: seq<Snapshot>, ghost now: real)
      returns (t: Tracker, signals: seq<Signal>)
      requires Tracks(config, tracker, snaps, now) && now <= ts
      ensures Tracks(config, t, snaps + [Snapshot(levels, ts)], ts)
      ensures signals == Signals(config, snaps, Snapshot(levels, ts), |levels|)
    {
      hide TracksPart, Tracks, Fires, SignalOf;
      ghost var s := Snapshot(levels, ts);
      TracksLater(config, tracker, snaps, s, now);
      t, signals := tracker, [];
      var seen: set<real> := {};
      var k := 0;
      while k < |levels|
        invariant 0 <= k <= |levels| && TracksPart(config, t, snaps, s, k)
        invariant signals == Signals(config, snaps, s, k)
        invariant forall p: real :: p in seen <==> Lists(levels[..k], p)
      {
        ListsNext(levels, k);
        seen := seen + {levels[k].price};
        if levels[k].size <= config.minSize {
          SkipsLevel(config, t, snaps, s, k);
          assert !Fires(config, snaps, s, k) by { TooSmall(config, snaps, s, k); }
        } else {
          var signal;
          t, signal := ProcessLevel(t, snaps, s, k, levels[k], ts);
          if signal.Some? {
            signals := signals + [signal.value];
          }
        }
        k := k + 1;
      }
      assert levels[..k] == levels;
      ghost var all := t;
      t := DropUnseen(t, seen, levels);
      DropsAbsent(config, all, t, snaps, s);
    }

    /** The signals of a snapshot, bids first. */
    method Update(bids: seq<Level>, asks: seq<Level>, ts: real, ghost now: real) returns (signals: seq<Signal>)
      requires Valid(now) && now <= ts
      modifies this
      ensures bidSnaps == old(bidSnaps) + [Snapshot(bids, ts)] && askSnaps == old(askSnaps) + [Snapshot(asks, ts)]
      ensures Valid(ts)
      ensures signals == Signals(config, old(bidSnaps), Snapshot(bids, ts), |bids|)
                         + Signals(config, old(askSnaps), Snapshot(asks, ts), |asks|)
    {
      hide Tracks, Signals;
      var more;
      bidLevels, signals := ProcessSide(bids, bidLevels, ts, bidSnaps, now);
      askLevels, more := ProcessSide(asks, askLevels, ts, askSnaps, now);
      bidSnaps, askSnaps := bidSnaps + [Snapshot(bids, ts)], askSnaps + [Snapshot(asks, ts)];
      signals := signals + more;
    }

    method Reset(ghost now: real)
      modifies this
      ensures bidSnaps == [] && askSnaps == [] && Valid(now)
    {
      bidLevels, askLevels, bidSnaps, askSnaps := map[], map[], [], [];
    }
  }

  lemma TooSmall(c: Config, snaps: seq<Snapshot>, s: Snapshot, k: nat)
    requires k < |s.levels| && s.levels[k].size <= c.minSize
    ensures !Fires(c, snaps, s, k)
  {
  }
}

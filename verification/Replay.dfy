// replay/engine.py, replay/metrics.py and markout/toxic.py: historical snapshots driven
// through a strategy, with simulated fills, markouts and a toxicity count.

module Toxicity {
  import opened Types
  import opened Averages
  import opened MarkoutLog
  import opened MarkoutRecording

  datatype Thresholds = Thresholds(adverseBps: real, largeMultiple: real, reversalBps: real, window: nat)

  /** The sizes of the last `window` records. */
  function WindowSizes(history: seq<Record>, window: nat): seq<real> {
    if history == [] || window == 0 then []
    else WindowSizes(history[..|history| - 1], window - 1) + [history[|history| - 1].fillSize]
  }

  predicate AdverseMarkout(t: Thresholds, r: Record) {
    MarkoutBps(r) <= t.adverseBps
  }

  predicate LargeSize(t: Thresholds, sizes: seq<real>, r: Record) {
    |sizes| >= 4 && Mean(sizes) > 0.0 && r.fillSize >= Mean(sizes) * t.largeMultiple
  }

  predicate FastReversal(t: Thresholds, r: Record) {
    1 in r.midsAfter && r.midAtFill > 0.0
    && Abs(r.midsAfter[1] - r.midAtFill) / r.midAtFill * 10000.0 >= t.reversalBps
  }

  /** How far a mid lies to the side where the markout of a fill gets worse. */
  function Worse(r: Record, mid: real): real {
    if r.side == Buy then mid - r.midAtFill else r.midAtFill - mid
  }

  /** The mid moved against us, as documented for a fast reversal. */
  predicate MovedAgainst(t: Thresholds, r: Record) {
    1 in r.midsAfter && r.midAtFill > 0.0 && Worse(r, r.midsAfter[1]) / r.midAtFill * 10000.0 >= t.reversalBps
  }

  predicate MovedInFavour(t: Thresholds, r: Record) {
    1 in r.midsAfter && r.midAtFill > 0.0 && -Worse(r, r.midsAfter[1]) / r.midAtFill * 10000.0 >= t.reversalBps
  }

  /** A fast reversal is a move against us or in our favour; it means the documented one if and only if a move
      in our favour does not do it alone. */
  lemma ReversalIsAgainstUsWhen(t: Thresholds, r: Record)
    ensures FastReversal(t, r) <==> MovedAgainst(t, r) || MovedInFavour(t, r)
    ensures (FastReversal(t, r) <==> MovedAgainst(t, r)) <==> (MovedInFavour(t, r) ==> MovedAgainst(t, r))
  {
    if 1 in r.midsAfter && r.midAtFill > 0.0 {
      var x := Worse(r, r.midsAfter[1]);
      OtherSign(x, r.midAtFill);
      assert Abs(r.midsAfter[1] - r.midAtFill) == if x < 0.0 then -x else x;
    }
  }

  lemma OtherSign(x: real, y: real)
    requires 0.0 < y
    ensures (-x) / y == -(x / y) && (x < 0.0 ==> x / y < 0.0) && (0.0 <= x ==> 0.0 <= x / y)
  {
    if x < 0.0 {
      assert 0.0 < (-x) / y;
    }
  }

  /** A buy after which the mid first falls by a percent, and half a minute later is a percent up: adverse, and
      a fast reversal that was in our favour. */
  lemma FavourableReversal(t: Thresholds)
    requires t.adverseBps == -20.0 && t.reversalBps == 10.0
    ensures var r := Record("1", Buy, 100.0, 1.0, 100.0, map[1 := 99.0, 5 := 100.0, 30 := 101.0], 0.0);
      AdverseMarkout(t, r) && FastReversal(t, r) && !MovedAgainst(t, r)
  {
  }

  /** The last record of a history is toxic when all three signals fire, its size counted in the window. */
  predicate LastIsToxic(t: Thresholds, history: seq<Record>)
    requires history != []
  {
    var r := history[|history| - 1];
    AdverseMarkout(t, r) && LargeSize(t, WindowSizes(history, t.window), r) && FastReversal(t, r)
  }

  /** The fill is that large against the mean of the sizes: its size times their number is the multiple of their
      total or more. */
  ghost predicate LargeAmong(t: Thresholds, sizes: seq<real>, size: real) {
    |sizes| >= 4 && 0.0 < Sum(sizes) && size * |sizes| as real >= t.largeMultiple * Sum(sizes)
  }

  /** The first mid after the fill lies the threshold, in hundredths of a percent, away from the mid at the fill. */
  ghost predicate MovedFast(t: Thresholds, r: Record) {
    1 in r.midsAfter && 0.0 < r.midAtFill
    && Abs(r.midsAfter[1] - r.midAtFill) * 10000.0 >= t.reversalBps * r.midAtFill
  }

  /** A fill is toxic exactly when its markout is bad enough, its size large among the last ones, itself included,
      and the mid moved fast; the last ones are at most `window`, oldest first. */
  lemma ToxicMeans(t: Thresholds, history: seq<Record>)
    requires history != []
    ensures var r, n := history[|history| - 1], if |history| <= t.window then |history| else t.window;
      var sizes := seq(n, i requires 0 <= i < n => history[|history| - n + i].fillSize);
      LastIsToxic(t, history) <==> MarkoutBps(r) <= t.adverseBps && LargeAmong(t, sizes, r.fillSize) && MovedFast(t, r)
  {
    var r, n := history[|history| - 1], if |history| <= t.window then |history| else t.window;
    WindowIsLast(history, t.window);
    var sizes := WindowSizes(history, t.window);
    assert sizes == seq(n, i requires 0 <= i < n => history[|history| - n + i].fillSize);
    LargeMeans(t, sizes, r);
    FastMeans(t, r);
    hide WindowSizes, LargeAmong, MovedFast, LargeSize, FastReversal, MarkoutBps;
  }

  lemma {:induction false} WindowIsLast(history: seq<Record>, window: nat)
    ensures var n := if |history| <= window then |history| else window;
      WindowSizes(history, window) == seq(n, i requires 0 <= i < n => history[|history| - n + i].fillSize)
  {
    if history != [] && window > 0 {
      var front := history[..|history| - 1];
      WindowIsLast(front, window - 1);
      var n := if |history| <= window then |history| else window;
      forall i | 0 <= i < n
        ensures WindowSizes(history, window)[i] == history[|history| - n + i].fillSize
      {
        assert i < n - 1 ==> front[|front| - (n - 1) + i] == history[|history| - n + i];
      }
    }
  }

  lemma LargeMeans(t: Thresholds, sizes: seq<real>, r: Record)
    ensures LargeSize(t, sizes, r) <==> LargeAmong(t, sizes, r.fillSize)
  {
    if sizes != [] {
      MeanTimesCount(sizes);
      hide Mean, Sum;
      var m, n, f := Mean(sizes), |sizes| as real, t.largeMultiple;
      if r.fillSize >= m * f {
        assert 0.0 <= (r.fillSize - m * f) * n;
      } else {
        assert 0.0 < (m * f - r.fillSize) * n;
      }
      assert m * f * n == f * Sum(sizes);
    }
  }

  lemma FastMeans(t: Thresholds, r: Record)
    ensures FastReversal(t, r) <==> MovedFast(t, r)
  {
    if 1 in r.midsAfter && r.midAtFill > 0.0 {
      var x, y := Abs(r.midsAfter[1] - r.midAtFill), r.midAtFill;
      var bps := x / y * 10000.0;
      assert bps * y == x * 10000.0;
      if bps >= t.reversalBps {
        assert 0.0 <= (bps - t.reversalBps) * y;
      } else {
        assert 0.0 < (t.reversalBps - bps) * y;
      }
    }
  }

  function ToxicCount(t: Thresholds, history: seq<Record>): nat {
    if history == [] then 0
    else ToxicCount(t, history[..|history| - 1]) + if LastIsToxic(t, history) then 1 else 0
  }

  lemma {:induction false} ToxicAtMostAll(t: Thresholds, history: seq<Record>)
    ensures ToxicCount(t, history) <= |history|
  {
    if history != [] {
      ToxicAtMostAll(t, history[..|history| - 1]);
    }
  }

  lemma {:induction false} WindowLength(history: seq<Record>, window: nat)
    ensures |WindowSizes(history, window)| == if |history| <= window then |history| else window
  {
    if history != [] && window > 0 {
      WindowLength(history[..|history| - 1], window - 1);
    }
  }

  // A bounded deque: appending to a full one drops the oldest entry.
  lemma {:induction false} WindowSlides(history: seq<Record>, r: Record, window: nat)
    ensures var w, w' := WindowSizes(history, window), WindowSizes(history + [r], window);
      w' == if window == 0 then [] else if |w| < window then w + [r.fillSize] else w[1..] + [r.fillSize]
  {
    assert (history + [r])[..|history|] == history;
    WindowLength(history, window);
    if window > 0 {
      OneShorter(history, window);
    }
  }

  lemma {:induction false} OneShorter(history: seq<Record>, window: nat)
    requires window > 0
    ensures WindowSizes(history, window - 1) ==
      if |history| < window then WindowSizes(history, window) else WindowSizes(history, window)[1..]
    ensures |history| >= window ==> |WindowSizes(history, window)| == window
  {
    WindowLength(history, window);
    if history != [] {
      var front := history[..|history| - 1];
      if window > 1 {
        OneShorter(front, window - 1);
        WindowLength(front, window - 1);
      }
    }
  }

  /** Below four fills in the window nothing is toxic. */
  lemma {:induction false} FewFillsAreNotToxic(t: Thresholds, history: seq<Record>)
    requires |history| < 4 || t.window < 4
    ensures ToxicCount(t, history) == 0
  {
    if history != [] {
      FewFillsAreNotToxic(t, history[..|history| - 1]);
      WindowLength(history, t.window);
    }
  }

  class ToxicDetector {
    const limits: Thresholds
    var fillSizes: seq<real>
    var toxicCount: nat
    var totalCount: nat

    ghost var history: seq<Record>

    ghost predicate Valid()
      reads this
    {
      && fillSizes == WindowSizes(history, limits.window)
      && totalCount == |history|
      && toxicCount == ToxicCount(limits, history)
    }

    constructor (t: Thresholds)
      ensures Valid() && limits == t && history == []
    {
      limits := t;
      fillSizes, toxicCount, totalCount, history := [], 0, 0, [];
    }

    method Evaluate(record: Record) returns (isToxic: bool)
      requires Valid()
      modifies this
      ensures Valid() && history == old(history) + [record]
      ensures isToxic <==> LastIsToxic(limits, history)
      ensures toxicCount == old(toxicCount) + if isToxic then 1 else 0
    {
      WindowSlides(history, record, limits.window);
      assert (history + [record])[..|history|] == history;
      totalCount := totalCount + 1;
      if |fillSizes| < limits.window {
        fillSizes := fillSizes + [record.fillSize];
      } else if limits.window > 0 {
        fillSizes := fillSizes[1..] + [record.fillSize];
      }
      history := history + [record];
      isToxic := AdverseMarkout(limits, record) && LargeSize(limits, fillSizes, record) && FastReversal(limits, record);
      if isToxic {
        toxicCount := toxicCount + 1;
      }
    }

    method Reset()
      modifies this
      ensures Valid() && history == []
    {
      fillSizes, toxicCount, totalCount, history := [], 0, 0, [];
    }
  }
}

module Metrics {
  import opened Types
  import opened Averages

  datatype FillRecord = FillRecord(timestamp: real, side: Side, price: real, size: real)

  function Signed(f: FillRecord): real {
    if f.side == Buy then f.size else -f.size
  }

  /** Bought minus sold. */
  function Net(fills: seq<FillRecord>): real {
    if fills == [] then 0.0 else Net(fills[..|fills| - 1]) + Signed(fills[|fills| - 1])
  }

  /** The largest absolute inventory along the way. */
  function Peak(fills: seq<FillRecord>): real {
    if fills == [] then 0.0
    else
      var before, now := Peak(fills[..|fills| - 1]), Abs(Net(fills));
      if now > before then now else before
  }

  function TotalSize(fills: seq<FillRecord>, side: Side): real {
    if fills == [] then 0.0
    else
      var f := fills[|fills| - 1];
      TotalSize(fills[..|fills| - 1], side) + if f.side == side then f.size else 0.0
  }

  /** Net inventory is total bought minus total sold. */
  lemma {:induction false} NetIsBuysMinusSells(fills: seq<FillRecord>)
    ensures Net(fills) == TotalSize(fills, Buy) - TotalSize(fills, Sell)
  {
    if fills != [] {
      NetIsBuysMinusSells(fills[..|fills| - 1]);
    }
  }

  /** The peak is the maximum of |inventory| over all prefixes: an upper bound, and attained. */
  lemma {:induction false} PeakIsMaximum(fills: seq<FillRecord>)
    ensures forall n :: 0 <= n <= |fills| ==> Abs(Net(fills[..n])) <= Peak(fills)
    ensures exists n :: 0 <= n <= |fills| && Abs(Net(fills[..n])) == Peak(fills)
  {
    var m := |fills|;
    assert fills[..m] == fills;
    if m == 0 {
      assert Abs(Net(fills[..0])) == Peak(fills);
    } else {
      var front := fills[..m - 1];
      PeakIsMaximum(front);
      forall n | 0 <= n < m
        ensures fills[..n] == front[..n]
      {
      }
      var k :| 0 <= k <= m - 1 && Abs(Net(front[..k])) == Peak(front);
      assert Abs(Net(fills[..k])) == Peak(front);
      assert Abs(Net(fills[..m])) == Abs(Net(fills));
    }
  }

  // ── The summary ──

  datatype Summary = Summary(
    snapshots: nat, fills: nat, buyVolume: real, sellVolume: real, buyCount: nat, sellCount: nat,
    netInventory: real, avgBuy: real, avgSell: real, avgMarkout: real, toxicCount: nat, peak: real)

  function OfSide(fills: seq<FillRecord>, side: Side): seq<FillRecord> {
    if fills == [] then []
    else
      var f := fills[|fills| - 1];
      OfSide(fills[..|fills| - 1], side) + if f.side == side then [f] else []
  }

  function Paid(f: FillRecord): real {
    f.price * f.size
  }

  function Volume(fills: seq<FillRecord>): real {
    if fills == [] then 0.0 else Volume(fills[..|fills| - 1]) + Paid(fills[|fills| - 1])
  }

  function SizeOf(fills: seq<FillRecord>): real {
    if fills == [] then 0.0 else SizeOf(fills[..|fills| - 1]) + fills[|fills| - 1].size
  }

  /** Money, size and inventory add up over the fills; one fill is worth its price times its size. */
  lemma {:induction false} TotalsAdd(a: seq<FillRecord>, b: seq<FillRecord>, f: FillRecord, side: Side)
    ensures Volume(a + b) == Volume(a) + Volume(b) && Volume([f]) == f.price * f.size
    ensures SizeOf(a + b) == SizeOf(a) + SizeOf(b) && SizeOf([f]) == f.size
    ensures TotalSize(a + b, side) == TotalSize(a, side) + TotalSize(b, side)
    ensures TotalSize([f], side) == if f.side == side then f.size else 0.0
  {
    assert [f][..0] == [];
    if b == [] {
      assert a + b == a;
    } else {
      var n := |b| - 1;
      assert (a + b)[..|a + b| - 1] == a + b[..n];
      hide Paid;
      TotalsAdd(a, b[..n], f, side);
    }
  }

  /** The average price of some fills; None is a division by zero. */
  function AveragePrice(fills: seq<FillRecord>): Option<real> {
    if fills == [] then Some(0.0) else if SizeOf(fills) == 0.0 then None else Some(Volume(fills) / SizeOf(fills))
  }

  ghost predicate NothingToDivideBy(fills: seq<FillRecord>, side: Side) {
    OfSide(fills, side) != [] && TotalSize(fills, side) == 0.0
  }

  function ToxicRatio(s: Summary): real {
    if s.fills == 0 then 0.0 else s.toxicCount as real / s.fills as real
  }

  lemma {:induction false} OfSideMembers(fills: seq<FillRecord>, side: Side, f: FillRecord)
    ensures f in OfSide(fills, side) <==> f in fills && f.side == side
  {
    if fills != [] {
      OfSideMembers(fills[..|fills| - 1], side, f);
      assert fills == fills[..|fills| - 1] + [fills[|fills| - 1]];
    }
  }

  lemma OfSideStep(fills: seq<FillRecord>, side: Side)
    requires fills != []
    ensures OfSide(fills, side) ==
      OfSide(fills[..|fills| - 1], side) + if fills[|fills| - 1].side == side then [fills[|fills| - 1]] else []
  {
  }

  /** Between them the two sides have every fill, each once. */
  lemma {:induction false} SidesPartition(fills: seq<FillRecord>)
    ensures |OfSide(fills, Buy)| + |OfSide(fills, Sell)| == |fills|
    ensures multiset(OfSide(fills, Buy)) + multiset(OfSide(fills, Sell)) == multiset(fills)
  {
    if fills != [] {
      var front, f := fills[..|fills| - 1], fills[|fills| - 1];
      SidesPartition(front);
      OfSideStep(fills, Buy);
      OfSideStep(fills, Sell);
      hide OfSide;
      var buys, sells := OfSide(front, Buy), OfSide(front, Sell);
      assert fills == front + [f];
      assert multiset(fills) == multiset(front) + multiset{f};
      if f.side == Buy {
        assert multiset(OfSide(fills, Buy)) == multiset(buys) + multiset{f};
        assert OfSide(fills, Sell) == sells;
      } else {
        assert multiset(OfSide(fills, Sell)) == multiset(sells) + multiset{f};
        assert OfSide(fills, Buy) == buys;
      }
    } else {
      assert OfSide(fills, Buy) == [] && OfSide(fills, Sell) == [];
    }
  }

  lemma {:induction false} SizeOfSide(fills: seq<FillRecord>, side: Side)
    ensures SizeOf(OfSide(fills, side)) == TotalSize(fills, side)
  {
    if fills != [] {
      var front, f := fills[..|fills| - 1], fills[|fills| - 1];
      SizeOfSide(front, side);
      var own := OfSide(front, side);
      assert (own + [f])[..|own|] == own;
      assert own + [] == own;
    }
  }

  /** Fills of positive size at prices from lo to hi. */
  ghost predicate PricedWithin(fills: seq<FillRecord>, lo: real, hi: real) {
    forall i :: 0 <= i < |fills| ==> lo <= fills[i].price <= hi && 0.0 < fills[i].size
  }

  lemma TimesPlus(x: real, total: real, size: real, price: real)
    requires 0.0 < size
    ensures Times(x, total + size) == Times(x, total) + Times(x, size)
    ensures x <= price ==> Times(x, size) <= Times(price, size)
  {
  }

  lemma {:induction false} VolumeWithin(fills: seq<FillRecord>, lo: real, hi: real)
    requires PricedWithin(fills, lo, hi)
    ensures Times(lo, SizeOf(fills)) <= Volume(fills) <= Times(hi, SizeOf(fills))
    ensures 0.0 <= SizeOf(fills) && (fills != [] ==> 0.0 < SizeOf(fills))
  {
    if fills != [] {
      var front, f := fills[..|fills| - 1], fills[|fills| - 1];
      VolumeWithin(front, lo, hi);
      assert Paid(f) == Times(f.price, f.size);
      var total := SizeOf(front);
      hide Times, Paid;
      TimesPlus(lo, total, f.size, f.price);
      TimesPlus(f.price, total, f.size, hi);
      TimesPlus(hi, total, f.size, hi);
    }
  }

  /** An average times the size is the money; without fills it is 0. */
  lemma AverageMeans(fills: seq<FillRecord>)
    requires AveragePrice(fills).Some?
    ensures fills != [] ==> AveragePrice(fills).value * SizeOf(fills) == Volume(fills)
    ensures fills == [] ==> AveragePrice(fills).value == 0.0
  {
  }

  lemma AverageTimesSize(fills: seq<FillRecord>, side: Side)
    requires AveragePrice(OfSide(fills, side)).Some?
    ensures Times(AveragePrice(OfSide(fills, side)).value, TotalSize(fills, side)) == Volume(OfSide(fills, side))
  {
    AverageMeans(OfSide(fills, side));
    SizeOfSide(fills, side);
  }

  lemma AverageMarkout(samples: seq<real>)
    ensures Times(if samples == [] then 0.0 else Mean(samples), |samples| as real) == Sum(samples)
  {
    if samples != [] {
      MeanTimesCount(samples);
    }
  }

  /** With positive sizes there is an average, and it lies within the range of the prices. */
  lemma AverageIsWithin(fills: seq<FillRecord>, lo: real, hi: real)
    requires fills != [] && PricedWithin(fills, lo, hi)
    ensures AveragePrice(fills).Some? && lo <= AveragePrice(fills).value <= hi
  {
    VolumeWithin(fills, lo, hi);
    DivideBounds(Volume(fills), SizeOf(fills), lo, hi);
  }

  lemma DivideBounds(x: real, size: real, lo: real, hi: real)
    requires 0.0 < size && Times(lo, size) <= x <= Times(hi, size)
    ensures lo <= x / size <= hi
  {
    var a := x / size;
    assert a * size == x;
    assert a - lo == (x - Times(lo, size)) / size;
    assert hi - a == (Times(hi, size) - x) / size;
  }

  /** The toxic ratio is a share exactly when no more fills were judged toxic than there are. */
  lemma RatioIsShare(s: Summary)
    requires s.fills > 0
    ensures 0.0 <= ToxicRatio(s) && Times(ToxicRatio(s), s.fills as real) == s.toxicCount as real
    ensures ToxicRatio(s) <= 1.0 <==> s.toxicCount <= s.fills
  {
    ShareOf(ToxicRatio(s), s.fills as real, s.toxicCount as real);
    hide Times;
  }

  lemma ShareOf(r: real, n: real, t: real)
    requires 0.0 < n && 0.0 <= t && r == t / n
    ensures 0.0 <= r && Times(r, n) == t && (r <= 1.0 <==> t <= n)
  {
    assert r * n == t;
    if r <= 1.0 {
      assert 0.0 <= (1.0 - r) * n;
    } else {
      assert 0.0 < (r - 1.0) * n;
    }
  }

  class MetricsCollector {
    var fills: seq<FillRecord>
    var markoutSamples: seq<real>
    var toxicFillCount: nat
    var peakInventory: real
    var inventory: real
    var snapshotCount: nat

    ghost predicate Valid()
      reads this
    {
      inventory == Net(fills) && peakInventory == Peak(fills) && toxicFillCount <= |markoutSamples|
    }

    constructor ()
      ensures Valid() && fills == [] && markoutSamples == [] && toxicFillCount == 0 && snapshotCount == 0
    {
      fills, markoutSamples, toxicFillCount := [], [], 0;
      peakInventory, inventory, snapshotCount := 0.0, 0.0, 0;
    }

    method RecordSnapshot()
      requires Valid()
      modifies this`snapshotCount
      ensures Valid() && snapshotCount == old(snapshotCount) + 1
    {
      snapshotCount := snapshotCount + 1;
    }

    method RecordFill(side: Side, price: real, size: real, timestamp: real)
      requires Valid()
      modifies this`fills, this`inventory, this`peakInventory
      ensures Valid() && fills == old(fills) + [FillRecord(timestamp, side, price, size)]
    {
      ghost var before := fills;
      fills := fills + [FillRecord(timestamp, side, price, size)];
      assert fills[..|fills| - 1] == before;
      if side == Buy {
        inventory := inventory + size;
      } else {
        inventory := inventory - size;
      }
      if Abs(inventory) > peakInventory {
        peakInventory := Abs(inventory);
      }
    }

    method RecordMarkout(bps: real, isToxic: bool)
      requires Valid()
      modifies this`markoutSamples, this`toxicFillCount
      ensures Valid() && markoutSamples == old(markoutSamples) + [bps]
      ensures toxicFillCount == old(toxicFillCount) + if isToxic then 1 else 0
    {
      markoutSamples := markoutSamples + [bps];
      if isToxic {
        toxicFillCount := toxicFillCount + 1;
      }
    }

    /** The summary s is the one of the collected fills and samples. */
    ghost predicate Describes(s: Summary)
      reads this
    {
      && s.snapshots == snapshotCount && s.fills == |fills| == s.buyCount + s.sellCount
      && s.netInventory == TotalSize(fills, Buy) - TotalSize(fills, Sell) && s.peak == Peak(fills)
      && s.buyCount == |OfSide(fills, Buy)| && s.sellCount == |OfSide(fills, Sell)|
      && s.buyVolume == Volume(OfSide(fills, Buy)) && s.sellVolume == Volume(OfSide(fills, Sell))
      && Some(s.avgBuy) == AveragePrice(OfSide(fills, Buy)) && Some(s.avgSell) == AveragePrice(OfSide(fills, Sell))
      && s.avgMarkout == (if markoutSamples == [] then 0.0 else Mean(markoutSamples))
      && s.toxicCount == toxicFillCount
    }

    /** None when the fills of one side have no size in total. */
    method Summarize() returns (r: Option<Summary>)
      requires Valid()
      ensures r.None? <==> NothingToDivideBy(fills, Buy) || NothingToDivideBy(fills, Sell)
      ensures r.Some? ==> Describes(r.value)
      ensures r.Some? ==> Times(r.value.avgBuy, TotalSize(fills, Buy)) == r.value.buyVolume
      ensures r.Some? ==> Times(r.value.avgSell, TotalSize(fills, Sell)) == r.value.sellVolume
      ensures r.Some? ==> Times(r.value.avgMarkout, |markoutSamples| as real) == Sum(markoutSamples)
    {
      NetIsBuysMinusSells(fills);
      SidesPartition(fills);
      SizeOfSide(fills, Buy);
      SizeOfSide(fills, Sell);
      var buys, sells := OfSide(fills, Buy), OfSide(fills, Sell);
      var avgBuy, avgSell := AveragePrice(buys), AveragePrice(sells);
      if avgBuy.None? || avgSell.None? {
        return None;
      }
      hide AveragePrice, SizeOf, Volume, TotalSize, Times;
      AverageTimesSize(fills, Buy);
      AverageTimesSize(fills, Sell);
      var avgMarkout := if markoutSamples == [] then 0.0 else Mean(markoutSamples);
      AverageMarkout(markoutSamples);
      r := Some(Summary(snapshotCount, |fills|, Volume(buys), Volume(sells), |buys|, |sells|, inventory,
                        avgBuy.value, avgSell.value, avgMarkout, toxicFillCount, peakInventory));
    }

    method Reset()
      modifies this
      ensures Valid() && fills == [] && markoutSamples == [] && toxicFillCount == 0 && snapshotCount == 0
    {
      fills, markoutSamples, toxicFillCount := [], [], 0;
      peakInventory, inventory, snapshotCount := 0.0, 0.0, 0;
    }
  }
}

module Replays {
  import opened Types
  import opened ReplayStates
  import opened ReplayMarks
  import opened ReplayShares
  import opened Overshoots
  import opened MarkoutLog
  import opened MarkoutRecording
  import opened Toxicity
  import opened Metrics

  function AllBps(records: seq<Record>): seq<real> {
    seq(|records|, i requires 0 <= i < |records| => MarkoutBps(records[i]))
  }

  // ── The fills that a recorder has logged ──

  function FillOf(r: Record): FillRecord {
    FillRecord(r.fillTime, r.side, r.fillPrice, r.fillSize)
  }

  function LogFills(log: seq<Event>): seq<FillRecord> {
    if log == [] then []
    else
      var e := log[|log| - 1];
      LogFills(log[..|log| - 1]) + if e.Filled? then [FillOf(e.record)] else []
  }

  lemma LogFillsSnoc(log: seq<Event>, e: Event)
    ensures LogFills(log + [e]) == LogFills(log) + if e.Filled? then [FillOf(e.record)] else []
  {
    assert (log + [e])[..|log|] == log;
  }

  lemma NothingFedYet(before: Wait, drained: seq<Record>, log: seq<Event>)
    ensures Fed(before, []) == before && AllFills([]) == [] && AllBps([]) == [] && FeedLog([]) == []
    ensures drained + [] == drained && before.judged + [] == before.judged && log + [] == log
  {
  }

  lemma Regrouped<T>(a: seq<T>, b: seq<T>, c: seq<T>)
    ensures a + b + c == a + (b + c)
  {
  }

  lemma {:induction false} LogFillsConcat(a: seq<Event>, b: seq<Event>)
    ensures LogFills(a + b) == LogFills(a) + LogFills(b)
  {
    if b == [] {
      assert a + b == a;
    } else {
      var n := |b| - 1;
      assert (a + b)[..|a + b| - 1] == a + b[..n];
      LogFillsConcat(a, b[..n]);
    }
  }

  lemma {:induction false} LogFillsOfOrders(desired: seq<OrderRequest>, snap: MarketSnapshot)
    ensures LogFills(Logged(RecordsOf(desired, snap))) == FillsOf(desired, snap)
  {
    if desired == [] {
      LoggedConcat([], []);
    } else {
      var n := |desired| - 1;
      LogFillsOfOrders(desired[..n], snap);
      var more := OrderRecord(desired[n], snap);
      LoggedConcat(RecordsOf(desired[..n], snap), more);
      LogFillsConcat(Logged(RecordsOf(desired[..n], snap)), Logged(more));
      assert Logged(more) == [] || Logged(more) == [Filled(more[0])];
      LogFillsOne(more);
      hide LogFills, Logged, OrderRecord;
    }
  }

  lemma LogFillsOne(rs: seq<Record>)
    requires |rs| <= 1
    ensures LogFills(Logged(rs)) == if rs == [] then [] else [FillOf(rs[0])]
  {
    if rs != [] {
      assert Logged(rs) == [] + [Filled(rs[0])];
      LogFillsSnoc([], Filled(rs[0]));
    }
  }

  /** A feed logs its fills. */
  lemma {:induction false} LogFillsOfFeed(log: seq<Event>, frames: seq<Frame>)
    ensures LogFills(log + FeedLog(frames)) == LogFills(log) + AllFills(frames)
  {
    if frames == [] {
      assert log + FeedLog(frames) == log;
    } else {
      var front, last := frames[..|frames| - 1], frames[|frames| - 1];
      LogFillsOfFeed(log, front);
      LogFillsOfFrame(last);
      LogFillsConcat(log + FeedLog(front), FrameLog(last));
      hide LogFills, FrameLog, FillsOf;
      Regrouped(log, FeedLog(front), FrameLog(last));
      Regrouped(LogFills(log), AllFills(front), FillsOf(last.desired, last.snap));
    }
  }

  lemma LogFillsOfFrame(frame: Frame)
    ensures LogFills(FrameLog(frame)) == FillsOf(frame.desired, frame.snap)
  {
    var e, rest := MidUpdate(Mid(frame.snap), frame.snap.timestamp), Logged(RecordsOf(frame.desired, frame.snap));
    LogFillsConcat([e], rest);
    LogFillsOfOrders(frame.desired, frame.snap);
    assert [e][..0] == [];
  }

  /** The i-th record of the recorder is the i-th logged fill. */
  lemma {:induction false} RecordsMatchFills(log: seq<Event>)
    ensures |Evolved(log)| == |LogFills(log)|
    ensures forall i :: 0 <= i < |Evolved(log)| ==> FillOf(Evolved(log)[i]) == LogFills(log)[i]
  {
    if log != [] {
      var n := |log| - 1;
      RecordsMatchFills(log[..n]);
      var before := Evolved(log[..n]);
      forall i | 0 <= i < |before|
        ensures FillOf(Apply(before[i], log[n])) == FillOf(before[i])
      {
        ApplyMarks(before[i], log[n]);
      }
    }
  }

  ghost predicate TimesAscend(fills: seq<FillRecord>) {
    forall i, j :: 0 <= i < j < |fills| ==> fills[i].timestamp <= fills[j].timestamp
  }

  lemma {:induction false} AscendingLog(log: seq<Event>)
    requires TimesAscend(LogFills(log))
    ensures FillsInOrder(log)
  {
    if log != [] {
      var n := |log| - 1;
      var front := log[..n];
      LogFillsSnoc(front, log[n]);
      assert log == front + [log[n]];
      assert forall i :: 0 <= i < |LogFills(front)| ==> LogFills(log)[i] == LogFills(front)[i];
      AscendingLog(front);
      if log[n].Filled? {
        forall i | 0 <= i < n && log[i].Filled?
          ensures log[i].record.fillTime <= log[n].record.fillTime
        {
          var k := LoggedAt(front, i);
          assert LogFills(log)[|LogFills(front)|] == FillOf(log[n].record);
        }
      }
      forall i, j | 0 <= i < j < |log| && log[i].Filled? && log[j].Filled?
        ensures log[i].record.fillTime <= log[j].record.fillTime
      {
        if j < n {
          assert front[i] == log[i] && front[j] == log[j];
        }
      }
    }
  }

  lemma {:induction false} LoggedAt(log: seq<Event>, i: nat) returns (k: nat)
    requires i < |log| && log[i].Filled?
    ensures k < |LogFills(log)| && LogFills(log)[k] == FillOf(log[i].record)
  {
    var n := |log| - 1;
    if i == n {
      k := |LogFills(log[..n])|;
    } else {
      k := LoggedAt(log[..n], i);
    }
  }

  lemma {:induction false} FillsAtSnapshot(desired: seq<OrderRequest>, snap: MarketSnapshot)
    ensures forall f :: f in FillsOf(desired, snap) ==> f.timestamp == snap.timestamp
  {
    if desired != [] {
      FillsAtSnapshot(desired[..|desired| - 1], snap);
    }
  }

  lemma {:induction false} FillsAscend(frames: seq<Frame>)
    requires InTime(frames)
    ensures TimesAscend(AllFills(frames))
    ensures forall f :: f in AllFills(frames) ==> frames != [] && f.timestamp <= frames[|frames| - 1].snap.timestamp
  {
    if frames != [] {
      var n := |frames| - 1;
      FillsAscend(frames[..n]);
      FillsAtSnapshot(frames[n].desired, frames[n].snap);
      var a: seq<FillRecord>, b: seq<FillRecord> := AllFills(frames[..n]), FillsOf(frames[n].desired, frames[n].snap);
      forall i, j | 0 <= i < j < |a + b|
        ensures (a + b)[i].timestamp <= (a + b)[j].timestamp
      {
        assert i < |a| ==> (a + b)[i] == a[i] && a[i] in a;
        assert i >= |a| ==> (a + b)[i] == b[i - |a|] && b[i - |a|] in b;
        assert j >= |a| ==> (a + b)[j] == b[j - |a|] && b[j - |a|] in b;
      }
    }
  }

  // ── Marks on time ──

  function TimeOf(e: Event): real {
    match e
    case Filled(r) => r.fillTime
    case MidUpdate(_, at) => at
    case Flushed(_) => 0.0
  }

  /** Every fill comes right after an update, or another fill, at its own time. */
  ghost predicate Prompt(log: seq<Event>) {
    forall i :: 0 <= i < |log| && log[i].Filled? ==>
      i > 0 && !log[i - 1].Flushed? && TimeOf(log[i - 1]) == log[i].record.fillTime
  }

  function LastFill(log: seq<Event>): Option<real> {
    if log == [] then None
    else if log[|log| - 1].Filled? then Some(log[|log| - 1].record.fillTime)
    else LastFill(log[..|log| - 1])
  }

  ghost predicate AllMarkedBy(rs: seq<Record>, at: real) {
    forall i :: 0 <= i < |rs| ==> MarkedBy(rs[i], at)
  }

  lemma PromptFront(log: seq<Event>)
    requires Prompt(log) && log != []
    ensures Prompt(log[..|log| - 1])
  {
  }

  lemma PromptNext(log: seq<Event>, e: Event)
    requires Prompt(log)
    requires e.Filled? ==> log != [] && !log[|log| - 1].Flushed? && TimeOf(log[|log| - 1]) == e.record.fillTime
    ensures Prompt(log + [e])
  {
  }

  // No fill misses a mark that was due by the latest event, or by the latest fill.
  lemma {:induction false} PromptMarks(log: seq<Event>)
    requires WellFormed(log) && Prompt(log)
    ensures LastFill(log).Some? ==> AllMarkedBy(Evolved(log), LastFill(log).value)
    ensures log != [] && !log[|log| - 1].Flushed? ==> AllMarkedBy(Evolved(log), TimeOf(log[|log| - 1]))
  {
    hide MarkedBy;
    if log != [] {
      var n := |log| - 1;
      var front, e := log[..n], log[n];
      PromptFront(log);
      PromptMarks(front);
      var before := Evolved(front);
      if e.Filled? {
        assert n > 0 && front[n - 1] == log[n - 1];
        NewIsMarked(e.record);
      } else {
        forall i | 0 <= i < |before|
          ensures LastFill(log).Some? ==> MarkedBy(Apply(before[i], e), LastFill(log).value)
          ensures e.MidUpdate? ==> MarkedBy(Apply(before[i], e), e.at)
        {
          if LastFill(log).Some? {
            StaysMarked(before[i], e, LastFill(log).value);
          }
          if e.MidUpdate? {
            MarkedAt(before[i], e.mid, e.at);
          }
        }
      }
    }
  }

  lemma NewIsMarked(r: Record)
    ensures MarkedBy(r, r.fillTime)
  {
    assert forall k :: k in INTERVALS <==> k in {1, 5, 30};
  }

  lemma StaysMarked(r: Record, e: Event, at: real)
    requires MarkedBy(r, at)
    ensures MarkedBy(Apply(r, e), at)
  {
    ApplyMarks(r, e);
    hide Apply;
  }

  ghost predicate FilledUntil(rs: seq<Record>, last: Option<real>) {
    forall i :: 0 <= i < |rs| ==> last.Some? && rs[i].fillTime <= last.value
  }

  lemma {:induction false} FillsUntilLast(log: seq<Event>)
    requires FillsInOrder(log)
    ensures FilledUntil(Evolved(log), LastFill(log))
  {
    if log != [] {
      var n := |log| - 1;
      var front := log[..n];
      assert log == front + [log[n]];
      OrderedFront(front, log[n]);
      if log[n].Filled? {
        FilledBefore(front, log[n].record);
        EvolvedTimes(front, log[n].record.fillTime);
      } else {
        FillsUntilLast(front);
        SameFillTimes(Evolved(front), log[n], LastFill(log));
      }
    }
  }

  lemma FilledBefore(front: seq<Event>, r: Record)
    requires FillsInOrder(front + [Filled(r)])
    ensures forall i :: 0 <= i < |front| && front[i].Filled? ==> front[i].record.fillTime <= r.fillTime
  {
    var log := front + [Filled(r)];
    forall i | 0 <= i < |front| && front[i].Filled?
      ensures front[i].record.fillTime <= r.fillTime
    {
      assert log[i] == front[i] && log[|front|] == Filled(r);
    }
  }

  lemma SameFillTimes(rs: seq<Record>, e: Event, last: Option<real>)
    requires FilledUntil(rs, last)
    ensures FilledUntil(ApplyAll(rs, e), last)
  {
    forall i | 0 <= i < |rs|
      ensures Apply(rs[i], e).fillTime == rs[i].fillTime
    {
      ApplyMarks(rs[i], e);
    }
  }

  lemma PendingArePunctual(log: seq<Event>)
    requires WellFormed(log) && FillsInOrder(log) && Prompt(log)
    ensures Punctual(Open(Evolved(log)))
  {
    var rs, open := Evolved(log), Open(Evolved(log));
    PromptMarks(log);
    FillsUntilLast(log);
    Partition(rs);
    hide Evolved, Open, Done, MarkedBy, Prompt, FillsInOrder, WellFormed, LastFill;
    forall i | 0 <= i < |open|
      ensures MarkedBy(open[i], open[|open| - 1].fillTime)
    {
      assert open[i] in rs && open[|open| - 1] in rs;
      MarkedEarlier(open[i], open[|open| - 1].fillTime, LastFill(log).value);
    }
  }

  lemma AllBpsStep(records: seq<Record>, i: nat)
    requires i < |records|
    ensures AllBps(records[..i + 1]) == AllBps(records[..i]) + [MarkoutBps(records[i])]
  {
  }

  class ReplayEngine {
    const markout: MarkoutRecorder
    const toxic: ToxicDetector
    const metrics: MetricsCollector

    ghost predicate Components()
      reads this, markout, toxic, metrics
    {
      markout.Valid() && toxic.Valid() && metrics.Valid() && Prompt(markout.log)
    }

    /** Nothing waits in the recorder and nothing was judged: as constructed, or after a reset. */
    ghost predicate Fresh()
      reads this, markout, toxic
    {
      markout.log == [] && markout.drained == [] && markout.finished == [] && toxic.history == []
    }

    /** What the recorder holds and the detector has judged. */
    ghost function Waits(): Wait
      reads this, markout, toxic
    {
      Wait(toxic.history, markout.finished, markout.pending)
    }

    constructor (t: Thresholds)
      ensures Components() && Fresh() && fresh(markout) && fresh(toxic) && fresh(metrics) && toxic.limits == t
    {
      markout := new MarkoutRecorder();
      toxic := new ToxicDetector(t);
      metrics := new MetricsCollector();
    }

    method Reset()
      modifies markout, toxic, metrics
      ensures Components() && Fresh() && metrics.fills == [] && metrics.markoutSamples == []
      ensures metrics.toxicFillCount == 0 && metrics.snapshotCount == 0
    {
      markout.Reset();
      toxic.Reset();
      metrics.Reset();
    }

    /** The recorder has just seen an update, or a fill, at this time. */
    ghost predicate UpToDate(at: real)
      reads this, markout
    {
      && Prompt(markout.log) && markout.log != []
      && !markout.log[|markout.log| - 1].Flushed? && TimeOf(markout.log[|markout.log| - 1]) == at
    }

    // Simulates one order: a fill if it crosses the market.
    method SimulateOrder(req: OrderRequest, snap: MarketSnapshot)
      requires markout.Valid() && metrics.Valid() && UpToDate(snap.timestamp)
      modifies markout, metrics`fills, metrics`inventory, metrics`peakInventory
      ensures markout.Valid() && metrics.Valid() && UpToDate(snap.timestamp)
      ensures markout.drained == old(markout.drained) && markout.finished == old(markout.finished)
      ensures metrics.fills == old(metrics.fills) + OrderFill(req, snap)
      ensures markout.pending == old(markout.pending) + OrderRecord(req, snap)
      ensures markout.log == old(markout.log) + Logged(OrderRecord(req, snap))
    {
      hide MarkoutRecorder.Valid, MetricsCollector.Valid, LogFills, Prompt;
      match CrossesMarket(req, snap) {
        case Some(fillPrice) =>
          var order := Order("replay", req.pair, req.side, fillPrice, req.size, req.size, "");
          ghost var e := Filled(Record("replay", req.side, fillPrice, req.size, Mid(snap), map[], snap.timestamp));
          PromptNext(markout.log, e);
          markout.OnFill(order, req.size, Mid(snap), snap.timestamp);
          metrics.RecordFill(req.side, fillPrice, req.size, snap.timestamp);
        case None =>
      }
    }

    // Simulates the strategy's orders.
    method Simulate(desired: seq<OrderRequest>, snap: MarketSnapshot)
      requires markout.Valid() && metrics.Valid() && UpToDate(snap.timestamp)
      modifies markout, metrics`fills, metrics`inventory, metrics`peakInventory
      ensures markout.Valid() && metrics.Valid() && UpToDate(snap.timestamp)
      ensures markout.drained == old(markout.drained) && markout.finished == old(markout.finished)
      ensures metrics.fills == old(metrics.fills) + FillsOf(desired, snap)
      ensures markout.pending == old(markout.pending) + RecordsOf(desired, snap)
      ensures markout.log == old(markout.log) + Logged(RecordsOf(desired, snap))
    {
      hide MarkoutRecorder.Valid, MetricsCollector.Valid, LogFills, OrderFill, OrderRecord, UpToDate, Logged;
      LoggedConcat([], []);
      for i := 0 to |desired|
        invariant markout.Valid() && metrics.Valid() && UpToDate(snap.timestamp)
        invariant markout.drained == old(markout.drained) && markout.finished == old(markout.finished)
        invariant metrics.fills == old(metrics.fills) + FillsOf(desired[..i], snap)
        invariant markout.pending == old(markout.pending) + RecordsOf(desired[..i], snap)
        invariant markout.log == old(markout.log) + Logged(RecordsOf(desired[..i], snap))
      {
        LoggedConcat(RecordsOf(desired[..i], snap), OrderRecord(desired[i], snap));
        FillsOfStep(desired, i, snap);
        RecordsOfStep(desired, i, snap);
        SimulateOrder(desired[i], snap);
      }
      assert desired[..|desired|] == desired;
    }

    // Judges the records that have all their marks.
    method Judge() returns (ghost judged: seq<Record>)
      requires Components()
      modifies markout`finished, markout`drained, toxic, metrics`markoutSamples, metrics`toxicFillCount
      ensures Components() && markout.finished == [] && judged == old(markout.finished)
      ensures markout.drained == old(markout.drained) + judged && toxic.history == old(toxic.history) + judged
      ensures metrics.markoutSamples == old(metrics.markoutSamples) + AllBps(judged)
      ensures metrics.toxicFillCount - old(metrics.toxicFillCount) == toxic.toxicCount - old(toxic.toxicCount)
    {
      hide MarkoutRecorder.Valid, ToxicDetector.Valid, MetricsCollector.Valid, AllBps, LastIsToxic, Prompt;
      assert AllBps([]) == [] by {
        NoBps();
      }
      var records := markout.Completed();
      judged := records;
      for i := 0 to |records|
        invariant Components() && markout.finished == [] && markout.drained == old(markout.drained) + records
        invariant toxic.history == old(toxic.history) + records[..i]
        invariant metrics.markoutSamples == old(metrics.markoutSamples) + AllBps(records[..i])
        invariant metrics.toxicFillCount - old(metrics.toxicFillCount) == toxic.toxicCount - old(toxic.toxicCount)
      {
        AllBpsStep(records, i);
        assert records[..i + 1] == records[..i] + [records[i]];
        var isToxic := toxic.Evaluate(records[i]);
        metrics.RecordMarkout(MarkoutBps(records[i]), isToxic);
      }
      assert records[..|records|] == records;
    }

    /** One snapshot: mark, fill what crosses, judge what is complete. */
    method ProcessSnapshot(frame: Frame) returns (ghost judged: seq<Record>)
      requires Components()
      modifies markout, toxic, metrics
      ensures Components() && Waits() == Step(old(Waits()), frame)
      ensures metrics.fills == old(metrics.fills) + FillsOf(frame.desired, frame.snap)
      ensures markout.log == old(markout.log) + FrameLog(frame)
      ensures metrics.snapshotCount == old(metrics.snapshotCount) + 1
      ensures markout.drained == old(markout.drained) + judged && toxic.history == old(toxic.history) + judged
      ensures metrics.markoutSamples == old(metrics.markoutSamples) + AllBps(judged)
      ensures metrics.toxicFillCount - old(metrics.toxicFillCount) == toxic.toxicCount - old(toxic.toxicCount)
    {
      hide MarkoutRecorder.Valid, ToxicDetector.Valid, MetricsCollector.Valid, LogFills, FillsOf, RecordsOf, AllBps;
      hide Done, Open, ApplyAll, Prompt, Logged, Mid;
      metrics.RecordSnapshot();
      PromptNext(markout.log, MidUpdate(Mid(frame.snap), frame.snap.timestamp));
      markout.UpdateMid(Mid(frame.snap), frame.snap.timestamp);
      Simulate(frame.desired, frame.snap);
      judged := Judge();
    }

    /** Where a replay is after some snapshots, from what waited and was logged before. */
    ghost predicate Feeding(frames: seq<Frame>, judged: seq<Record>, before: Wait, drained: seq<Record>,
                            toxicBefore: nat, log: seq<Event>)
      reads this, markout, toxic, metrics
    {
      && Components() && Waits() == Fed(before, frames)
      && metrics.fills == AllFills(frames) && metrics.markoutSamples == AllBps(judged)
      && metrics.snapshotCount == |frames|
      && markout.drained == drained + judged && toxic.history == before.judged + judged
      && metrics.toxicFillCount == toxic.toxicCount - toxicBefore
      && markout.log == log + FeedLog(frames)
    }

    // One more snapshot.
    method FeedNext(frame: Frame, ghost frames: seq<Frame>, ghost judged: seq<Record>, ghost before: Wait,
                    ghost drained: seq<Record>, ghost toxicBefore: nat, ghost log: seq<Event>)
      returns (ghost judged': seq<Record>)
      requires Feeding(frames, judged, before, drained, toxicBefore, log)
      modifies markout, toxic, metrics
      ensures Feeding(frames + [frame], judged', before, drained, toxicBefore, log)
    {
      hide MarkoutRecorder.Valid, ToxicDetector.Valid, MetricsCollector.Valid, LogFills, FillsOf, Prompt;
      hide AllBps, AllFills, Step, Fed, FeedLog, FrameLog;
      ghost var all, n := frames + [frame], |frames|;
      assert all[..n] == frames && all[..n + 1] == all;
      AllFillsStep(all, n);
      FedStep(before, all, n);
      FeedLogStep(all, n);
      ghost var more := ProcessSnapshot(frame);
      AllBpsConcat(judged, more);
      Regrouped(log, FeedLog(frames), FrameLog(frame));
      Regrouped(drained, judged, more);
      Regrouped(before.judged, judged, more);
      judged' := judged + more;
    }

    // The snapshots one after another, from empty metrics.
    method Feed(frames: seq<Frame>) returns (ghost judged: seq<Record>)
      requires Components() && metrics.fills == [] && metrics.markoutSamples == []
      requires metrics.toxicFillCount == 0 && metrics.snapshotCount == 0
      modifies markout, toxic, metrics
      ensures Feeding(frames, judged, old(Waits()), old(markout.drained), old(toxic.toxicCount), old(markout.log))
    {
      ghost var before, drained, toxicBefore, log := Waits(), markout.drained, toxic.toxicCount, markout.log;
      judged := [];
      NothingFedYet(before, drained, log);
      assert Feeding(frames[..0], judged, before, drained, toxicBefore, log);
      hide Feeding;
      for i := 0 to |frames|
        invariant Feeding(frames[..i], judged, before, drained, toxicBefore, log)
      {
        assert frames[..i + 1] == frames[..i] + [frames[i]];
        judged := FeedNext(frames[i], frames[..i], judged, before, drained, toxicBefore, log);
      }
      assert frames[..|frames|] == frames;
    }

    /** What a replay leaves, given what waited before: the metrics of its own fills and judgements. Fills
        and samples balance up to what was and is waiting. */
    ghost predicate Replayed(frames: seq<Frame>, judged: seq<Record>, before: Wait, drained: seq<Record>,
                             toxicBefore: nat)
      reads this, markout, toxic, metrics
    {
      && Components() && Waits() == Fed(before, frames)
      && metrics.fills == AllFills(frames) && metrics.markoutSamples == AllBps(judged)
      && metrics.snapshotCount == |frames|
      && markout.drained == drained + judged && toxic.history == before.judged + judged
      && metrics.toxicFillCount == toxic.toxicCount - toxicBefore
      && |metrics.fills| + Waiting(before) == |metrics.markoutSamples| + Waiting(Waits())
    }

    /** The loop of a replay. Only the metrics are reset first. */
    method Drive(frames: seq<Frame>) returns (ghost judged: seq<Record>)
      requires Components()
      modifies markout, toxic, metrics
      ensures Replayed(frames, judged, old(Waits()), old(markout.drained), old(toxic.toxicCount))
      ensures LogFills(markout.log) == old(LogFills(markout.log)) + AllFills(frames)
      ensures markout.log == old(markout.log) + FeedLog(frames)
    {
      hide MarkoutRecorder.Valid, ToxicDetector.Valid, MetricsCollector.Valid, LogFills, AllFills, AllBps, Fed, FeedLog;
      FedBalances(Waits(), frames);
      LogFillsOfFeed(markout.log, frames);
      metrics.Reset();
      judged := Feed(frames);
      AllBpsLength(judged);
    }

    /** A whole replay. */
    method Run(frames: seq<Frame>) returns (result: Option<Summary>, ghost judged: seq<Record>)
      requires Components()
      modifies markout, toxic, metrics
      ensures Replayed(frames, judged, old(Waits()), old(markout.drained), old(toxic.toxicCount))
      // A fresh engine conserves its fills, and in time order the i-th sample is the i-th fill's markout.
      ensures old(Fresh()) ==> |metrics.fills| == |metrics.markoutSamples| + |markout.pending|
      ensures old(Fresh()) && InTime(frames) ==>
        SamplesFollowFills(metrics.fills, metrics.markoutSamples, Evolved(markout.log))
      // The log is that of the feed, so these are the markouts of the orders that cross.
      ensures old(Fresh()) ==> markout.log == FeedLog(frames)
      ensures old(Fresh()) && InTime(frames) ==> AreSamples(metrics.markoutSamples, frames)
      // The reported toxic ratio is a share of the fills exactly when the feed leaves it one, and whatever
      // the feed does so if nothing was waiting.
      ensures result.None? <==> NothingToDivideBy(metrics.fills, Buy) || NothingToDivideBy(metrics.fills, Sell)
      ensures result.Some? ==> metrics.Describes(result.value) && 0.0 <= ToxicRatio(result.value)
      ensures result.Some? ==> (ToxicRatio(result.value) <= 1.0 <==> InShare(toxic.limits, old(Waits()), frames))
      ensures result.Some? && Waiting(old(Waits())) == 0 ==> ToxicRatio(result.value) <= 1.0
    {
      ghost var atStart, before, drained, toxicBefore := Fresh(), Waits(), markout.drained, toxic.toxicCount;
      if atStart {
        StartsEmpty();
      }
      ToxicSoFar();
      hide *;
      judged := Drive(frames);
      if atStart {
        FreshReplay(frames, judged, before);
      }
      assert metrics.Valid() by {
        MetricsAreValid(frames, judged, before, drained, toxicBefore);
      }
      result := metrics.Summarize();
      if result.Some? {
        RatioOfRun(result.value, frames, judged, before, drained, toxicBefore);
      }
      NothingWaitsShares(toxic.limits, before, frames);
    }

    /** With fills so far in order of time and of positive size, the toxic ratio of the next replay is at most 1
        for every later feed with positive mids exactly when no waiting record could still turn out toxic. */
    lemma NextRatioIsShare()
      requires Components() && TimesAscend(LogFills(markout.log)) && PositiveSizes(Line(Waits()))
      ensures (forall frames :: ProperFeed(Waits(), frames) ==> InShare(toxic.limits, Waits(), frames))
        <==> NoneCouldTurnToxic(toxic.limits, Waits())
    {
      AscendingLog(markout.log);
      WaitsInOrder();
      hide *;
      ShareExactly(toxic.limits, Waits());
    }

    lemma WaitsInOrder()
      requires Components() && FillsInOrder(markout.log)
      ensures Orderly(Waits())
    {
      var rs := Evolved(markout.log);
      OpenInOrder(markout.log);
      PendingArePunctual(markout.log);
      Partition(rs);
      hide ToxicDetector.Valid, MetricsCollector.Valid, Evolved, Done, Open, Complete;
      hide PrefixKeys, Staggered, AllPrefix, Punctual;
      hide FillsInOrder, WellFormed;
      forall r | r in markout.finished
        ensures Complete(r)
      {
        assert r in multiset(markout.drained + markout.finished);
        assert r in Done(rs);
      }
    }

    lemma ToxicSoFar()
      requires Components()
      ensures toxic.toxicCount == ToxicCount(toxic.limits, Waits().judged)
    {
    }

    lemma MetricsAreValid(frames: seq<Frame>, judged: seq<Record>, before: Wait, drained: seq<Record>, toxicBefore: nat)
      requires Replayed(frames, judged, before, drained, toxicBefore)
      ensures metrics.Valid()
    {
    }

    // What follows for a replay of a fresh engine.
    lemma FreshReplay(frames: seq<Frame>, judged: seq<Record>, before: Wait)
      requires Replayed(frames, judged, before, [], 0) && before == Wait([], [], [])
      requires LogFills(markout.log) == AllFills(frames) && markout.log == FeedLog(frames)
      ensures InTime(frames) ==> AreSamples(metrics.markoutSamples, frames)
      ensures |metrics.fills| == |metrics.markoutSamples| + |markout.pending|
      ensures InTime(frames) ==> SamplesFollowFills(metrics.fills, metrics.markoutSamples, Evolved(markout.log))
    {
      NoneFinished(before, frames);
      hide MarkoutRecorder.Valid, ToxicDetector.Valid, MetricsCollector.Valid, LogFills, AllFills;
      hide AllBps, Evolved, SamplesFollowFills, Fed, FeedLog, AreSamples;
      if InTime(frames) {
        FillsAscend(frames);
        SamplesInOrder(judged);
        FollowedSamples(frames, metrics.fills, metrics.markoutSamples);
      }
    }

    lemma RatioOfRun(s: Summary, frames: seq<Frame>, judged: seq<Record>, before: Wait, drained: seq<Record>,
                     toxicBefore: nat)
      requires Replayed(frames, judged, before, drained, toxicBefore) && metrics.Describes(s)
      requires toxicBefore == ToxicCount(toxic.limits, before.judged)
      ensures 0.0 <= ToxicRatio(s) && (ToxicRatio(s) <= 1.0 <==> InShare(toxic.limits, before, frames))
    {
      ToxicSoFar();
      hide ToxicCount, AllFills, Fed, MarkoutRecorder.Valid, ToxicDetector.Valid, MetricsCollector.Valid;
      if s.fills > 0 {
        RatioIsShare(s);
      }
    }

    lemma StartsEmpty()
      requires Components() && Fresh()
      ensures Waits() == Wait([], [], []) && markout.drained == [] && toxic.toxicCount == 0
              && LogFills(markout.log) == [] && markout.log == []
    {
    }

    // In time order what was judged is the first part of the recorded fills.
    lemma SamplesInOrder(judged: seq<Record>)
      requires Components() && markout.drained == judged && markout.finished == []
      requires LogFills(markout.log) == metrics.fills && TimesAscend(metrics.fills)
      requires metrics.markoutSamples == AllBps(judged)
      ensures SamplesFollowFills(metrics.fills, metrics.markoutSamples, Evolved(markout.log))
    {
      AscendingLog(markout.log);
      RecordsMatchFills(markout.log);
      markout.Conserved();
      assert judged + [] + markout.pending == judged + markout.pending;
      JudgedAreComplete(judged);
      hide *;
      JudgedFollow(metrics.fills, judged, markout.pending, Evolved(markout.log));
    }

    // What was judged has its last mark, and what is pending does not.
    lemma JudgedAreComplete(judged: seq<Record>)
      requires Components() && markout.drained == judged && markout.finished == []
      ensures forall i :: 0 <= i < |judged| ==> 30 in judged[i].midsAfter
      ensures forall i :: 0 <= i < |markout.pending| ==> 30 !in markout.pending[i].midsAfter
    {
      var rs := Evolved(markout.log);
      assert judged + [] == judged;
      assert multiset(judged) == multiset(Done(rs));
      Partition(rs);
      EvolvedPrefix(markout.log);
      hide Evolved, Done, Open, MarkoutRecorder.Valid, ToxicDetector.Valid, MetricsCollector.Valid, Prompt;
      forall r | r in rs
        ensures Complete(r) <==> 30 in r.midsAfter
      {
        CountKeys(r);
      }
      forall i | 0 <= i < |judged|
        ensures 30 in judged[i].midsAfter
      {
        assert judged[i] in multiset(judged);
        assert judged[i] in Done(rs);
      }
      forall i | 0 <= i < |markout.pending|
        ensures 30 !in markout.pending[i].midsAfter
      {
        assert markout.pending[i] in Open(rs);
      }
    }
  }

  /** The records are those of the fills, and the samples are the markouts of the first of them. */
  ghost predicate SamplesFollowFills(fills: seq<FillRecord>, samples: seq<real>, records: seq<Record>) {
    && |records| == |fills| && |samples| <= |fills|
    && (forall i :: 0 <= i < |fills| ==> FillOf(records[i]) == fills[i])
    && (forall i :: 0 <= i < |samples| ==> samples[i] == MarkoutBps(records[i]))
    && (forall i :: 0 <= i < |records| ==> (30 in records[i].midsAfter <==> i < |samples|))
  }

  lemma JudgedFollow(fills: seq<FillRecord>, judged: seq<Record>, pending: seq<Record>, records: seq<Record>)
    requires records == judged + pending && |records| == |fills|
    requires forall i :: 0 <= i < |records| ==> FillOf(records[i]) == fills[i]
    requires forall i :: 0 <= i < |judged| ==> 30 in judged[i].midsAfter
    requires forall i :: 0 <= i < |pending| ==> 30 !in pending[i].midsAfter
    ensures SamplesFollowFills(fills, AllBps(judged), records)
  {
    hide MarkoutBps, FillOf;
  }

  lemma FollowedSamples(frames: seq<Frame>, fills: seq<FillRecord>, samples: seq<real>)
    requires SamplesFollowFills(fills, samples, Evolved(FeedLog(frames)))
    ensures AreSamples(samples, frames)
  {
    hide Evolved, FeedLog, MarkoutBps, AreSamples;
    SamplesAreMarkouts(frames, samples);
  }

  lemma NoBps()
    ensures AllBps([]) == []
  {
  }

  lemma AllBpsLength(records: seq<Record>)
    ensures |AllBps(records)| == |records|
  {
  }

  lemma AllBpsConcat(a: seq<Record>, b: seq<Record>)
    ensures AllBps(a + b) == AllBps(a) + AllBps(b)
  {
  }

  lemma OpenInOrder(log: seq<Event>)
    requires WellFormed(log) && FillsInOrder(log)
    ensures AllPrefix(Open(Evolved(log))) && Staggered(Open(Evolved(log)))
  {
    var rs := Evolved(log);
    EvolvedPrefix(log);
    EvolvedStaggered(log);
    StaggeredLead(rs);
    DoneFirst(rs);
    hide Evolved, Done, Open, Complete, PrefixKeys, Staggered, WellFormed, FillsInOrder;
    StaggeredTail(rs, |Done(rs)|);
    assert Open(rs) == rs[|Done(rs)|..];
  }

  /** Two runs of one engine, the second of which reports a toxic ratio above 1. */
  method SecondRun() returns (result: Option<Summary>)
    ensures result.Some? && ToxicRatio(result.value) > 1.0
  {
    hide ReplayEngine.Components, MarkoutRecorder.Valid, ToxicDetector.Valid, MetricsCollector.Valid, InShare, Fed;
    hide MetricsCollector.Describes, ToxicRatio, AllFills, Orderly, ProperFeed;
    var engine := new ReplayEngine(STANDARD);
    engine.StartsEmpty();
    var first, judged := engine.Run(FIRST_RUN);
    result, judged := engine.Run(SECOND_RUN);
    SecondRunExceeds();
    OneBuy();
  }

  lemma OneBuy()
    ensures !NothingToDivideBy(AllFills(SECOND_RUN), Buy) && !NothingToDivideBy(AllFills(SECOND_RUN), Sell)
  {
    var frame := SECOND_RUN[0];
    OneFrame(Wait([], [], []), frame);
    FillsOfStep(frame.desired, 0, frame.snap);
    assert frame.desired[..1] == frame.desired;
    var f := FillRecord(30.0, Buy, 101.0, 1.0);
    assert AllFills(SECOND_RUN) == [f] && [f][..0] == [];
  }
}

// replay/engine.py, markout/toxic.py: feeds that take the toxic ratio above 1.
//
// If some waiting record can still turn out toxic, at most two mids make it so, and one large fill, judged
// toxic in turn, is all that the feed adds: two verdicts on a single fill.

module Overshoots {
  import opened Types
  import opened Averages
  import opened MarkoutLog
  import opened MarkoutRecording
  import opened Toxicity
  import opened Metrics
  import opened ReplayStates
  import opened ReplayShares

  // ── Mids far enough, sizes large enough ──

  // An update after the longest interval completes a record.
  lemma MarkedLate(r: Record, mid: real, at: real)
    requires PrefixKeys(r) && at - r.fillTime >= 30.0
    ensures var q := Apply(r, MidUpdate(mid, at));
      && Complete(q) && q == r.(midsAfter := q.midsAfter) && 1 in q.midsAfter && 30 in q.midsAfter
      && q.midsAfter[1] == (if 1 in r.midsAfter then r.midsAfter[1] else mid)
      && q.midsAfter[30] == (if 30 in r.midsAfter then r.midsAfter[30] else mid)
  {
    var e := MidUpdate(mid, at);
    var q := Apply(r, e);
    ApplyMarks(r, e);
    ApplyKeys(r, e);
    ApplyKeepsPrefix(r, e);
    CountKeys(q);
    assert q.midsAfter.Keys == {1, 5, 30};
    assert FirstAfter([e], r.fillTime, 1) == Some(mid) && FirstAfter([e], r.fillTime, 30) == Some(mid);
  }

  // A mid this far above is a reversal, and adverse to a buy.
  function HighMid(t: Thresholds, r: Record): real {
    r.midAtFill + Abs(r.fillPrice - r.midAtFill) + Abs(t.adverseBps) * r.midAtFill / 10000.0
      + Abs(t.reversalBps) * r.midAtFill / 10000.0
  }

  // A mid that is adverse, if there is a positive one.
  function AdverseMid(t: Thresholds, r: Record): real {
    if r.side == Buy then HighMid(t, r) else if 0.0 < Reach(t, r) then Reach(t, r) else 1.0
  }

  lemma HighEnough(fillPrice: real, mid: real, adverse: real, reversal: real, d: real)
    requires 0.0 < mid
    requires d == Abs(fillPrice - mid) + Abs(adverse) * mid / 10000.0 + Abs(reversal) * mid / 10000.0
    ensures (fillPrice - (mid + d)) / mid * 10000.0 <= adverse
    ensures 0.0 <= d && d / mid * 10000.0 >= reversal
  {
    ProductNotNegative(Abs(adverse), mid);
    ProductNotNegative(Abs(reversal), mid);
    Scaled(fillPrice - (mid + d), mid, Abs(adverse), Abs(adverse) * mid);
    Scaled(-d, mid, Abs(reversal), Abs(reversal) * mid);
    Opposite(d, mid);
  }

  lemma HighIsPositive(t: Thresholds, r: Record)
    requires r.midAtFill > 0.0
    ensures 0.0 < HighMid(t, r) && 0.0 < AdverseMid(t, r)
  {
    ProductNotNegative(Abs(t.adverseBps), r.midAtFill);
    ProductNotNegative(Abs(t.reversalBps), r.midAtFill);
  }

  lemma Opposite(d: real, mid: real)
    requires 0.0 < mid
    ensures -d / mid == -(d / mid)
  {
  }

  lemma ProductNotNegative(a: real, b: real)
    requires 0.0 <= a && 0.0 <= b
    ensures 0.0 <= a * b
  {
  }

  lemma Scaled(x: real, mid: real, bound: real, product: real)
    requires 0.0 < mid && 0.0 <= bound && product == bound * mid && x <= -product / 10000.0
    ensures x / mid * 10000.0 <= -bound
  {
    var k := x / mid;
    assert k * mid == x;
    assert (-bound - k * 10000.0) * mid == -product - x * 10000.0;
    SignOf(-bound - k * 10000.0, mid);
  }

  lemma HighIsAdverse(t: Thresholds, r: Record)
    requires r.midAtFill > 0.0 && r.side == Buy && 30 in r.midsAfter && r.midsAfter[30] == HighMid(t, r)
    ensures AdverseMarkout(t, r)
  {
    var d := HighMid(t, r) - r.midAtFill;
    HighEnough(r.fillPrice, r.midAtFill, t.adverseBps, t.reversalBps, d);
    hide HighMid, Abs;
  }

  lemma HighIsReversal(t: Thresholds, r: Record)
    requires r.midAtFill > 0.0 && 1 in r.midsAfter && r.midsAfter[1] == HighMid(t, r)
    ensures FastReversal(t, r)
  {
    var d := HighMid(t, r) - r.midAtFill;
    HighEnough(r.fillPrice, r.midAtFill, t.adverseBps, t.reversalBps, d);
    hide HighMid;
  }

  lemma AdverseMidIsAdverse(t: Thresholds, r: Record)
    requires r.midAtFill > 0.0 && (r.side == Sell ==> 0.0 < Reach(t, r))
    requires 30 in r.midsAfter && r.midsAfter[30] == AdverseMid(t, r)
    ensures AdverseMarkout(t, r)
  {
    if r.side == Buy {
      HighIsAdverse(t, r);
    } else {
      AdverseAt(r.fillPrice, r.midAtFill, t.adverseBps, r.midsAfter[30]);
    }
    hide HighMid;
  }

  // A record with a fast reversal that can turn adverse is found so after one late mid.
  lemma TurnsAdverse(t: Thresholds, r: Record, at: real)
    requires PrefixKeys(r) && !Complete(r) && r.midAtFill > 0.0 && at - r.fillTime >= 30.0
    requires FastReversal(t, r) && (r.side == Sell ==> 0.0 < Reach(t, r))
    ensures var q := Apply(r, MidUpdate(AdverseMid(t, r), at)); AdverseMarkout(t, q) && FastReversal(t, q)
  {
    CountKeys(r);
    assert 30 !in r.midsAfter;
    MarkedLate(r, AdverseMid(t, r), at);
    hide PrefixKeys, Apply, Complete, AdverseMarkout;
    var q := Apply(r, MidUpdate(AdverseMid(t, r), at));
    assert AdverseMid(t, q) == AdverseMid(t, r) && Reach(t, q) == Reach(t, r);
    hide AdverseMid, Reach;
    AdverseMidIsAdverse(t, q);
  }

  // An update before the longest interval leaves a record to be completed.
  lemma MarkedSoon(r: Record, mid: real, at: real)
    requires PrefixKeys(r) && !Complete(r) && at - r.fillTime < 30.0 && (1 in r.midsAfter || 1.0 <= at - r.fillTime)
    ensures var q := Apply(r, MidUpdate(mid, at));
      && !Complete(q) && q == r.(midsAfter := q.midsAfter) && 1 in q.midsAfter
      && q.midsAfter[1] == if 1 in r.midsAfter then r.midsAfter[1] else mid
  {
    var e := MidUpdate(mid, at);
    var q := Apply(r, e);
    ApplyMarks(r, e);
    ApplyKeys(r, e);
    ApplyKeepsPrefix(r, e);
    CountKeys(r);
    CountKeys(q);
    assert FirstAfter([e][1..], r.fillTime, 1) == None;
    hide Apply, Complete, FirstAfter;
    assert 30 !in r.midsAfter && 30 !in q.midsAfter;
    hide PrefixKeys;
  }

  // A first mid makes a reversal.
  lemma TurnsFast(t: Thresholds, r: Record, at: real)
    requires PrefixKeys(r) && !Complete(r) && r.midAtFill > 0.0 && at - r.fillTime < 30.0
    requires if 1 in r.midsAfter then FastReversal(t, r) else 1.0 <= at - r.fillTime
    ensures var q := Apply(r, MidUpdate(HighMid(t, r), at));
      !Complete(q) && FastReversal(t, q) && q == r.(midsAfter := q.midsAfter)
  {
    var q := Apply(r, MidUpdate(HighMid(t, r), at));
    MarkedSoon(r, HighMid(t, r), at);
    assert HighMid(t, q) == HighMid(t, r);
    hide PrefixKeys, Apply, Complete, HighMid;
    if 1 !in r.midsAfter {
      HighIsReversal(t, q);
    }
  }

  ghost predicate PositiveSizes(rs: seq<Record>) {
    forall i :: 0 <= i < |rs| ==> 0.0 < rs[i].fillSize
  }

  lemma {:induction false} WindowIsPositive(h: seq<Record>, window: nat)
    requires PositiveSizes(h)
    ensures forall i :: 0 <= i < |WindowSizes(h, window)| ==> 0.0 < WindowSizes(h, window)[i]
  {
    if h != [] && window > 0 {
      WindowIsPositive(h[..|h| - 1], window - 1);
    }
  }

  lemma {:induction false} SumIsPositive(s: seq<real>)
    requires forall i :: 0 <= i < |s| ==> 0.0 < s[i]
    ensures 0.0 <= Sum(s) && (s != [] ==> 0.0 < Sum(s))
  {
    if s != [] {
      SumIsPositive(s[..|s| - 1]);
    }
  }

  // Nothing is larger than its window's length times the mean.
  lemma MultipleBelowLength(s: seq<real>, multiple: real)
    requires |s| >= 2 && (forall i :: 0 <= i < |s| ==> 0.0 < s[i]) && s[|s| - 1] >= Mean(s) * multiple
    ensures multiple < |s| as real
  {
    var n := |s| as real;
    SumIsPositive(s[..|s| - 1]);
    assert Sum(s) > s[|s| - 1] > 0.0;
    var m := Mean(s);
    assert m * n == Sum(s);
    Positive(Sum(s), n);
    assert m * (n - multiple) == m * n - m * multiple;
    Positive(m * (n - multiple), m);
    assert n - multiple == m * (n - multiple) / m;
  }

  function SizeAbove(total: real, n: real, multiple: real): real {
    if multiple < n then 1.0 + total * Abs(multiple) / (n - multiple) else 1.0
  }

  // A size that is large after a history.
  function LargeAfter(t: Thresholds, h: seq<Record>): real
    requires t.window > 0
  {
    var before := WindowSizes(h, t.window - 1);
    SizeAbove(Sum(before), (|before| + 1) as real, t.largeMultiple)
  }

  lemma LargeAfterIsLarge(t: Thresholds, h: seq<Record>, r: Record)
    requires t.window >= 4 && |h| >= 3 && PositiveSizes(h) && r.fillSize == LargeAfter(t, h)
    requires t.largeMultiple < |WindowSizes(h + [r], t.window)| as real
    ensures 0.0 < r.fillSize && LargeSize(t, WindowSizes(h + [r], t.window), r)
  {
    var before, all := WindowSizes(h, t.window - 1), WindowSizes(h + [r], t.window);
    WindowOfNext(h, r, t.window);
    WindowLength(h, t.window - 1);
    WindowIsPositive(h, t.window - 1);
    SumIsPositive(before);
    hide WindowSizes, SizeAbove, Mean, Sum, LargeSize;
    LargeNext(t, before, r);
  }

  lemma LargeNext(t: Thresholds, before: seq<real>, r: Record)
    requires |before| >= 3 && 0.0 <= Sum(before) && t.largeMultiple < (|before| + 1) as real
    requires r.fillSize == SizeAbove(Sum(before), (|before| + 1) as real, t.largeMultiple)
    ensures 0.0 < r.fillSize && LargeSize(t, before + [r.fillSize], r)
  {
    hide SizeAbove, Mean, Sum;
    MeanOfNext(before, r.fillSize);
    LargeShare(Sum(before), r.fillSize, (|before| + 1) as real, t.largeMultiple);
  }

  lemma WindowOfNext(h: seq<Record>, r: Record, window: nat)
    requires window > 0
    ensures WindowSizes(h + [r], window) == WindowSizes(h, window - 1) + [r.fillSize]
  {
    assert (h + [r])[..|h|] == h;
  }

  lemma SumOfNext(before: seq<real>, x: real)
    ensures Sum(before + [x]) == Sum(before) + x
  {
    assert (before + [x])[..|before|] == before;
  }

  lemma MeanOfNext(before: seq<real>, x: real)
    ensures Mean(before + [x]) == (Sum(before) + x) / (|before| + 1) as real
  {
    SumOfNext(before, x);
    hide Sum;
    assert |before + [x]| == |before| + 1;
  }

  lemma LargeShare(total: real, x: real, n: real, multiple: real)
    requires 0.0 <= total && 1.0 <= n && multiple < n && x == SizeAbove(total, n, multiple)
    ensures 0.0 < x && 0.0 < (total + x) / n && x >= (total + x) / n * multiple
  {
    var d, product := n - multiple, total * Abs(multiple);
    var y := product / d;
    ProductNotNegative(total, Abs(multiple));
    NotNegative(product, d);
    assert y * d == product;
    assert x == 1.0 + y;
    assert x * d == d + product;
    AtMostAbs(total, multiple);
    var m := (total + x) / n;
    assert m * n == total + x;
    Positive(total + x, n);
    Rearranged(x, m, n, total, multiple);
    SignOf(x - m * multiple, n);
  }

  lemma AtMostAbs(total: real, multiple: real)
    requires 0.0 <= total
    ensures total * multiple <= total * Abs(multiple)
  {
    ProductNotNegative(total, Abs(multiple) - multiple);
  }

  lemma Rearranged(x: real, m: real, n: real, total: real, multiple: real)
    requires m * n == total + x
    ensures (x - m * multiple) * n == x * (n - multiple) - total * multiple
  {
    assert m * multiple * n == (total + x) * multiple;
  }

  lemma NotNegative(a: real, b: real)
    requires 0.0 <= a && 0.0 < b
    ensures 0.0 <= a / b
  {
  }

  lemma Positive(a: real, b: real)
    requires 0.0 < a && 0.0 < b
    ensures 0.0 < a / b
  {
  }

  lemma SignOf(a: real, b: real)
    requires 0.0 < b && 0.0 <= a * b
    ensures 0.0 <= a
  {
    NotNegative(a * b, b);
    assert a == a * b / b;
  }

  // ── The feed ──

  /** A snapshot without quotes and orders, whose mid is the last price. */
  function Quiet(at: real, mid: real): Frame {
    Frame(MarketSnapshot(at, 0.0, 0.0, mid), [])
  }

  /** A snapshot at which one buy crosses. */
  function Buying(at: real, size: real): Frame {
    Frame(MarketSnapshot(at, 1.0, 1.0, 1.0), [OrderRequest("", Buy, 1.0, size, "")])
  }

  function Bought(at: real, size: real): Record {
    Record("replay", Buy, 1.0, size, 1.0, map[], at)
  }

  ghost predicate LateFor(rs: seq<Record>, at: real) {
    forall i :: 0 <= i < |rs| ==> at - rs[i].fillTime >= 30.0
  }

  lemma AllComplete(rs: seq<Record>, mid: real, at: real)
    requires AllPrefix(rs) && LateFor(rs, at)
    ensures var q := ApplyAll(rs, MidUpdate(mid, at)); Done(q) == q && Open(q) == []
  {
    var q := ApplyAll(rs, MidUpdate(mid, at));
    hide PrefixKeys, Complete, Apply;
    forall i | 0 <= i < |q|
      ensures Complete(q[i])
    {
      MarkedLate(rs[i], mid, at);
    }
    AllDone(q);
    NoneOpen(q);
  }

  // A snapshot after the longest interval completes, and has judged, all that waits.
  lemma LateStep(w: Wait, frame: Frame)
    requires AllPrefix(w.pending) && LateFor(w.pending, frame.snap.timestamp)
    ensures var e := MidUpdate(Mid(frame.snap), frame.snap.timestamp);
      Step(w, frame) == Wait(w.judged + (w.finished + ApplyAll(w.pending, e)), [], RecordsOf(frame.desired, frame.snap))
  {
    AllComplete(w.pending, Mid(frame.snap), frame.snap.timestamp);
    hide Done, Open, ApplyAll, LateFor, RecordsOf;
    assert [] + RecordsOf(frame.desired, frame.snap) == RecordsOf(frame.desired, frame.snap);
  }

  lemma QuietStep(w: Wait, mid: real, at: real)
    requires AllPrefix(w.pending) && LateFor(w.pending, at)
    ensures Step(w, Quiet(at, mid)) == Wait(w.judged + (w.finished + ApplyAll(w.pending, MidUpdate(mid, at))), [], [])
  {
    LateStep(w, Quiet(at, mid));
    hide Step, ApplyAll, LateFor, AllPrefix;
  }

  lemma BuyingStep(h: seq<Record>, at: real, size: real)
    ensures Step(Wait(h, [], []), Buying(at, size)) == Wait(h, [], [Bought(at, size)])
    ensures |FillsOf(Buying(at, size).desired, Buying(at, size).snap)| == 1
  {
    var frame := Buying(at, size);
    FillsOfStep(frame.desired, 0, frame.snap);
    RecordsOfStep(frame.desired, 0, frame.snap);
    assert frame.desired[..1] == frame.desired;
  }

  lemma ThreeFrames(w: Wait, a: Frame, b: Frame, c: Frame)
    ensures Fed(w, [a, b, c]) == Step(Step(Step(w, a), b), c)
    ensures |AllFills([a, b, c])|
            == |FillsOf(a.desired, a.snap)| + |FillsOf(b.desired, b.snap)| + |FillsOf(c.desired, c.snap)|
  {
    var frames := [a, b, c];
    FedStep(w, frames, 0);
    FedStep(w, frames, 1);
    FedStep(w, frames, 2);
    NoFrames();
    AllFillsStep(frames, 0);
    AllFillsStep(frames, 1);
    AllFillsStep(frames, 2);
    hide *;
    assert frames[..0] == [] && frames[..3] == frames;
  }

  // ── A record that one late mid makes toxic ──

  /** The record at place p is large in its window and a fast reversal, and adverse or able to turn so. */
  predicate Primed(t: Thresholds, line: seq<Record>, p: nat)
    requires p < |line|
  {
    var r := line[p];
    && LargeSize(t, WindowSizes(line[..p + 1], t.window), r) && r.midAtFill > 0.0 && FastReversal(t, r)
    && if Complete(r) then AdverseMarkout(t, r) else r.side == Sell ==> 0.0 < Reach(t, r)
  }

  /** The history once all that waits is completed by one late mid. */
  function Completed(t: Thresholds, w: Wait, p: nat, at: real): seq<Record>
    requires p < |Line(w)|
  {
    w.judged + (w.finished + ApplyAll(w.pending, MidUpdate(AdverseMid(t, Line(w)[p]), at)))
  }

  function Excess(t: Thresholds, w: Wait, p: nat, at: real): seq<Frame>
    requires p < |Line(w)| && t.window > 0
  {
    var size := LargeAfter(t, Completed(t, w, p, at));
    [Quiet(at, AdverseMid(t, Line(w)[p])), Buying(at, size), Quiet(at + 30.0, HighMid(t, Bought(at, size)))]
  }

  lemma CompletedLater(t: Thresholds, w: Wait, p: nat, at: real)
    requires Orderly(w) && p < |Line(w)| && Line(w)[p].midAtFill > 0.0
    ensures |Completed(t, w, p, at)| == |Line(w)| && LineLater(Completed(t, w, p, at), Line(w))
    ensures Completed(t, w, p, at)[..|w.judged|] == w.judged
  {
    var mid := AdverseMid(t, Line(w)[p]);
    HighIsPositive(t, Line(w)[p]);
    var q := ApplyAll(w.pending, MidUpdate(mid, at));
    MarkedInOrder(w.pending, mid, at);
    hide Done, Open, Later, Apply, Orderly, LineLater, AllPrefix, Complete, AdverseMid;
    LaterAppended(w.judged + w.finished, q, [], w.pending);
    Regroup(w.judged, w.finished, q, [], []);
    Regroup(w.judged, w.finished, w.pending, [], []);
    assert q + [] == q;
  }

  // After the late mid the record at place p is toxic but for its size.
  lemma CompletedIsAdverse(t: Thresholds, w: Wait, p: nat, at: real)
    requires Orderly(w) && LateFor(w.pending, at) && p < |Line(w)| && Primed(t, Line(w), p)
    requires p < |w.judged| ==> Complete(w.judged[p])
    ensures AdverseMarkout(t, Completed(t, w, p, at)[p]) && FastReversal(t, Completed(t, w, p, at)[p])
  {
    var r, k := Line(w)[p], p - |w.judged| - |w.finished|;
    hide AdverseMarkout, FastReversal, LargeSize, Complete, AdverseMid, Reach, WindowSizes, Punctual, Staggered, Apply;
    if p < |w.judged| {
      assert r == w.judged[p];
    } else if k < 0 {
      assert r == w.finished[p - |w.judged|] && r in w.finished;
    } else {
      assert r == w.pending[k] && r in w.pending;
      hide PrefixKeys;
      TurnsAdverse(t, r, at);
    }
  }

  lemma LaterIsToxic(t: Thresholds, h: seq<Record>, line: seq<Record>, p: nat)
    requires p < |h| == |line| && LineLater(h, line) && LargeAt(t, line, p)
    requires AdverseMarkout(t, h[p]) && FastReversal(t, h[p])
    ensures ToxicAt(t, h, p)
  {
    hide AdverseMarkout, FastReversal;
    LaterIsLarge(t, h, line, p);
    assert h[..p + 1][p] == h[p];
  }

  predicate LargeAt(t: Thresholds, line: seq<Record>, p: nat)
    requires p < |line|
  {
    LargeSize(t, WindowSizes(line[..p + 1], t.window), line[p])
  }

  lemma LaterIsLarge(t: Thresholds, h: seq<Record>, line: seq<Record>, p: nat)
    requires p < |h| && p < |line| && LineLater(h[..p + 1], line[..p + 1]) && LargeAt(t, line, p)
    ensures LargeAt(t, h, p)
  {
    hide WindowSizes, Mean, Complete;
    var a, b := h[..p + 1], line[..p + 1];
    forall i | 0 <= i < |a|
      ensures a[i].fillSize == b[i].fillSize
    {
      assert Later(a[i], b[i]);
    }
    SameWindow(a, b, t.window);
    assert a[p] == h[p] && b[p] == line[p];
  }

  lemma CompletedIsToxic(t: Thresholds, w: Wait, p: nat, at: real)
    requires Orderly(w) && LateFor(w.pending, at) && p < |Line(w)| && Primed(t, Line(w), p)
    requires p < |w.judged| ==> Complete(w.judged[p])
    ensures ToxicAt(t, Completed(t, w, p, at), p)
  {
    assert LargeAt(t, Line(w), p) && Line(w)[p].midAtFill > 0.0;
    hide *;
    CompletedLater(t, w, p, at);
    CompletedIsAdverse(t, w, p, at);
    LaterIsToxic(t, Completed(t, w, p, at), Line(w), p);
  }

  // A large size at place p leaves room for a large one later.
  lemma MultipleIsLow(t: Thresholds, line: seq<Record>, p: nat)
    requires p < |line| && PositiveSizes(line) && LargeAt(t, line, p)
    ensures t.window >= 4 && p >= 3
    ensures t.largeMultiple < (if p + 1 <= t.window then p + 1 else t.window) as real
  {
    var h := line[..p + 1];
    WindowLength(h, t.window);
    WindowIsPositive(h, t.window);
    LastOfWindow(h, t.window);
    hide WindowSizes, Mean;
    MultipleBelowLength(WindowSizes(h, t.window), t.largeMultiple);
  }

  lemma LastOfWindow(h: seq<Record>, window: nat)
    requires h != [] && window > 0
    ensures var s := WindowSizes(h, window); s != [] && s[|s| - 1] == h[|h| - 1].fillSize
  {
  }

  // The bought record, once marked, is toxic in turn.
  lemma BoughtIsToxic(t: Thresholds, h: seq<Record>, at: real)
    requires t.window >= 4 && |h| >= 3 && PositiveSizes(h)
    requires t.largeMultiple < (if |h| + 1 <= t.window then |h| + 1 else t.window) as real
    ensures var r := Bought(at, LargeAfter(t, h));
      LastIsToxic(t, h + [Apply(r, MidUpdate(HighMid(t, r), at + 30.0))])
  {
    var r := Bought(at, LargeAfter(t, h));
    var q := Apply(r, MidUpdate(HighMid(t, r), at + 30.0));
    MarkedLate(r, HighMid(t, r), at + 30.0);
    assert HighMid(t, q) == HighMid(t, r);
    hide HighMid, Apply, LargeAfter, AdverseMarkout, FastReversal, LargeSize, WindowSizes, Complete;
    HighIsAdverse(t, q);
    HighIsReversal(t, q);
    WindowLength(h + [q], t.window);
    LargeAfterIsLarge(t, h, q);
  }

  lemma TwoVerdicts(t: Thresholds, h: seq<Record>, n: nat, p: nat, q: Record)
    requires n <= p < |h| && ToxicAt(t, h, p) && LastIsToxic(t, h + [q])
    ensures ToxicCount(t, h + [q]) >= ToxicCount(t, h[..n]) + 2
  {
    hide LastIsToxic;
    assert (h + [q])[..|h|] == h;
    CountGrows(t, h, p + 1);
    CountGrows(t, h[..p], n);
    assert h[..p][..n] == h[..n] && h[..p + 1][..p] == h[..p];
  }

  lemma LastStep(h: seq<Record>, at: real, size: real, mid: real)
    ensures var r, later := Bought(at, size), at + 30.0;
      Step(Wait(h, [], [r]), Quiet(later, mid)) == Wait(h + [Apply(r, MidUpdate(mid, later))], [], [])
  {
    var r := Bought(at, size);
    assert AllPrefix([r]) && LateFor([r], at + 30.0);
    QuietStep(Wait(h, [], [r]), mid, at + 30.0);
    hide Step, Apply, Quiet, Bought;
  }

  lemma NoFills(at: real, mid: real)
    ensures FillsOf(Quiet(at, mid).desired, Quiet(at, mid).snap) == []
  {
  }

  lemma ExcessFed(t: Thresholds, w: Wait, p: nat, at: real)
    requires Orderly(w) && LateFor(w.pending, at) && p < |Line(w)| && t.window > 0
    ensures var h := Completed(t, w, p, at);
      var r := Bought(at, LargeAfter(t, h));
      Fed(w, Excess(t, w, p, at)).judged == h + [Apply(r, MidUpdate(HighMid(t, r), at + 30.0))]
    ensures |AllFills(Excess(t, w, p, at))| == 1
  {
    var h, mid := Completed(t, w, p, at), AdverseMid(t, Line(w)[p]);
    var r := Bought(at, LargeAfter(t, h));
    var a, b, c := Quiet(at, mid), Buying(at, LargeAfter(t, h)), Quiet(at + 30.0, HighMid(t, r));
    assert Excess(t, w, p, at) == [a, b, c];
    assert AllPrefix(w.pending) && h == w.judged + (w.finished + ApplyAll(w.pending, MidUpdate(mid, at)));
    hide *;
    ThreeFrames(w, a, b, c);
    QuietStep(w, mid, at);
    BuyingStep(h, at, LargeAfter(t, h));
    LastStep(h, at, LargeAfter(t, h), HighMid(t, r));
    NoFills(at, mid);
    NoFills(at + 30.0, HighMid(t, r));
  }

  // From a primed record on, three frames give two more verdicts.
  lemma ExcessCounts(t: Thresholds, w: Wait, p: nat, at: real, n: nat)
    requires Orderly(w) && PositiveSizes(Line(w)) && LateFor(w.pending, at)
    requires n <= p < |Line(w)| && n <= |w.judged| && (p < |w.judged| ==> Complete(w.judged[p]))
    requires Primed(t, Line(w), p)
    ensures t.window > 0 && |AllFills(Excess(t, w, p, at))| == 1
    ensures ToxicCount(t, Fed(w, Excess(t, w, p, at)).judged) >= ToxicCount(t, w.judged[..n]) + 2
  {
    assert LargeAt(t, Line(w), p) && Line(w)[p].midAtFill > 0.0;
    hide *;
    var h := Completed(t, w, p, at);
    MultipleIsLow(t, Line(w), p);
    CompletedLater(t, w, p, at);
    CompletedIsToxic(t, w, p, at);
    ExcessFed(t, w, p, at);
    LaterIsPositive(h, Line(w));
    BoughtIsToxic(t, h, at);
    var r := Bought(at, LargeAfter(t, h));
    TwoVerdicts(t, h, n, p, Apply(r, MidUpdate(HighMid(t, r), at + 30.0)));
    SamePrefix(h, w.judged, n);
  }

  lemma SamePrefix(h: seq<Record>, judged: seq<Record>, n: nat)
    requires n <= |judged| <= |h| && h[..|judged|] == judged
    ensures h[..n] == judged[..n]
  {
  }

  // ── The first mid ──

  /** After the waiting fills, and at least a second after that of a record. */
  function FirstTime(w: Wait, r: Record): real {
    if w.pending == [] || w.pending[|w.pending| - 1].fillTime <= r.fillTime + 1.0 then r.fillTime + 1.0
    else w.pending[|w.pending| - 1].fillTime
  }

  function Primer(t: Thresholds, w: Wait, p: nat): Frame
    requires p < |Line(w)|
  {
    Quiet(FirstTime(w, Line(w)[p]), HighMid(t, Line(w)[p]))
  }

  // The line after a snapshot without orders.
  lemma QuietLine(w: Wait, mid: real, at: real)
    requires Orderly(w) && 0.0 < mid
    ensures Line(Step(w, Quiet(at, mid))) == (w.judged + w.finished) + ApplyAll(w.pending, MidUpdate(mid, at))
    ensures Step(w, Quiet(at, mid)).finished == [] && |w.judged| <= |Step(w, Quiet(at, mid)).judged|
    ensures Step(w, Quiet(at, mid)).judged[..|w.judged|] == w.judged
    ensures forall k :: |w.judged| <= k < |Step(w, Quiet(at, mid)).judged| ==>
      Complete(Step(w, Quiet(at, mid)).judged[k])
  {
    var q := ApplyAll(w.pending, MidUpdate(mid, at));
    MarkedInOrder(w.pending, mid, at);
    Partition(q);
    assert RecordsOf([], Quiet(at, mid).snap) == [];
    hide Done, Open, ApplyAll, Complete, Staggered, AllPrefix, Punctual, LineLater, RecordsOf;
    Regroup(w.judged, w.finished, Done(q), Open(q), []);
    assert q + [] == q;
    var judged := w.judged + (w.finished + Done(q));
    forall k | |w.judged| <= k < |judged|
      ensures Complete(judged[k])
    {
      if k < |w.judged| + |w.finished| {
        assert judged[k] in w.finished;
      } else {
        assert judged[k] in Done(q);
      }
    }
  }

  lemma PrimerTime(w: Wait, p: nat)
    requires Orderly(w) && |w.judged| <= p < |Line(w)| && !Complete(Line(w)[p])
    ensures var r, at := Line(w)[p], FirstTime(w, Line(w)[p]);
      PrefixKeys(r) && at - r.fillTime < 30.0 && (1 !in r.midsAfter ==> at == r.fillTime + 1.0)
  {
    MissesLast(w, p);
    var k := p - |w.judged| - |w.finished|;
    assert Line(w)[p] == w.pending[k];
    assert MarkedBy(w.pending[k], w.pending[|w.pending| - 1].fillTime);
    assert INTERVALS[0] == 1 && INTERVALS[2] == 30;
    hide PrefixKeys, Complete, Staggered;
  }

  lemma PrimerMarks(t: Thresholds, w: Wait, p: nat)
    requires Orderly(w) && |w.judged| <= p < |Line(w)| && CouldTurnToxic(t, Line(w), p) && !Complete(Line(w)[p])
    ensures var line := Line(Step(w, Primer(t, w, p)));
      p < |line| && FastReversal(t, line[p]) && !Complete(line[p])
      && line[p] == Line(w)[p].(midsAfter := line[p].midsAfter)
  {
    var r, at := Line(w)[p], FirstTime(w, Line(w)[p]);
    var k := p - |w.judged| - |w.finished|;
    MissesLast(w, p);
    PrimerTime(w, p);
    HighIsPositive(t, r);
    QuietLine(w, HighMid(t, r), at);
    TurnsFast(t, r, at);
    hide Apply, FastReversal, Complete, PrefixKeys, HighMid, FirstTime, Orderly, LargeSize, WindowSizes, Reach, Step;
    assert r == w.pending[k];
  }

  // The first mid primes a record that could turn out toxic.
  lemma PrimerPrimes(t: Thresholds, w: Wait, p: nat)
    requires Orderly(w) && |w.judged| <= p < |Line(w)| && CouldTurnToxic(t, Line(w), p)
    ensures p < |Line(Step(w, Primer(t, w, p)))| && Primed(t, Line(Step(w, Primer(t, w, p))), p)
  {
    var w', r := Step(w, Primer(t, w, p)), Line(w)[p];
    HighIsPositive(t, r);
    StepLine(w, Primer(t, w, p));
    if !Complete(r) {
      PrimerMarks(t, w, p);
    }
    hide Step, Primer, Line, Orderly, FastReversal, AdverseMarkout, Complete, HighMid, WindowSizes, LargeSize, Reach;
    PrimedLine(t, Line(w'), Line(w), p);
  }

  lemma PrimedLine(t: Thresholds, line': seq<Record>, line: seq<Record>, p: nat)
    requires p < |line| && LineLater(line', line) && CouldTurnToxic(t, line, p)
    requires !Complete(line[p]) ==> FastReversal(t, line'[p]) && !Complete(line'[p])
    ensures Primed(t, line', p)
  {
    hide FastReversal, AdverseMarkout, Complete, WindowSizes, LargeSize;
    PrefixLater(line', line, p + 1);
    LaterIsLarge(t, line', line, p);
    assert Later(line'[p], line[p]);
    hide LineLater;
    assert Reach(t, line'[p]) == Reach(t, line[p]);
  }

  // ── The whole feed ──

  lemma {:induction false} FedFirst(w: Wait, a: Frame, frames: seq<Frame>)
    ensures Fed(w, [a] + frames) == Fed(Step(w, a), frames)
    ensures AllFills([a] + frames) == FillsOf(a.desired, a.snap) + AllFills(frames)
  {
    hide *;
    var all := [a] + frames;
    if frames == [] {
      assert all == [a];
      OneFrame(w, a);
      NothingFed(Step(w, a));
      NoFrames();
    } else {
      var n := |frames| - 1;
      FedFirst(w, a, frames[..n]);
      assert all[..n + 1] == [a] + frames[..n] && all[..n + 2] == all && frames[..n + 1] == frames;
      FedStep(w, all, n + 1);
      FedStep(Step(w, a), frames, n);
      AllFillsStep(all, n + 1);
      AllFillsStep(frames, n);
    }
  }

  lemma OneFrame(w: Wait, frame: Frame)
    ensures Fed(w, [frame]) == Step(w, frame) && AllFills([frame]) == FillsOf(frame.desired, frame.snap)
  {
    FedStep(w, [frame], 0);
    AllFillsStep([frame], 0);
    NoFrames();
    assert [frame][..0] == [] && [frame][..1] == [frame];
  }

  lemma FeedIsProper(t: Thresholds, w: Wait, p: nat, w': Wait)
    requires Orderly(w) && p < |Line(w)| && p < |Line(w')| && t.window > 0
    requires Line(w)[p].midAtFill > 0.0 && Line(w')[p].midAtFill > 0.0
    ensures ProperFeed(w, [Primer(t, w, p)] + Excess(t, w', p, FirstTime(w, Line(w)[p]) + 30.0))
  {
    HighIsPositive(t, Line(w)[p]);
    HighIsPositive(t, Line(w')[p]);
    var at := FirstTime(w, Line(w)[p]);
    var r := Bought(at + 30.0, LargeAfter(t, Completed(t, w', p, at + 30.0)));
    HighIsPositive(t, r);
    hide HighMid, AdverseMid, LargeAfter, Completed, Line, PrefixKeys, Complete;
    forall q | q in w.pending
      ensures q.fillTime <= at
    {
      var i :| 0 <= i < |w.pending| && q == w.pending[i];
      assert i < |w.pending| - 1 ==> w.pending[i].fillTime <= w.pending[|w.pending| - 1].fillTime;
    }
  }

  lemma PrimerLate(t: Thresholds, w: Wait, p: nat)
    requires Orderly(w) && p < |Line(w)| && Line(w)[p].midAtFill > 0.0
    ensures var w' := Step(w, Primer(t, w, p)); Orderly(w') && LateFor(w'.pending, FirstTime(w, Line(w)[p]) + 30.0)
  {
    HighIsPositive(t, Line(w)[p]);
    var at, w' := FirstTime(w, Line(w)[p]), Step(w, Primer(t, w, p));
    forall q | q in w.pending
      ensures q.fillTime <= at
    {
      var i :| 0 <= i < |w.pending| && q == w.pending[i];
      assert i < |w.pending| - 1 ==> w.pending[i].fillTime <= w.pending[|w.pending| - 1].fillTime;
    }
    StepOrderly(w, Primer(t, w, p));
    hide Step, Orderly, FirstTime, HighMid, Line;
    forall i | 0 <= i < |w'.pending|
      ensures at + 30.0 - w'.pending[i].fillTime >= 30.0
    {
      assert w'.pending[i] in w'.pending;
    }
  }

  /** A waiting record that could turn out toxic lets a feed of one fill report two toxic verdicts. */
  lemma ExcessExceeds(t: Thresholds, w: Wait, p: nat) returns (frames: seq<Frame>)
    requires Orderly(w) && PositiveSizes(Line(w)) && |w.judged| <= p < |Line(w)| && CouldTurnToxic(t, Line(w), p)
    ensures ProperFeed(w, frames) && !InShare(t, w, frames)
  {
    var a, at, r := Primer(t, w, p), FirstTime(w, Line(w)[p]) + 30.0, Line(w)[p];
    var w' := Step(w, a);
    assert r.midAtFill > 0.0;
    HighIsPositive(t, r);
    PrimerPrimes(t, w, p);
    PrimerLate(t, w, p);
    StepLine(w, a);
    QuietLine(w, HighMid(t, r), FirstTime(w, r));
    MarkedAll(w, a);
    assert Line(w')[p].midAtFill > 0.0;
    hide *;
    LaterIsPositive(Line(w'), Line(w));
    ExcessCounts(t, w', p, at, |w.judged|);
    FeedIsProper(t, w, p, w');
    frames := [a] + Excess(t, w', p, at);
    FedFirst(w, a, Excess(t, w', p, at));
    NoFills(FirstTime(w, r), HighMid(t, r));
    PrimerFrame(t, w, p);
    Exceeds(t, w, frames);
  }

  lemma PrimerFrame(t: Thresholds, w: Wait, p: nat)
    requires p < |Line(w)|
    ensures Primer(t, w, p) == Quiet(FirstTime(w, Line(w)[p]), HighMid(t, Line(w)[p]))
  {
  }

  // A snapshot without orders adds no record.
  lemma MarkedAll(w: Wait, a: Frame)
    requires Orderly(w) && a == Quiet(a.snap.timestamp, Mid(a.snap)) && 0.0 < Mid(a.snap)
    ensures |Line(Step(w, a))| == |Line(w)|
  {
    QuietLine(w, Mid(a.snap), a.snap.timestamp);
    hide Step, Orderly;
  }

  lemma Exceeds(t: Thresholds, w: Wait, frames: seq<Frame>)
    requires |AllFills(frames)| == 1 && ToxicCount(t, Fed(w, frames).judged) >= ToxicCount(t, w.judged) + 2
    ensures !InShare(t, w, frames)
  {
    hide AllFills, ToxicCount, Fed;
  }

  lemma LaterIsPositive(h: seq<Record>, line: seq<Record>)
    requires |h| == |line| && LineLater(h, line) && PositiveSizes(line)
    ensures PositiveSizes(h)
  {
    forall i | 0 <= i < |h|
      ensures 0.0 < h[i].fillSize
    {
      assert Later(h[i], line[i]);
    }
  }

  /** The toxic ratio of the next replay is a share of its fills, whatever feed with positive mids comes in order
      of time, exactly when none of the waiting records could still turn out toxic. */
  lemma ShareExactly(t: Thresholds, w: Wait)
    requires Orderly(w) && PositiveSizes(Line(w))
    ensures (forall frames :: ProperFeed(w, frames) ==> InShare(t, w, frames)) <==> NoneCouldTurnToxic(t, w)
  {
    hide ProperFeed, InShare, Orderly, PositiveSizes, CouldTurnToxic, Line;
    if NoneCouldTurnToxic(t, w) {
      forall frames | ProperFeed(w, frames)
        ensures InShare(t, w, frames)
      {
        NoneTurnsToxic(t, w, frames);
      }
    } else {
      var p: nat :| |w.judged| <= p < |Line(w)| && CouldTurnToxic(t, Line(w), p);
      var frames := ExcessExceeds(t, w, p);
    }
  }

  // ── A second run ──

  const STANDARD := Thresholds(-20.0, 3.0, 10.0, 20)

  function BuyAt(price: real, size: real): OrderRequest {
    OrderRequest("", Buy, price, size, "")
  }

  const FIRST_RUN := [
    Frame(MarketSnapshot(0.0, 100.0, 100.0, 100.0),
      [BuyAt(100.0, 1.0), BuyAt(100.0, 1.0), BuyAt(100.0, 1.0), BuyAt(100.0, 9.0), BuyAt(100.0, 18.0)])]

  const SECOND_RUN := [Frame(MarketSnapshot(30.0, 101.0, 101.0, 101.0), [BuyAt(101.0, 1.0)])]

  function Early(size: real): Record {
    Record("replay", Buy, 100.0, size, 100.0, map[], 0.0)
  }

  function Marked(size: real): Record {
    Apply(Early(size), MidUpdate(101.0, 30.0))
  }

  lemma EarlyRecord(size: real)
    ensures OrderRecord(BuyAt(100.0, size), FIRST_RUN[0].snap) == [Early(size)]
  {
  }

  lemma FirstRunWaits()
    ensures Fed(Wait([], [], []), FIRST_RUN)
            == Wait([], [], [Early(1.0), Early(1.0), Early(1.0), Early(9.0), Early(18.0)])
  {
    var frame := FIRST_RUN[0];
    OneFrame(Wait([], [], []), frame);
    NothingMarked(frame);
    FiveOrders(frame.desired, frame.snap);
    EarlyRecord(1.0);
    EarlyRecord(9.0);
    EarlyRecord(18.0);
    hide RecordsOf, OrderRecord, Fed, Step, Early;
  }

  lemma NothingMarked(frame: Frame)
    ensures Step(Wait([], [], []), frame) == Wait([], [], RecordsOf(frame.desired, frame.snap))
  {
    assert ApplyAll([], MidUpdate(Mid(frame.snap), frame.snap.timestamp)) == [];
    hide RecordsOf, ApplyAll, Mid;
  }

  lemma FiveOrders(desired: seq<OrderRequest>, snap: MarketSnapshot)
    requires |desired| == 5
    ensures RecordsOf(desired, snap) == OrderRecord(desired[0], snap) + OrderRecord(desired[1], snap)
      + OrderRecord(desired[2], snap) + OrderRecord(desired[3], snap) + OrderRecord(desired[4], snap)
  {
    hide *;
    RecordsOfStep(desired, 0, snap);
    RecordsOfStep(desired, 1, snap);
    RecordsOfStep(desired, 2, snap);
    RecordsOfStep(desired, 3, snap);
    RecordsOfStep(desired, 4, snap);
    assert [] + OrderRecord(desired[0], snap) == OrderRecord(desired[0], snap);
  }

  lemma MarkedIsToxic(h: seq<Record>, size: real)
    requires LargeSize(STANDARD, WindowSizes(h + [Marked(size)], 20), Marked(size))
    ensures LastIsToxic(STANDARD, h + [Marked(size)])
  {
    MarkedLate(Early(size), 101.0, 30.0);
    hide Apply, WindowSizes, LargeSize;
  }

  lemma SizesOfRun()
    ensures var h := [Marked(1.0), Marked(1.0), Marked(1.0)];
      && WindowSizes(h + [Marked(9.0)], 20) == [1.0, 1.0, 1.0, 9.0]
      && WindowSizes(h + [Marked(9.0)] + [Marked(18.0)], 20) == [1.0, 1.0, 1.0, 9.0, 18.0]
  {
    var a, b, c := Marked(1.0), Marked(9.0), Marked(18.0);
    MarkedLate(Early(1.0), 101.0, 30.0);
    MarkedLate(Early(9.0), 101.0, 30.0);
    MarkedLate(Early(18.0), 101.0, 30.0);
    hide Apply;
    FourSizes(a, a, a, b, 20);
    FourSizes(a, a, a, b, 19);
    WindowOfNext([a, a, a] + [b], c, 20);
  }

  lemma FourSizes(a: Record, b: Record, c: Record, d: Record, window: nat)
    requires window >= 4
    ensures WindowSizes([a, b, c] + [d], window) == [a.fillSize, b.fillSize, c.fillSize, d.fillSize]
  {
    WindowOfNext([a, b, c], d, window);
    WindowOfNext([a, b], c, window - 1);
    WindowOfNext([a], b, window - 2);
    WindowOfNext([], a, window - 3);
    assert [a, b] + [c] == [a, b, c] && [a] + [b] == [a, b] && [] + [a] == [a];
  }

  lemma MeansOfRun()
    ensures Mean([1.0, 1.0, 1.0, 9.0]) == 3.0 && Mean([1.0, 1.0, 1.0, 9.0, 18.0]) == 6.0
  {
    SumOfNext([], 1.0);
    SumOfNext([1.0], 1.0);
    SumOfNext([1.0, 1.0], 1.0);
    SumOfNext([1.0, 1.0, 1.0], 9.0);
    SumOfNext([1.0, 1.0, 1.0, 9.0], 18.0);
    assert [] + [1.0] == [1.0] && [1.0] + [1.0] == [1.0, 1.0] && [1.0, 1.0] + [1.0] == [1.0, 1.0, 1.0];
    assert [1.0, 1.0, 1.0] + [9.0] == [1.0, 1.0, 1.0, 9.0];
    assert [1.0, 1.0, 1.0, 9.0] + [18.0] == [1.0, 1.0, 1.0, 9.0, 18.0];
    assert Sum([1.0, 1.0, 1.0, 9.0]) == 12.0;
    hide Sum;
  }

  lemma LargeInRun()
    ensures var h := [Marked(1.0), Marked(1.0), Marked(1.0)];
      && LargeSize(STANDARD, WindowSizes(h + [Marked(9.0)], 20), Marked(9.0))
      && LargeSize(STANDARD, WindowSizes(h + [Marked(9.0)] + [Marked(18.0)], 20), Marked(18.0))
  {
    MarkedLate(Early(9.0), 101.0, 30.0);
    MarkedLate(Early(18.0), 101.0, 30.0);
    hide Apply, WindowSizes, Mean, Complete;
    SizesOfRun();
    MeansOfRun();
  }

  lemma VerdictsOfRun()
    ensures ToxicCount(STANDARD, [Marked(1.0), Marked(1.0), Marked(1.0), Marked(9.0)] + [Marked(18.0)]) >= 2
  {
    var h, front := [Marked(1.0), Marked(1.0), Marked(1.0), Marked(9.0)], [Marked(1.0), Marked(1.0), Marked(1.0)];
    LargeInRun();
    hide Marked, WindowSizes, LargeSize, LastIsToxic;
    assert h == front + [Marked(9.0)] && h[..4] == h && h[..0] == [];
    MarkedIsToxic(front, 9.0);
    MarkedIsToxic(h, 18.0);
    TwoVerdicts(STANDARD, h, 0, 3, Marked(18.0));
  }

  lemma SecondRunMarks()
    ensures ApplyAll([Early(1.0), Early(1.0), Early(1.0), Early(9.0), Early(18.0)], MidUpdate(101.0, 30.0))
      == [Marked(1.0), Marked(1.0), Marked(1.0), Marked(9.0)] + [Marked(18.0)]
  {
    hide Apply;
  }

  lemma SecondRunJudges(w: Wait)
    requires w == Wait([], [], [Early(1.0), Early(1.0), Early(1.0), Early(9.0), Early(18.0)])
    ensures Fed(w, SECOND_RUN).judged == [Marked(1.0), Marked(1.0), Marked(1.0), Marked(9.0)] + [Marked(18.0)]
  {
    var frame := SECOND_RUN[0];
    OneFrame(w, frame);
    LateStep(w, frame);
    SecondRunMarks();
    hide ApplyAll, Marked, Step, Fed;
  }

  lemma SecondRunFills()
    ensures |AllFills(SECOND_RUN)| == 1
  {
    var frame := SECOND_RUN[0];
    OneFrame(Wait([], [], []), frame);
    FillsOfStep(frame.desired, 0, frame.snap);
    assert frame.desired[..1] == frame.desired;
  }

  /** A second run with a toxic ratio above 1: two of the five fills of the first are found toxic in it,
      and it has one fill of its own. */
  lemma SecondRunExceeds()
    ensures var w := Fed(Wait([], [], []), FIRST_RUN);
      Orderly(w) && ProperFeed(w, SECOND_RUN) && |AllFills(SECOND_RUN)| == 1 && !InShare(STANDARD, w, SECOND_RUN)
  {
    var w := Fed(Wait([], [], []), FIRST_RUN);
    RunsAreProper(w);
    FedLine(Wait([], [], []), FIRST_RUN);
    hide *;
    FirstRunWaits();
    SecondRunJudges(w);
    SecondRunFills();
    VerdictsOfRun();
    NoneJudged();
    Exceeds(STANDARD, w, SECOND_RUN);
  }

  lemma RunsAreProper(w: Wait)
    requires w == Fed(Wait([], [], []), FIRST_RUN)
    ensures Orderly(Wait([], [], [])) && ProperFeed(Wait([], [], []), FIRST_RUN) && ProperFeed(w, SECOND_RUN)
  {
    FirstRunWaits();
    hide Fed;
    assert Mid(FIRST_RUN[0].snap) == 100.0 && Mid(SECOND_RUN[0].snap) == 101.0;
  }

  lemma NoneJudged()
    ensures ToxicCount(STANDARD, []) == 0
  {
  }
}

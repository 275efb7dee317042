// smasher/probe.py: a small fill that is soon followed by a large one on the same side.
//
// Probing says what a probe and an attack are over the full sequence of fills; the detector keeps
// the sizes and a trimmed deque of probes.

module Probing {
  import opened Types
  import opened Windows
  import opened Averages

  datatype Config = Config(window: real, smallQuantile: real, largeMultiple: real, minSamples: int)

  datatype Fill = Fill(side: Side, size: real, at: real)

  function SizesOf(fills: seq<Fill>): seq<real> {
    seq(|fills|, i requires 0 <= i < |fills| => fills[i].size)
  }

  function TotalSize(fills: seq<Fill>): real {
    if fills == [] then 0.0 else TotalSize(fills[..|fills| - 1]) + fills[|fills| - 1].size
  }

  /** The fills that are not older than the cutoff. */
  function Since(fills: seq<Fill>, cutoff: real): seq<Fill> {
    if fills == [] then []
    else
      var f := fills[|fills| - 1];
      Since(fills[..|fills| - 1], cutoff) + if f.at >= cutoff then [f] else []
  }

  /** The sizes that a fill is measured against: those of all fills, as the code keeps them, or those of
      the rolling window, as it is documented. */
  datatype Reading = AllFills | RollingWindow

  function Basis(c: Config, r: Reading, fills: seq<Fill>, now: real): seq<Fill> {
    if r == AllFills then fills else Since(fills, now - c.window)
  }

  /** The fills that the last one is measured against, itself among them. */
  function Measured(c: Config, r: Reading, fills: seq<Fill>): seq<Fill>
    requires fills != []
  {
    Basis(c, r, fills, fills[|fills| - 1].at)
  }

  /** There are enough fills, and their mean size is positive. */
  predicate Judged(c: Config, basis: seq<Fill>) {
    |basis| >= c.minSamples && basis != [] && Mean(SizesOf(basis)) > 0.0
  }

  predicate Small(c: Config, mean: real, size: real) {
    size <= mean * c.smallQuantile
  }

  predicate Large(c: Config, mean: real, size: real) {
    size >= mean * c.largeMultiple
  }

  /** The last of the fills is a probe: small against the mean. */
  predicate EndsInProbe(c: Config, r: Reading, fills: seq<Fill>) {
    fills != [] && Judged(c, Measured(c, r, fills))
    && Small(c, Mean(SizesOf(Measured(c, r, fills))), fills[|fills| - 1].size)
  }

  /** Fill number j is a probe on the side and not older than the cutoff. */
  ghost predicate ProbeAt(c: Config, r: Reading, fills: seq<Fill>, j: nat, side: Side, cutoff: real) {
    j < |fills| && EndsInProbe(c, r, fills[..j + 1]) && fills[j].side == side && fills[j].at >= cutoff
  }

  /** Some fill is a probe on the side and not older than the cutoff. */
  ghost predicate ProbeAmong(c: Config, r: Reading, fills: seq<Fill>, side: Side, cutoff: real) {
    exists j: nat :: ProbeAt(c, r, fills, j, side, cutoff)
  }

  /** The last of the fills is an attack: large, and after an in-window probe on its side. */
  ghost predicate EndsInAttack(c: Config, r: Reading, fills: seq<Fill>) {
    && fills != [] && Judged(c, Measured(c, r, fills)) && !EndsInProbe(c, r, fills)
    && var f := fills[|fills| - 1];
    && Large(c, Mean(SizesOf(Measured(c, r, fills))), f.size)
    && ProbeAmong(c, r, fills[..|fills| - 1], f.side, f.at - c.window)
  }

  ghost function TotalOf(fills: seq<Fill>): real {
    Sum(seq(|fills|, i requires 0 <= i < |fills| => fills[i].size))
  }

  /** There are enough fills, of positive size in total. */
  ghost predicate Enough(c: Config, basis: seq<Fill>) {
    |basis| >= c.minSamples && basis != [] && 0.0 < TotalOf(basis)
  }

  lemma ComparedWithMean(basis: seq<Fill>, size: real, factor: real)
    requires basis != []
    ensures Mean(SizesOf(basis)) > 0.0 <==> 0.0 < TotalOf(basis)
    ensures size <= Mean(SizesOf(basis)) * factor <==> Times(size, |basis| as real) <= Times(factor, TotalOf(basis))
    ensures size >= Mean(SizesOf(basis)) * factor <==> Times(size, |basis| as real) >= Times(factor, TotalOf(basis))
  {
    assert SizesOf(basis) == seq(|basis|, i requires 0 <= i < |basis| => basis[i].size);
    var m, n, total := Mean(SizesOf(basis)), |basis| as real, TotalOf(basis);
    MeanTimesCount(SizesOf(basis));
    hide Mean, Sum, TotalOf, SizesOf;
    ScaledByCount(size, m * factor, n);
    ScaledByCount(m * factor, size, n);
    ScaledByCount(m, 0.0, n);
    assert m * factor * n == factor * total;
  }

  lemma ScaledByCount(x: real, y: real, n: real)
    requires 0.0 < n
    ensures x <= y <==> x * n <= y * n
  {
    if x <= y {
      assert 0.0 <= (y - x) * n;
    } else {
      assert 0.0 < (x - y) * n;
    }
  }

  /** A probe is a fill whose size, times the number of fills it is measured against, is at most the small
      quantile of their total. */
  lemma ProbeMeans(c: Config, r: Reading, fills: seq<Fill>)
    requires fills != []
    ensures var basis, size := Measured(c, r, fills), fills[|fills| - 1].size;
      EndsInProbe(c, r, fills) <==>
        Enough(c, basis) && Times(size, |basis| as real) <= Times(c.smallQuantile, TotalOf(basis))
  {
    var basis := Measured(c, r, fills);
    if basis != [] {
      ComparedWithMean(basis, fills[|fills| - 1].size, c.smallQuantile);
    }
    hide Mean, SizesOf, TotalOf, Times, Measured;
  }

  /** An attack is no probe, its size times that number at least the large multiple of the total, and it comes
      after an in-window probe on its side. */
  lemma AttackMeans(c: Config, r: Reading, fills: seq<Fill>)
    requires fills != []
    ensures var basis, f := Measured(c, r, fills), fills[|fills| - 1];
      EndsInAttack(c, r, fills) <==>
        && Enough(c, basis) && !EndsInProbe(c, r, fills)
        && Times(f.size, |basis| as real) >= Times(c.largeMultiple, TotalOf(basis))
        && ProbeAmong(c, r, fills[..|fills| - 1], f.side, f.at - c.window)
  {
    var basis := Measured(c, r, fills);
    if basis != [] {
      ComparedWithMean(basis, fills[|fills| - 1].size, c.largeMultiple);
    }
    hide Mean, SizesOf, TotalOf, Times, Measured, ProbeAmong, EndsInProbe;
  }

  /** All the probes among the fills, as the code sees them. */
  function Probes(c: Config, fills: seq<Fill>): seq<Stamped<Side>> {
    if fills == [] then []
    else
      var f := fills[|fills| - 1];
      Probes(c, fills[..|fills| - 1]) + if EndsInProbe(c, AllFills, fills) then [Stamped(f.side, f.at)] else []
  }

  ghost predicate Until(fills: seq<Fill>, now: real) {
    && (forall i, j :: 0 <= i < j < |fills| ==> fills[i].at <= fills[j].at)
    && forall i :: 0 <= i < |fills| ==> fills[i].at <= now
  }

  ghost predicate HoldsYoung(d: seq<Stamped<Side>>, side: Side, cutoff: real) {
    exists e :: e in d && e.item == side && e.at >= cutoff
  }

  /** There is an in-window probe of the side among the fills exactly when their probes hold one. */
  lemma {:induction false} ProbesAreProbes(c: Config, fills: seq<Fill>, side: Side, cutoff: real)
    ensures ProbeAmong(c, AllFills, fills, side, cutoff) <==> HoldsYoung(Probes(c, fills), side, cutoff)
  {
    hide EndsInProbe;
    if fills != [] {
      var n := |fills| - 1;
      ProbesAreProbes(c, fills[..n], side, cutoff);
      assert fills[..n + 1] == fills;
      forall j: nat | j < n
        ensures ProbeAt(c, AllFills, fills, j, side, cutoff) == ProbeAt(c, AllFills, fills[..n], j, side, cutoff)
      {
        assert fills[..n][..j + 1] == fills[..j + 1];
      }
      if HoldsYoung(Probes(c, fills), side, cutoff) {
        var e :| e in Probes(c, fills) && e.item == side && e.at >= cutoff;
        if e !in Probes(c, fills[..n]) {
          assert ProbeAt(c, AllFills, fills, n, side, cutoff);
        } else {
          assert HoldsYoung(Probes(c, fills[..n]), side, cutoff);
          var j: nat :| ProbeAt(c, AllFills, fills[..n], j, side, cutoff);
          assert ProbeAt(c, AllFills, fills, j, side, cutoff);
        }
      }
      if ProbeAmong(c, AllFills, fills, side, cutoff) {
        var j: nat :| ProbeAt(c, AllFills, fills, j, side, cutoff);
        if j < n {
          assert ProbeAt(c, AllFills, fills[..n], j, side, cutoff);
          var e :| e in Probes(c, fills[..n]) && e.item == side && e.at >= cutoff;
          assert e in Probes(c, fills);
        } else {
          assert Stamped(fills[n].side, fills[n].at) in Probes(c, fills);
        }
      }
    }
  }

  lemma {:induction false} ProbesUntil(c: Config, fills: seq<Fill>, now: real)
    requires Until(fills, now)
    ensures InTimeOrder(Probes(c, fills)) && forall e :: e in Probes(c, fills) ==> e.at <= now
  {
    hide EndsInProbe;
    if fills != [] {
      var n := |fills| - 1;
      ProbesUntil(c, fills[..n], fills[n].at);
    }
  }

  // ── All sizes, or those of the window ──

  ghost predicate PositiveSizes(fills: seq<Fill>) {
    forall i :: 0 <= i < |fills| ==> 0.0 < fills[i].size
  }

  lemma {:induction false} SumIsTotal(fills: seq<Fill>)
    ensures Sum(SizesOf(fills)) == TotalSize(fills)
  {
    if fills != [] {
      SumIsTotal(fills[..|fills| - 1]);
      assert SizesOf(fills)[..|fills| - 1] == SizesOf(fills[..|fills| - 1]);
    }
  }

  lemma {:induction false} TotalIsPositive(fills: seq<Fill>)
    requires PositiveSizes(fills)
    ensures 0.0 <= TotalSize(fills) && (fills != [] ==> 0.0 < TotalSize(fills))
  {
    if fills != [] {
      TotalIsPositive(fills[..|fills| - 1]);
    }
  }

  lemma {:induction false} SinceIsPositive(fills: seq<Fill>, cutoff: real)
    requires PositiveSizes(fills)
    ensures PositiveSizes(Since(fills, cutoff))
  {
    if fills != [] {
      SinceIsPositive(fills[..|fills| - 1], cutoff);
    }
  }

  lemma {:induction false} SinceAll(fills: seq<Fill>, cutoff: real)
    requires forall i :: 0 <= i < |fills| ==> fills[i].at >= cutoff
    ensures Since(fills, cutoff) == fills
  {
    if fills != [] {
      SinceAll(fills[..|fills| - 1], cutoff);
      assert fills == fills[..|fills| - 1] + [fills[|fills| - 1]];
    }
  }

  lemma {:induction false} SinceHolds(fills: seq<Fill>, cutoff: real, j: nat)
    requires j < |fills| && fills[j].at >= cutoff
    ensures Since(fills, cutoff) != []
  {
    if j < |fills| - 1 {
      SinceHolds(fills[..|fills| - 1], cutoff, j);
    }
  }

  /** While no fill since the reset is older than the window, the code's verdicts are the documented ones. */
  lemma ReadingsAgree(c: Config, fills: seq<Fill>)
    requires fills != [] && Until(fills, fills[|fills| - 1].at)
    requires fills[0].at >= fills[|fills| - 1].at - c.window
    ensures EndsInAttack(c, AllFills, fills) <==> EndsInAttack(c, RollingWindow, fills)
  {
    hide Mean, Small, Large, Since, Judged;
    forall n: nat | 0 < n <= |fills|
      ensures EndsInProbe(c, AllFills, fills[..n]) <==> EndsInProbe(c, RollingWindow, fills[..n])
    {
      MeasuresAll(c, fills, n);
    }
    MeasuresAll(c, fills, |fills|);
    assert fills[..|fills|] == fills;
    var f := fills[|fills| - 1];
    SameProbes(c, fills, fills[..|fills| - 1], f.side, f.at - c.window);
    hide EndsInProbe, ProbeAmong;
  }

  lemma MeasuresAll(c: Config, fills: seq<Fill>, n: nat)
    requires 0 < n <= |fills| && Until(fills, fills[|fills| - 1].at)
    requires fills[0].at >= fills[|fills| - 1].at - c.window
    ensures Measured(c, AllFills, fills[..n]) == Measured(c, RollingWindow, fills[..n])
  {
    SinceAll(fills[..n], fills[n - 1].at - c.window);
  }

  lemma SameProbes(c: Config, fills: seq<Fill>, front: seq<Fill>, side: Side, cutoff: real)
    requires fills != [] && front == fills[..|fills| - 1]
    requires forall n: nat :: 0 < n <= |fills| ==>
      (EndsInProbe(c, AllFills, fills[..n]) <==> EndsInProbe(c, RollingWindow, fills[..n]))
    ensures ProbeAmong(c, AllFills, front, side, cutoff) <==> ProbeAmong(c, RollingWindow, front, side, cutoff)
  {
    hide EndsInProbe;
    forall j: nat
      ensures ProbeAt(c, AllFills, front, j, side, cutoff) <==> ProbeAt(c, RollingWindow, front, j, side, cutoff)
    {
      if j < |front| {
        assert front[..j + 1] == fills[..j + 1];
      }
    }
  }

  /** Some size of a next fill at this time, on this side, would be an attack. */
  ghost predicate Flaggable(c: Config, r: Reading, fills: seq<Fill>, side: Side, now: real) {
    var basis := Basis(c, r, fills, now);
    && |basis| + 1 >= c.minSamples && c.largeMultiple < (|basis| + 1) as real
    && ProbeAmong(c, r, fills, side, now - c.window)
  }

  /** The least size of a next fill that is large, itself counted in the mean. */
  function AttackSize(c: Config, basis: seq<Fill>): real {
    var n := (|basis| + 1) as real;
    if c.largeMultiple < n then c.largeMultiple * TotalSize(basis) / (n - c.largeMultiple) else 0.0
  }

  ghost predicate Ordinary(c: Config) {
    0.0 <= c.window && 0.0 <= c.smallQuantile < c.largeMultiple
  }

  lemma LargeMeans(total: real, x: real, n: real, mean: real, multiple: real, quantile: real)
    requires 0.0 < total && 0.0 < x && 0.0 < n && 0.0 <= quantile < multiple
    requires mean == (total + x) / n
    ensures 0.0 < mean
    ensures x >= mean * multiple ==> !(x <= mean * quantile)
    ensures x >= mean * multiple <==> multiple < n && x >= multiple * total / (n - multiple)
  {
    assert mean * n == total + x;
    MeanIsPositive(total + x, n);
    Grows(mean, quantile, multiple);
    if multiple < n {
      var d, bound := n - multiple, multiple * total / (n - multiple);
      assert bound * d == multiple * total;
      assert (x - mean * multiple) * n == x * n - (total + x) * multiple;
      assert x * n - (total + x) * multiple == (x - bound) * d;
      SameSign(x - mean * multiple, n, x - bound, d);
    } else {
      Grows'(mean, n, multiple);
    }
  }

  lemma MeanIsPositive(sum: real, n: real)
    requires 0.0 < sum && 0.0 < n
    ensures 0.0 < sum / n
  {
  }

  lemma Grows(mean: real, a: real, b: real)
    requires 0.0 < mean && a < b
    ensures mean * a < mean * b
  {
  }

  lemma Grows'(mean: real, a: real, b: real)
    requires 0.0 < mean && a <= b
    ensures mean * a <= mean * b
  {
  }

  lemma SameSign(a: real, n: real, b: real, d: real)
    requires 0.0 < n && 0.0 < d && a * n == b * d
    ensures 0.0 <= a <==> 0.0 <= b
  {
    if 0.0 <= a {
      assert 0.0 <= a * n;
    } else {
      assert a * n < 0.0;
    }
  }

  lemma BasisOfProbe(c: Config, r: Reading, fills: seq<Fill>, side: Side, now: real)
    requires PositiveSizes(fills) && ProbeAmong(c, r, fills, side, now - c.window)
    ensures 0.0 < TotalSize(Basis(c, r, fills, now))
  {
    var j: nat :| ProbeAt(c, r, fills, j, side, now - c.window);
    SinceHolds(fills, now - c.window, j);
    SinceIsPositive(fills, now - c.window);
    TotalIsPositive(Basis(c, r, fills, now));
  }

  lemma MeanWithNext(basis: seq<Fill>, f: Fill)
    ensures SizesOf(basis + [f]) != []
    ensures Mean(SizesOf(basis + [f])) == (TotalSize(basis) + f.size) / (|basis| + 1) as real
  {
    SumIsTotal(basis + [f]);
    assert (basis + [f])[..|basis|] == basis;
    assert TotalSize(basis + [f]) == TotalSize(basis) + f.size && |SizesOf(basis + [f])| == |basis| + 1;
    hide Sum, TotalSize, SizesOf;
  }

  // The mean with the next fill, and what it makes of it.
  lemma NextMean(c: Config, basis: seq<Fill>, f: Fill)
    requires Ordinary(c) && 0.0 < TotalSize(basis) && 0.0 < f.size
    ensures var mean := Mean(SizesOf(basis + [f]));
      && 0.0 < mean && (Large(c, mean, f.size) ==> !Small(c, mean, f.size))
      && (Large(c, mean, f.size) <==> c.largeMultiple < (|basis| + 1) as real && f.size >= AttackSize(c, basis))
  {
    MeanWithNext(basis, f);
    hide TotalSize, SizesOf, Mean;
    LargeMeans(TotalSize(basis), f.size, (|basis| + 1) as real, Mean(SizesOf(basis + [f])), c.largeMultiple,
      c.smallQuantile);
  }

  /** A next fill is an attack exactly when some size would be, and its size is at least the least such. */
  lemma AttackIsSize(c: Config, r: Reading, fills: seq<Fill>, f: Fill)
    requires Ordinary(c) && PositiveSizes(fills) && 0.0 < f.size
    ensures EndsInAttack(c, r, fills + [f]) <==>
      Flaggable(c, r, fills, f.side, f.at) && f.size >= AttackSize(c, Basis(c, r, fills, f.at))
  {
    var basis, all := Basis(c, r, fills, f.at), fills + [f];
    assert all[..|all| - 1] == fills && all[|all| - 1] == f;
    assert Measured(c, r, all) == basis + [f];
    hide Since, ProbeAmong, Basis, Measured, Mean, Small, Large, AttackSize, TotalSize, SizesOf;
    if ProbeAmong(c, r, fills, f.side, f.at - c.window) {
      BasisOfProbe(c, r, fills, f.side, f.at);
      NextMean(c, basis, f);
    }
  }

  ghost predicate SameVerdict(c: Config, fills: seq<Fill>, f: Fill) {
    EndsInAttack(c, AllFills, fills + [f]) <==> EndsInAttack(c, RollingWindow, fills + [f])
  }

  /** Both readings flag no size, or both flag the same sizes. */
  ghost predicate SameSizesFlagged(c: Config, fills: seq<Fill>, side: Side, now: real) {
    if Flaggable(c, AllFills, fills, side, now) then
      && Flaggable(c, RollingWindow, fills, side, now)
      && AttackSize(c, Basis(c, AllFills, fills, now)) == AttackSize(c, Basis(c, RollingWindow, fills, now))
    else !Flaggable(c, RollingWindow, fills, side, now)
  }

  lemma AttackSizeIsPositive(c: Config, r: Reading, fills: seq<Fill>, side: Side, now: real)
    requires Ordinary(c) && PositiveSizes(fills) && Flaggable(c, r, fills, side, now)
    ensures 0.0 < AttackSize(c, Basis(c, r, fills, now))
  {
    BasisOfProbe(c, r, fills, side, now);
    hide Basis, ProbeAmong;
    var basis := Basis(c, r, fills, now);
    PositiveQuotient(c.largeMultiple, TotalSize(basis), (|basis| + 1) as real - c.largeMultiple);
  }

  lemma PositiveQuotient(a: real, b: real, d: real)
    requires 0.0 < a && 0.0 < b && 0.0 < d
    ensures 0.0 < a * b / d
  {
    assert 0.0 < a * b;
    MeanIsPositive(a * b, d);
  }

  // A size that one reading flags and the other does not.
  lemma Separating(c: Config, fills: seq<Fill>, side: Side, now: real) returns (x: real)
    requires Ordinary(c) && PositiveSizes(fills) && !SameSizesFlagged(c, fills, side, now)
    ensures 0.0 < x
    ensures (Flaggable(c, AllFills, fills, side, now) && x >= AttackSize(c, Basis(c, AllFills, fills, now)))
            != (Flaggable(c, RollingWindow, fills, side, now)
                && x >= AttackSize(c, Basis(c, RollingWindow, fills, now)))
  {
    hide AttackSize, Flaggable, Basis;
    var all := AttackSize(c, Basis(c, AllFills, fills, now));
    var rolling := AttackSize(c, Basis(c, RollingWindow, fills, now));
    if Flaggable(c, AllFills, fills, side, now) {
      AttackSizeIsPositive(c, AllFills, fills, side, now);
    }
    if Flaggable(c, RollingWindow, fills, side, now) {
      AttackSizeIsPositive(c, RollingWindow, fills, side, now);
    }
    if Flaggable(c, AllFills, fills, side, now) && (!Flaggable(c, RollingWindow, fills, side, now) || all < rolling) {
      x := all;
    } else {
      x := rolling;
    }
  }

  /** The code's verdict on the next fill is the documented one whatever its size, if and only if on the
      fills so far both readings would flag no size, or the same least size. */
  lemma ReadingsAgreeWhen(c: Config, fills: seq<Fill>, side: Side, now: real)
    requires Ordinary(c) && PositiveSizes(fills)
    ensures (forall x: real :: 0.0 < x ==> SameVerdict(c, fills, Fill(side, x, now)))
            <==> SameSizesFlagged(c, fills, side, now)
  {
    hide EndsInAttack, AttackSize, Flaggable, Basis;
    forall x: real, r: Reading | 0.0 < x
      ensures EndsInAttack(c, r, fills + [Fill(side, x, now)]) <==>
        Flaggable(c, r, fills, side, now) && x >= AttackSize(c, Basis(c, r, fills, now))
    {
      AttackIsSize(c, r, fills, Fill(side, x, now));
    }
    if !SameSizesFlagged(c, fills, side, now) {
      var x := Separating(c, fills, side, now);
      assert !SameVerdict(c, fills, Fill(side, x, now));
    }
  }

  /** Two fills of 100, a probe of 10 after they have left the window, and then a fill of 630: the code
      measures all four and flags the last, the rolling window has seen too few fills to judge. */
  lemma ReadingsDiffer()
    ensures var c := Config(60.0, 0.3, 3.0, 3);
      var fills := [Fill(Buy, 100.0, 0.0), Fill(Buy, 100.0, 0.0), Fill(Buy, 10.0, 100.0)];
      !SameVerdict(c, fills, Fill(Buy, 630.0, 101.0))
  {
    var c := Config(60.0, 0.3, 3.0, 3);
    var fills := [Fill(Buy, 100.0, 0.0), Fill(Buy, 100.0, 0.0), Fill(Buy, 10.0, 100.0)];
    var f := Fill(Buy, 630.0, 101.0);
    FirstThree();
    OldAreGone();
    hide Since, TotalSize, ProbeAmong;
    assert AttackSize(c, fills) == 630.0;
    AttackIsSize(c, AllFills, fills, f);
    AttackIsSize(c, RollingWindow, fills, f);
    hide EndsInAttack, AttackSize;
  }

  lemma FirstThree()
    ensures var c := Config(60.0, 0.3, 3.0, 3);
      var fills := [Fill(Buy, 100.0, 0.0), Fill(Buy, 100.0, 0.0), Fill(Buy, 10.0, 100.0)];
      TotalSize(fills) == 210.0 && ProbeAmong(c, AllFills, fills, Buy, 41.0)
  {
    var c := Config(60.0, 0.3, 3.0, 3);
    var f, g := Fill(Buy, 100.0, 0.0), Fill(Buy, 10.0, 100.0);
    var fills := [f, f, g];
    assert [f][..0] == [] && [f, f][..1] == [f] && fills[..2] == [f, f] && fills[..3] == fills;
    assert TotalSize([f][..0]) == 0.0;
    assert TotalSize([f]) == 100.0;
    assert TotalSize([f, f]) == 200.0;
    assert TotalSize(fills) == 210.0;
    SumIsTotal(fills);
    assert Mean(SizesOf(fills)) == 70.0;
    hide Mean, TotalSize;
    assert ProbeAt(c, AllFills, fills, 2, Buy, 41.0);
  }

  lemma OldAreGone()
    ensures Since([Fill(Buy, 100.0, 0.0), Fill(Buy, 100.0, 0.0), Fill(Buy, 10.0, 100.0)], 41.0)
            == [Fill(Buy, 10.0, 100.0)]
  {
    var f, g := Fill(Buy, 100.0, 0.0), Fill(Buy, 10.0, 100.0);
    assert [f][..0] == [] && [f, f][..1] == [f] && [f, f, g][..2] == [f, f];
    assert Since([f][..0], 41.0) == [];
    assert Since([f], 41.0) == [];
    assert Since([f, f], 41.0) == [];
  }

  class ProbeDetector {
    const config: Config
    var sizes: seq<real>
    var probes: seq<Stamped<Side>>

    // All the fills since the last reset.
    ghost var fills: seq<Fill>

    ghost predicate Valid(now: real)
      reads this
    {
      && Until(fills, now) && sizes == SizesOf(fills)
      && SameFrom(probes, Probes(config, fills), now - config.window)
      && forall e :: e in probes ==> e.at <= now
    }

    constructor (c: Config, ghost now: real)
      ensures config == c && fills == [] && Valid(now)
    {
      config := c;
      sizes, probes, fills := [], [], [];
    }

    // Pops the probes that are too old.
    method ExpireProbes(ghost was: seq<Fill>, cutoff: real)
      requires SameFrom(probes, Probes(config, was), cutoff)
      modifies this`probes
      ensures probes == InWindow(old(probes), cutoff) && SameFrom(probes, Probes(config, was), cutoff)
      ensures forall e :: e in probes ==> e in old(probes)
    {
      SameFromCut(probes, Probes(config, was), cutoff);
      InWindowMembers(probes, cutoff);
      probes := Trim(probes, cutoff);
    }

    // Whether the deque holds a probe on the side.
    method HoldsProbe(side: Side) returns (held: bool)
      ensures held <==> exists e :: e in probes && e.item == side
    {
      var i := 0;
      while i < |probes|
        invariant 0 <= i <= |probes|
        invariant forall j :: 0 <= j < i ==> probes[j].item != side
      {
        if probes[i].item == side {
          return true;
        }
        i := i + 1;
      }
      held := false;
    }

    /** A fill is flagged exactly when it is an attack in the light of all the fills so far. */
    method OnFill(side: Side, size: real, ts: real) returns (attack: bool)
      requires exists now :: now <= ts && Valid(now)
      modifies this
      ensures fills == old(fills) + [Fill(side, size, ts)] && Valid(ts)
      ensures attack <==> EndsInAttack(config, AllFills, fills)
    {
      hide Mean, InWindow, Small, Large, Probes, SameFrom;
      ghost var was := fills;
      ghost var cutoff := ts - config.window;
      Next(ts, side, size);
      sizes := sizes + [size];
      fills := fills + [Fill(side, size, ts)];
      assert sizes == SizesOf(fills);
      assert fills[..|fills| - 1] == was;
      ProbesOfNext(config, was, Fill(side, size, ts));
      if |sizes| < config.minSamples {
        return false;
      }
      var mean := Mean(sizes);
      if mean <= 0.0 {
        return false;
      }
      var isSmall, isLarge := Small(config, mean, size), Large(config, mean, size);
      ExpireProbes(was, ts - config.window);
      if isSmall {
        SameFromNext(probes, Probes(config, was), cutoff, Stamped(side, ts));
        probes := probes + [Stamped(side, ts)];
        return false;
      }
      attack := false;
      if isLarge {
        attack := HoldsProbe(side);
        HeldProbe(config, old(probes), probes, was, side, cutoff);
      }
    }

    // What the fields stand for at the time of the next fill.
    lemma Next(ts: real, side: Side, size: real)
      requires exists now :: now <= ts && Valid(now)
      ensures Until(fills + [Fill(side, size, ts)], ts) && sizes == SizesOf(fills)
      ensures SameFrom(probes, Probes(config, fills), ts - config.window)
      ensures forall e :: e in probes ==> e.at <= ts
    {
      hide InWindow, Probes, SameFrom, Mean;
      var now :| now <= ts && Valid(now);
      UntilNext(fills, now, Fill(side, size, ts));
      hide Until;
      SameFromLater(probes, Probes(config, fills), now - config.window, ts - config.window);
    }

    method Reset(ghost now: real)
      modifies this
      ensures fills == [] && Valid(now)
    {
      sizes, probes, fills := [], [], [];
    }
  }

  lemma UntilNext(fills: seq<Fill>, now: real, f: Fill)
    requires Until(fills, now) && now <= f.at
    ensures Until(fills + [f], f.at)
  {
  }

  lemma ProbesOfNext(c: Config, fills: seq<Fill>, f: Fill)
    ensures EndsInProbe(c, AllFills, fills + [f]) ==>
      Probes(c, fills + [f]) == Probes(c, fills) + [Stamped(f.side, f.at)]
    ensures !EndsInProbe(c, AllFills, fills + [f]) ==> Probes(c, fills + [f]) == Probes(c, fills)
  {
    assert (fills + [f])[..|fills|] == fills;
  }

  // The cut deque holds a probe on the side exactly when there is an in-window one.
  lemma HeldProbe(c: Config, before: seq<Stamped<Side>>, d: seq<Stamped<Side>>, fills: seq<Fill>, side: Side,
                  cutoff: real)
    requires d == InWindow(before, cutoff) && SameFrom(d, Probes(c, fills), cutoff)
    ensures (exists e :: e in d && e.item == side) <==> ProbeAmong(c, AllFills, fills, side, cutoff)
  {
    hide EndsInProbe;
    ProbesAreProbes(c, fills, side, cutoff);
    InWindowTwice(before, cutoff, cutoff);
    InWindowMembers(Probes(c, fills), cutoff);
    assert d == InWindow(Probes(c, fills), cutoff);
  }
}

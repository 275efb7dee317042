// smasher/trickle.py: a large order split into randomised chunks.
//
// Quantities are in units of 1e-8, the precision to which the code rounds them, so that
// `round(x, 8)` is rounding to a whole unit. The random draws are inputs.

module Trickle {
  import opened Types
  import opened Rounding
  import Averages

  datatype Params = Params(minChunk: real, maxChunk: real, jitter: real)

  ghost predicate ValidParams(p: Params) {
    0.0 < p.minChunk <= p.maxChunk
  }

  /** `random.uniform(min_chunk, max_chunk)` and `random.random()`. */
  datatype Draw = Draw(raw: real, spread: real)

  ghost predicate ValidDraw(p: Params, d: Draw) {
    p.minChunk <= d.raw <= p.maxChunk && 0.0 <= d.spread < 1.0
  }

  ghost predicate ValidDraws(p: Params, ds: seq<Draw>) {
    forall i :: 0 <= i < |ds| ==> ValidDraw(p, ds[i])
  }

  function Jittered(p: Params, d: Draw): real {
    d.raw + d.raw * p.jitter * (d.spread * 2.0 - 1.0)
  }

  /** No draw comes to a smaller size, unless to less than half the minimum chunk. */
  function LowEnd(p: Params): real {
    p.minChunk - p.minChunk * Abs(p.jitter)
  }

  /** At most what remains; at least half the minimum chunk, unless less remains. */
  function Clamp(half: real, remaining: real, size: real): real {
    var floor := if half <= remaining then half else remaining;
    var capped := if size <= remaining then size else remaining;
    if floor <= capped then capped else floor
  }

  /** The chunk that a draw gives when `remaining` is left: jittered, clamped, and rounded. */
  function Chunk(p: Params, remaining: real, d: Draw): int {
    RoundHalfEven(Clamp(p.minChunk * 0.5, remaining, Jittered(p, d)))
  }

  function Left(p: Params, remaining: real, d: Draw): real {
    var left := RoundHalfEven(remaining - Chunk(p, remaining, d) as real);
    if left < 0 then 0.0 else left as real
  }

  /** What is left after some draws; with nothing left a draw gives no chunk. */
  function LeftAfter(p: Params, total: real, ds: seq<Draw>): real {
    if ds == [] then total
    else
      var r := LeftAfter(p, total, ds[..|ds| - 1]);
      if r <= 0.0 then r else Left(p, r, ds[|ds| - 1])
  }

  function Sizes(p: Params, total: real, ds: seq<Draw>): seq<int> {
    if ds == [] then []
    else
      var r := LeftAfter(p, total, ds[..|ds| - 1]);
      Sizes(p, total, ds[..|ds| - 1]) + if r <= 0.0 then [] else [Chunk(p, r, ds[|ds| - 1])]
  }

  function Sum(s: seq<int>): int {
    if s == [] then 0 else Sum(s[..|s| - 1]) + s[|s| - 1]
  }

  ghost predicate Whole(x: real) {
    x == x.Floor as real
  }

  /** The least size of a chunk that is not the last one: that of the low end, but not less than half the
      minimum chunk, rounded. With a negative jitter the draws come arbitrarily near to the low end without
      reaching it, so there a tie rounds up. */
  function Least(p: Params): int {
    if LowEnd(p) < p.minChunk * 0.5 then RoundHalfEven(p.minChunk * 0.5)
    else if 0.0 <= p.jitter then RoundHalfEven(LowEnd(p))
    else RoundHalfUp(LowEnd(p))
  }

  function RoundHalfUp(x: real): int {
    (x + 0.5).Floor
  }

  /** What lies above x rounds to at least this. */
  lemma RoundAbove(x: real, y: real)
    requires x < y
    ensures RoundHalfUp(x) <= RoundHalfEven(y)
  {
    RoundsToNearest(y);
    hide RoundHalfEven;
  }

  /** With a whole number of units left, a chunk takes at most that and at least the least size,
      or everything, and the rest is exactly what is left. */
  lemma ChunkBounds(p: Params, remaining: real, d: Draw)
    requires ValidParams(p) && ValidDraw(p, d) && 0.0 < remaining && Whole(remaining)
    ensures var c := Chunk(p, remaining, d);
      && 0 <= c <= remaining.Floor
      && (Least(p) <= c || c == remaining.Floor)
      && Left(p, remaining, d) == remaining - c as real && Whole(Left(p, remaining, d))
  {
    SmallestDraw(p, d);
    ClampedAtLeast(p, remaining, Jittered(p, d));
    hide Jittered, LowEnd, Clamp, RoundHalfEven, Least;
    ClampBounds(p.minChunk * 0.5, remaining, Jittered(p, d), Least(p));
    var n := remaining.Floor;
    RoundWhole(n - Chunk(p, remaining, d));
    assert remaining - Chunk(p, remaining, d) as real == (n - Chunk(p, remaining, d)) as real;
  }

  /** The size that is drawn: between (1 - jitter) and (1 + jitter) times the raw one, as the spread has it. */
  lemma JitteredMeans(p: Params, d: Draw)
    ensures Jittered(p, d)
            == Averages.Times(1.0 - d.spread, d.raw - d.raw * p.jitter)
               + Averages.Times(d.spread, d.raw + d.raw * p.jitter)
  {
    var x := d.raw * p.jitter;
    assert d.raw * p.jitter * (d.spread * 2.0 - 1.0) == x * d.spread * 2.0 - x;
    assert (1.0 - d.spread) * (d.raw - x) == d.raw - x - d.spread * d.raw + d.spread * x;
    assert d.spread * (d.raw + x) == d.spread * d.raw + d.spread * x;
  }

  /** A chunk is the drawn size, up to half a unit: all that remains if that is no more than the size or than half
      the minimum chunk, and else no less than that half. */
  lemma ChunkMeans(p: Params, remaining: real, d: Draw)
    requires ValidParams(p)
    ensures var size, half := Jittered(p, d), p.minChunk / 2.0;
      var wanted := if remaining <= size || remaining <= half then remaining else if size <= half then half else size;
      -0.5 <= Chunk(p, remaining, d) as real - wanted <= 0.5
  {
    hide Jittered;
    RoundsToNearest(Clamp(p.minChunk * 0.5, remaining, Jittered(p, d)));
  }

  // A chunk that is not all that remains is at least the least size.
  lemma ClampedAtLeast(p: Params, remaining: real, size: real)
    requires ValidParams(p) && AboveLowEnd(p, size)
    ensures var x := Clamp(p.minChunk * 0.5, remaining, size); x == remaining || Least(p) <= RoundHalfEven(x)
  {
    var half := p.minChunk * 0.5;
    var x := Clamp(half, remaining, size);
    hide RoundHalfEven, LowEnd, RoundHalfUp;
    if x != remaining {
      assert half <= x && size <= x;
      if LowEnd(p) < half {
        RoundMonotone(half, x);
      } else if 0.0 <= p.jitter {
        RoundMonotone(LowEnd(p), x);
      } else {
        RoundAbove(LowEnd(p), x);
      }
    }
  }

  /** No draw is below the low end, nor at it with a negative jitter, unless that is below half a chunk. */
  predicate AboveLowEnd(p: Params, size: real) {
    LowEnd(p) < p.minChunk * 0.5 || LowEnd(p) < size || (0.0 <= p.jitter && LowEnd(p) == size)
  }

  lemma SmallestDraw(p: Params, d: Draw)
    requires ValidParams(p) && ValidDraw(p, d)
    ensures AboveLowEnd(p, Jittered(p, d))
  {
    var t, a := d.spread * 2.0 - 1.0, Abs(p.jitter);
    if a <= 1.0 {
      LessJittered(d.raw, a, p.minChunk);
      ProductAtLeast(d.raw * p.jitter, t);
      AbsOfProduct(d.raw, p.jitter);
    } else {
      MoreThanWhole(p.minChunk, a);
    }
  }

  lemma AbsOfProduct(raw: real, jitter: real)
    requires 0.0 < raw
    ensures Abs(raw * jitter) == raw * Abs(jitter)
    ensures jitter < 0.0 ==> raw * jitter < 0.0
  {
    if jitter < 0.0 {
      assert 0.0 < raw * -jitter;
    } else {
      assert 0.0 <= raw * jitter;
    }
  }

  lemma ProductAtLeast(j: real, t: real)
    requires -1.0 <= t < 1.0
    ensures -Abs(j) <= j * t
    ensures j < 0.0 ==> -Abs(j) < j * t
  {
    if 0.0 <= j {
      assert 0.0 <= j * (t + 1.0);
    } else {
      var a, rest := -j, 1.0 - t;
      assert 0.0 < a * rest;
      assert a * rest == a - a * t;
      assert j * t == -(a * t);
    }
  }

  lemma LessJittered(raw: real, jitter: real, low: real)
    requires low <= raw && jitter <= 1.0
    ensures low - low * jitter <= raw - raw * jitter
  {
    assert 0.0 <= (raw - low) * (1.0 - jitter);
  }

  lemma MoreThanWhole(low: real, jitter: real)
    requires 0.0 < low && 1.0 < jitter
    ensures low - low * jitter <= 0.0
  {
  }

  /** The least size is attained by a draw of the minimum chunk, whatever remains. */
  lemma LeastIsDrawn(p: Params) returns (d: Draw)
    requires ValidParams(p)
    ensures ValidDraw(p, d)
    ensures forall remaining: real :: p.minChunk <= remaining ==> Chunk(p, remaining, d) == Least(p)
  {
    var x := LeastSize(p);
    LeastSizeRounds(p);
    hide Least, LeastSize, RoundHalfEven, LowEnd, Clamp;
    d := DrawOf(p, x);
    forall remaining: real | p.minChunk <= remaining
      ensures Chunk(p, remaining, d) == Least(p)
    {
      ClampWithin(p.minChunk * 0.5, remaining, x);
    }
  }

  /** A size that rounds to the least: the low end itself if it is drawn, or else some size above it that
      rounds like all that are near enough. */
  function LeastSize(p: Params): real {
    if 0.0 <= p.jitter then LowEnd(p)
    else if LowEnd(p) < p.minChunk * 0.5 then p.minChunk * 0.5
    else
      var near := (LowEnd(p) + RoundHalfUp(LowEnd(p)) as real + 0.5) / 2.0;
      if near <= p.minChunk then near else p.minChunk
  }

  lemma LeastSizeRounds(p: Params)
    requires ValidParams(p)
    ensures LowEnd(p) <= LeastSize(p) <= p.minChunk && (p.jitter < 0.0 ==> LowEnd(p) < LeastSize(p))
    ensures RoundHalfEven(if LeastSize(p) <= p.minChunk * 0.5 then p.minChunk * 0.5 else LeastSize(p)) == Least(p)
  {
    LowEndBelow(p.minChunk, p.jitter);
    hide LowEnd, RoundHalfEven;
    if p.jitter < 0.0 && LowEnd(p) >= p.minChunk * 0.5 {
      var n := RoundHalfUp(LowEnd(p));
      assert n as real - 0.5 <= LowEnd(p) < n as real + 0.5;
      NearestIsUnique(LeastSize(p), n);
    }
  }

  lemma LowEndBelow(low: real, jitter: real)
    requires 0.0 < low
    ensures low - low * Abs(jitter) <= low && (jitter < 0.0 ==> low - low * Abs(jitter) < low)
  {
    if jitter < 0.0 {
      assert 0.0 < low * -jitter;
    } else {
      assert 0.0 <= low * jitter;
    }
  }

  // A draw of the minimum chunk that comes to size x.
  lemma DrawOf(p: Params, x: real) returns (d: Draw)
    requires ValidParams(p) && LowEnd(p) <= x <= p.minChunk && (p.jitter < 0.0 ==> LowEnd(p) < x)
    requires 0.0 <= p.jitter ==> x == LowEnd(p)
    ensures ValidDraw(p, d) && Jittered(p, d) == x
  {
    if 0.0 <= p.jitter {
      d := Draw(p.minChunk, 0.0);
    } else {
      var j := p.minChunk * -p.jitter;
      ShareOf(p.minChunk - x, j);
      var t := (p.minChunk - x) / j;
      d := Draw(p.minChunk, (1.0 + t) / 2.0);
      assert d.spread * 2.0 - 1.0 == t;
      assert t * j == p.minChunk - x;
      assert p.minChunk * p.jitter * t == -(t * j);
    }
  }

  lemma ShareOf(part: real, all: real)
    requires 0.0 <= part < all
    ensures 0.0 <= part / all < 1.0
  {
    var share := part / all;
    assert share * all == part;
    if share >= 1.0 {
      OneShare(share, all);
      assert false;
    }
  }

  lemma OneShare(share: real, all: real)
    requires 1.0 <= share && 0.0 < all
    ensures all <= share * all
  {
    assert 0.0 <= (share - 1.0) * all;
  }

  lemma ClampWithin(half: real, remaining: real, size: real)
    requires 0.0 < half && half <= remaining && size <= remaining
    ensures Clamp(half, remaining, size) == if size <= half then half else size
  {
  }

  lemma ClampBounds(half: real, remaining: real, size: real, least: int)
    requires 0.0 < half && 0.0 < remaining && Whole(remaining)
    requires var x := Clamp(half, remaining, size); x == remaining || least <= RoundHalfEven(x)
    ensures var c := RoundHalfEven(Clamp(half, remaining, size));
      && 0 <= c <= remaining.Floor
      && (least <= c || c == remaining.Floor)
  {
    var x := Clamp(half, remaining, size);
    RoundWhole(remaining.Floor);
    RoundMonotone(x, remaining);
    RoundMonotone(0.0, x);
    assert RoundHalfEven(0.0) == 0;
  }

  /** For a whole total, whatever the draws, nothing is lost and nothing goes negative. */
  lemma {:induction false} Conserves(p: Params, total: real, ds: seq<Draw>)
    requires ValidParams(p) && ValidDraws(p, ds) && 0.0 < total && Whole(total)
    ensures Sum(Sizes(p, total, ds)) as real + LeftAfter(p, total, ds) == total
    ensures 0.0 <= LeftAfter(p, total, ds) && Whole(LeftAfter(p, total, ds))
    ensures LeftAfter(p, total, ds) > 0.0 ==> |Sizes(p, total, ds)| == |ds|
  {
    hide Chunk, Left, Least, Jittered;
    if ds != [] {
      var n := |ds| - 1;
      Conserves(p, total, ds[..n]);
      var r := LeftAfter(p, total, ds[..n]);
      if r > 0.0 {
        ChunkBounds(p, r, ds[n]);
        SumSnoc(Sizes(p, total, ds[..n]), Chunk(p, r, ds[n]));
      } else {
        assert Sizes(p, total, ds) == Sizes(p, total, ds[..n]);
      }
    }
  }

  lemma SumSnoc(s: seq<int>, x: int)
    ensures Sum(s + [x]) == Sum(s) + x
  {
    assert (s + [x])[..|s|] == s;
  }

  // Every chunk but the last is at least the least size.
  lemma {:induction false} ProgressMade(p: Params, total: real, ds: seq<Draw>)
    requires ValidParams(p) && ValidDraws(p, ds) && 0.0 < total && Whole(total)
    requires LeftAfter(p, total, ds) > 0.0
    ensures Least(p) * |ds| <= Sum(Sizes(p, total, ds))
  {
    hide Chunk, Left, Least, Jittered;
    if ds == [] {
      assert Least(p) * 0 == 0;
    } else {
      var n := |ds| - 1;
      var r := LeftAfter(p, total, ds[..n]);
      Conserves(p, total, ds[..n]);
      assert r > 0.0;
      ProgressMade(p, total, ds[..n]);
      ChunkBounds(p, r, ds[n]);
      SumSnoc(Sizes(p, total, ds[..n]), Chunk(p, r, ds[n]));
      assert Least(p) * |ds| == Least(p) * n + Least(p);
    }
  }

  /** Trickling stops: after ceil(total / least) draws, that is any n with n * least >= total,
      nothing is left, and the chunks sum to the total. */
  lemma Stops(p: Params, total: real, ds: seq<Draw>)
    requires ValidParams(p) && ValidDraws(p, ds) && 0.0 < total && Whole(total)
    requires total <= (Least(p) * |ds|) as real
    ensures LeftAfter(p, total, ds) == 0.0 && Sum(Sizes(p, total, ds)) as real == total
  {
    Conserves(p, total, ds);
    if LeftAfter(p, total, ds) > 0.0 {
      ProgressMade(p, total, ds);
      assert false;
    }
  }

  /** The number of chunks is at most the total divided by the least size, rounded up. */
  lemma {:induction false} ChunkCount(p: Params, total: real, ds: seq<Draw>)
    requires ValidParams(p) && ValidDraws(p, ds) && 0.0 < total && Whole(total)
    ensures Sizes(p, total, ds) != [] ==> (Least(p) * (|Sizes(p, total, ds)| - 1)) as real < total
  {
    hide Least, Chunk, LeftAfter, Whole;
    if ds != [] {
      var front := ds[..|ds| - 1];
      if LeftAfter(p, total, front) <= 0.0 {
        ChunkCount(p, total, front);
      } else {
        Conserves(p, total, front);
        ProgressMade(p, total, front);
        assert |Sizes(p, total, ds)| == |front| + 1;
      }
    }
  }

  /** The least size is at least half the minimum chunk, up to rounding, so a minimum chunk of two
      units or more always makes progress. */
  lemma LeastIsHalf(p: Params)
    requires ValidParams(p)
    ensures Least(p) >= (p.minChunk * 0.5).Floor
    ensures p.minChunk >= 2.0 ==> Least(p) >= 1
  {
    hide LowEnd, RoundHalfEven;
    var half := p.minChunk * 0.5;
    RoundWhole(half.Floor);
    RoundMonotone(half.Floor as real, half);
    RoundMonotone(half.Floor as real, if half <= LowEnd(p) then LowEnd(p) else half);
  }

  /** The minimum chunk is at most one unit, and full jitter brings it down to half a unit or less; with a
      negative jitter, which never gets quite there, to less than half. */
  predicate AllowsEmpty(p: Params) {
    p.minChunk <= 1.0 && if 0.0 <= p.jitter then LowEnd(p) <= 0.5 else LowEnd(p) < 0.5
  }

  /** The least size is zero exactly for such parameters. */
  lemma LeastIsZeroWhen(p: Params)
    requires ValidParams(p)
    ensures 0 <= Least(p)
    ensures Least(p) == 0 <==> AllowsEmpty(p)
  {
    hide RoundHalfEven, LowEnd;
    ZeroWhen(p.minChunk * 0.5);
    if p.minChunk * 0.5 <= LowEnd(p) {
      ZeroWhen(LowEnd(p));
    }
  }

  lemma ZeroWhen(x: real)
    requires 0.0 < x
    ensures 0 <= RoundHalfEven(x) && (RoundHalfEven(x) == 0 <==> x <= 0.5)
  {
    hide RoundHalfEven;
    RoundsToNearest(x);
    HalfRoundsToZero();
    if x <= 0.5 {
      RoundMonotone(x, 0.5);
    }
  }

  lemma HalfRoundsToZero()
    ensures RoundHalfEven(0.5) == 0
  {
  }

  /** With a least size of zero there are draws that give empty chunks for ever. */
  lemma {:induction false} StallsWithoutProgress(p: Params, total: real, n: nat) returns (ds: seq<Draw>)
    requires ValidParams(p) && Least(p) == 0 && 0.0 < total && Whole(total)
    ensures |ds| == n && ValidDraws(p, ds) && LeftAfter(p, total, ds) == total
  {
    var d := EmptyChunk(p, total);
    hide Left, Least, LowEnd;
    ds := [];
    if n > 0 {
      var front := StallsWithoutProgress(p, total, n - 1);
      ds := front + [d];
      assert ds[..n - 1] == front;
    }
  }

  lemma EmptyChunk(p: Params, total: real) returns (d: Draw)
    requires ValidParams(p) && Least(p) == 0 && 0.0 < total && Whole(total)
    ensures ValidDraw(p, d) && Left(p, total, d) == total
  {
    LeastIsZeroWhen(p);
    hide LowEnd, Least, Chunk, RoundHalfEven;
    assert 1.0 <= total;
    d := LeastIsDrawn(p);
    assert Chunk(p, total, d) == 0;
    RoundWhole(total.Floor);
  }

  ghost predicate StopsWithin(p: Params, total: real, n: nat) {
    forall ds :: ValidDraws(p, ds) && |ds| == n ==> LeftAfter(p, total, ds) == 0.0
  }

  /** Some number of draws always exhausts a whole total if and only if the least size is at least one
      unit, which the parameters decide. */
  lemma StopsExactlyWhen(p: Params, total: real)
    requires ValidParams(p) && 0.0 < total && Whole(total)
    ensures (exists n: nat :: StopsWithin(p, total, n)) <==> !AllowsEmpty(p)
  {
    LeastIsZeroWhen(p);
    hide Least, LeftAfter, LowEnd;
    if Least(p) == 0 {
      forall n: nat
        ensures !StopsWithin(p, total, n)
      {
        var ds := StallsWithoutProgress(p, total, n);
      }
    } else {
      var n := total.Floor;
      forall ds | ValidDraws(p, ds) && |ds| == n
        ensures LeftAfter(p, total, ds) == 0.0
      {
        assert n <= Least(p) * n;
        Stops(p, total, ds);
      }
      assert StopsWithin(p, total, n);
    }
  }

  /** Chunks of one unit with a jitter of a half can be empty for ever. */
  lemma EmptyForEver(n: nat) returns (ds: seq<Draw>)
    ensures var p := Params(1.0, 1.0, 0.5);
      |ds| == n && ValidParams(p) && ValidDraws(p, ds) && LeftAfter(p, 5.0, ds) == 5.0
  {
    hide Least, LeftAfter, ValidDraws;
    LeastIsZeroWhen(Params(1.0, 1.0, 0.5));
    ds := StallsWithoutProgress(Params(1.0, 1.0, 0.5), 5.0, n);
  }

  /** A total of one and a half units is given out as a single chunk of two. */
  lemma OneAndAHalfUnits()
    ensures var p, d := Params(2.0, 2.0, 0.0), Draw(2.0, 0.0);
      ValidDraw(p, d) && LeftAfter(p, 1.5, [d]) == 0.0 && Sizes(p, 1.5, [d]) == [2]
  {
    var p, d := Params(2.0, 2.0, 0.0), Draw(2.0, 0.0);
    assert Chunk(p, 1.5, d) == 2 by {
      assert Jittered(p, d) == 2.0 && Clamp(1.0, 1.5, 2.0) == 1.5 && RoundHalfEven(1.5) == 2;
    }
    hide Chunk;
    assert Left(p, 1.5, d) == 0.0 by {
      assert RoundHalfEven(1.5 - 2.0) == 0;
    }
    hide Left;
    assert [d][..0] == [];
    assert LeftAfter(p, 1.5, []) == 1.5 && Sizes(p, 1.5, []) == [];
  }

  /** Chunks are whole units, so they can only ever sum to a whole total: the split is exact for
      all draws exactly when the total is whole. */
  lemma ExactOnlyForWhole(p: Params, total: real, ds: seq<Draw>)
    requires ValidParams(p) && ValidDraws(p, ds)
    requires 0.0 < total && total <= (Least(p) * |ds|) as real
    ensures Whole(total) ==> Sum(Sizes(p, total, ds)) as real == total
    ensures !Whole(total) ==> Sum(Sizes(p, total, ds)) as real != total
  {
    if Whole(total) {
      Stops(p, total, ds);
    }
  }

  class TrickleExecutor {
    const total: real
    const params: Params
    var remaining: real

    // The draws since construction or the last reset.
    ghost var draws: seq<Draw>

    ghost predicate Valid()
      reads this
    {
      ValidParams(params) && 0.0 < total && remaining == LeftAfter(params, total, draws)
    }

    constructor (total: real, p: Params)
      requires 0.0 < total && ValidParams(p)
      ensures Valid() && this.total == total && params == p && draws == []
    {
      this.total, params, remaining, draws := total, p, total, [];
    }

    /** The constructor's own parameter check. */
    static method Create(total: real, p: Params) returns (r: Created<TrickleExecutor>)
      ensures r.Ok? <==> 0.0 < total && ValidParams(p)
      ensures r.Ok? ==> fresh(r.value) && r.value.Valid() && r.value.total == total && r.value.draws == []
    {
      if total <= 0.0 || p.minChunk <= 0.0 || p.maxChunk < p.minChunk {
        return BadParameter;
      }
      var e := new TrickleExecutor(total, p);
      r := Ok(e);
    }

    /** The next chunk for a draw; nothing once everything is allocated. */
    method NextChunk(d: Draw) returns (given: bool, size: int)
      requires Valid()
      modifies this
      ensures Valid() && draws == old(draws) + [d]
      ensures given <==> old(remaining) > 0.0
      ensures Sizes(params, total, draws) == Sizes(params, total, old(draws)) + if given then [size] else []
    {
      hide Chunk, RoundHalfEven;
      ghost var before := draws;
      draws := draws + [d];
      assert draws[..|draws| - 1] == before;
      if remaining <= 0.0 {
        return false, 0;
      }
      given, size := true, Chunk(params, remaining, d);
      var left := RoundHalfEven(remaining - size as real);
      remaining := left as real;
      if remaining < 0.0 {
        remaining := 0.0;
      }
    }

    method Reset()
      requires Valid()
      modifies this
      ensures Valid() && draws == [] && remaining == total
    {
      remaining, draws := total, [];
    }
  }
}

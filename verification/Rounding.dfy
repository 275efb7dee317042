// The rounding that prices and sizes go through before they reach the exchange:
// Python's round(), which takes halves to the even neighbour.

module Rounding {

  const SCALE_8: real := 100000000.0
  const SCALE_6: real := 1000000.0

  /** `round(x)`. */
  function RoundHalfEven(x: real): int {
    var f := x.Floor;
    var d := x - f as real;
    if d < 0.5 then f
    else if 0.5 < d then f + 1
    else if f % 2 == 0 then f else f + 1
  }

  /** `int(x)`: towards zero. */
  function Trunc(x: real): int {
    if 0.0 <= x then x.Floor else -((-x).Floor)
  }

  /** `max(int(seconds * 1000), 0)`: whole milliseconds left. */
  function WholeMs(seconds: real): (ms: nat)
    ensures 0.0 < seconds ==> ms as real <= seconds * 1000.0 < (ms + 1) as real
    ensures seconds <= 0.0 ==> ms == 0
  {
    var ms := Trunc(seconds * 1000.0);
    if ms < 0 then 0 else ms
  }

  /** `round(x, 8)`. */
  function Round8(x: real): real {
    RoundHalfEven(x * SCALE_8) as real / SCALE_8
  }

  /** `round(x, 6)`. */
  function Round6(x: real): real {
    RoundHalfEven(x * SCALE_6) as real / SCALE_6
  }

  /** The nearest number of ticks. */
  function Ticks(price: real, tick: real): int
    requires 0.0 < tick
  {
    RoundHalfEven(price / tick)
  }

  function OfTicks(n: int, tick: real): real {
    n as real * tick
  }

  /** `round(round(price / tick) * tick, 8)`. */
  function Align(price: real, tick: real): real
    requires 0.0 < tick
  {
    Round8(OfTicks(Ticks(price, tick), tick))
  }

  /** A tick of whole 1e-8 units, as every exchange tick is. */
  ghost predicate WholeTick(tick: real) {
    0.0 < tick && (tick * SCALE_8).Floor as real == tick * SCALE_8
  }

  /** `int` cuts off towards zero. */
  lemma TruncatesTowardsZero(x: real)
    ensures 0.0 <= x ==> Trunc(x) as real <= x < Trunc(x) as real + 1.0
    ensures Trunc(-x) == -Trunc(x)
  {
  }

  /** The result is a nearest integer, and the even one of two. */
  lemma RoundsToNearest(x: real)
    ensures -0.5 <= RoundHalfEven(x) as real - x <= 0.5
    ensures RoundHalfEven(x) as real - x == 0.5 || x - RoundHalfEven(x) as real == 0.5 ==> RoundHalfEven(x) % 2 == 0
  {
  }

  /** Only the nearest integer, even on a tie, satisfies that. */
  lemma NearestIsUnique(x: real, n: int)
    requires -0.5 <= n as real - x <= 0.5
    requires n as real - x == 0.5 || x - n as real == 0.5 ==> n % 2 == 0
    ensures n == RoundHalfEven(x)
  {
    var r := RoundHalfEven(x);
    RoundsToNearest(x);
    assert -1.0 <= (n - r) as real <= 1.0;
    assert r - 1 <= n <= r + 1;
  }

  lemma RoundMonotone(x: real, y: real)
    requires x <= y
    ensures RoundHalfEven(x) <= RoundHalfEven(y)
  {
    RoundsToNearest(x);
    RoundsToNearest(y);
    assert (RoundHalfEven(x) - RoundHalfEven(y)) as real <= 1.0;
  }

  lemma RoundWhole(n: int)
    ensures RoundHalfEven(n as real) == n
  {
  }

  lemma Round8Monotone(x: real, y: real)
    requires x <= y
    ensures Round8(x) <= Round8(y)
  {
    RoundMonotone(x * SCALE_8, y * SCALE_8);
  }

  lemma TicksMonotone(p: real, q: real, tick: real)
    requires 0.0 < tick && p <= q
    ensures Ticks(p, tick) <= Ticks(q, tick)
  {
    assert p / tick <= q / tick;
    RoundMonotone(p / tick, q / tick);
  }

  lemma OfTicksMonotone(a: int, b: int, tick: real)
    requires 0.0 < tick
    ensures a <= b ==> OfTicks(a, tick) <= OfTicks(b, tick)
    ensures a < b ==> OfTicks(a, tick) < OfTicks(b, tick)
  {
  }

  lemma AlignMonotone(p: real, q: real, tick: real)
    requires 0.0 < tick && p <= q
    ensures Align(p, tick) <= Align(q, tick)
  {
    hide Ticks, OfTicks, Round8;
    TicksMonotone(p, q, tick);
    OfTicksMonotone(Ticks(p, tick), Ticks(q, tick), tick);
    Round8Monotone(OfTicks(Ticks(p, tick), tick), OfTicks(Ticks(q, tick), tick));
  }

  /** With a whole tick the outer rounding changes nothing: the price is a multiple of the tick. */
  lemma AlignIsMultiple(price: real, tick: real)
    requires WholeTick(tick)
    ensures Align(price, tick) == OfTicks(Ticks(price, tick), tick)
  {
    WholeIsKept(Ticks(price, tick), tick);
  }

  lemma WholeIsKept(n: int, tick: real)
    requires WholeTick(tick)
    ensures Round8(OfTicks(n, tick)) == OfTicks(n, tick)
  {
    var m := (tick * SCALE_8).Floor;
    var x := OfTicks(n, tick) * SCALE_8;
    assert x == n as real * (tick * SCALE_8);
    assert x == n as real * m as real;
    ProductAsReal(n, m);
    RoundWhole(n * m);
    assert RoundHalfEven(x) as real == x;
  }

  lemma ProductAsReal(n: int, m: int)
    ensures (n * m) as real == n as real * m as real
  {
  }

  lemma TicksOfMultiple(n: int, tick: real)
    requires 0.0 < tick
    ensures Ticks(OfTicks(n, tick), tick) == n
  {
    assert n as real * tick / tick == n as real;
    RoundWhole(n);
  }

  /** The aligned price is within half a tick. */
  lemma AlignIsNear(price: real, tick: real)
    requires WholeTick(tick)
    ensures -tick / 2.0 <= Align(price, tick) - price <= tick / 2.0
  {
    AlignIsMultiple(price, tick);
    RoundsToNearest(price / tick);
    var d := Ticks(price, tick) as real - price / tick;
    assert d * tick == OfTicks(Ticks(price, tick), tick) - price;
    assert -0.5 * tick <= d * tick <= 0.5 * tick;
  }

  /** Aligning twice is aligning once. */
  lemma AlignIdempotent(price: real, tick: real)
    requires WholeTick(tick)
    ensures Align(Align(price, tick), tick) == Align(price, tick)
  {
    AlignIsMultiple(price, tick);
    TicksOfMultiple(Ticks(price, tick), tick);
    AlignIsMultiple(Align(price, tick), tick);
  }

  /** A price keeps a positive aligned price exactly when it is more than half a tick. */
  lemma AlignStaysPositive(price: real, tick: real)
    requires WholeTick(tick)
    ensures 0.0 < Align(price, tick) <==> tick / 2.0 < price
  {
    var n := Ticks(price, tick);
    AlignIsMultiple(price, tick);
    OfTicksMonotone(0, n, tick);
    OfTicksMonotone(n, 0, tick);
    if tick / 2.0 < price {
      assert 0.5 < price / tick;
      RoundsToNearest(price / tick);
    } else {
      assert price / tick <= 0.5;
      RoundMonotone(price / tick, 0.5);
      assert RoundHalfEven(0.5) == 0;
    }
  }

  /** An aligned price has at most eight digits, and is that close to a multiple of the tick that is nearest to
      the price. */
  lemma AlignIsRounded(price: real, tick: real) returns (n: int)
    requires 0.0 < tick
    ensures (Align(price, tick) * 100000000.0).Floor as real == Align(price, tick) * 100000000.0
    ensures -0.000000005 <= Align(price, tick) - n as real * tick <= 0.000000005
    ensures -tick / 2.0 <= n as real * tick - price <= tick / 2.0
  {
    n := Ticks(price, tick);
    RoundsToNearest(price / tick);
    var d := n as real - price / tick;
    assert d * tick == n as real * tick - price;
    assert -0.5 * tick <= d * tick <= 0.5 * tick;
    RoundsToNearest(OfTicks(n, tick) * SCALE_8);
  }

  // ── Sizes ──

  /** A submitted size has at most six digits, and is nearest to the size with that. */
  lemma SizeIsRounded(x: real)
    ensures (Round6(x) * 1000000.0).Floor as real == Round6(x) * 1000000.0
    ensures -0.0000005 <= Round6(x) - x <= 0.0000005
  {
    RoundsToNearest(x * SCALE_6);
  }

  /** What is documented for sizes: the digits beyond the sixth are cut off. */
  function Truncate6(x: real): real {
    Trunc(x * SCALE_6) as real / SCALE_6
  }

  /** What lies beyond the sixth digit is less than half a unit, or exactly half above an even one. */
  predicate RoundsDown(x: real) {
    var units := x * SCALE_6;
    var beyond := units - units.Floor as real;
    beyond < 0.5 || (beyond == 0.5 && units.Floor % 2 == 0)
  }

  /** A size is submitted as truncated, and so as no more than asked for, exactly when it rounds
      down; otherwise as one unit of the sixth digit more. */
  lemma SizeIsTruncatedWhen(x: real)
    requires 0.0 <= x
    ensures Round6(x) == Truncate6(x) <==> RoundsDown(x)
    ensures Round6(x) <= x <==> RoundsDown(x)
    ensures !RoundsDown(x) ==> Round6(x) == Truncate6(x) + 1.0 / SCALE_6
  {
    var units := x * SCALE_6;
    assert 0.0 <= units && Trunc(units) == units.Floor;
    assert x == units / SCALE_6;
  }

  /** A size stays positive exactly when it is more than half a unit of the sixth digit. */
  lemma SizeStaysPositive(x: real)
    ensures 0.0 < Round6(x) <==> 0.0000005 < x
  {
    var units := x * SCALE_6;
    if 0.0000005 < x {
      RoundsToNearest(units);
    } else {
      RoundMonotone(units, 0.5);
      assert RoundHalfEven(0.5) == 0;
    }
  }
}

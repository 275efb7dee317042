// strategy/accum.py: a descending ladder of buy orders whose top only ever moves down, with a
// suspension when the market collapses below it.
//
// Ladders is the specification, as a state and a step for each call; Accumulation is the class.

module Ladders {
  import opened Averages
  import opened Types
  import opened Rounding

  datatype Params = Params(
    tick: real, rungs: nat, spacingTicks: int, offsetTicks: int,
    collapse: real, recovery: real, suspendOnSpike: bool)

  datatype State = State(
    refPrice: real, spike: bool, ratchet: real,
    entryPrice: real, filledSize: real, filledCost: real,
    suspended: bool, trigger: real, justRecovered: bool)

  datatype Event =
    | Market(refPrice: real, spike: bool)
    | Desired
    | Fill(price: real, size: real)
    | StateChange(halting: bool)

  const Initial := State(0.0, false, 0.0, 0.0, 0.0, 0.0, false, 0.0, false)

  /** Rungs do not climb, and the tick is one the exchange could have. */
  ghost predicate Sensible(p: Params) {
    0.0 < p.tick && 0 <= p.spacingTicks
  }

  // ── The ladder ──

  function Rung(p: Params, ratchet: real, i: nat): real
    requires 0.0 < p.tick
  {
    Align(ratchet - OfTicks(i * p.spacingTicks, p.tick), p.tick)
  }

  /** The first n rungs, without those at or below zero. */
  function RungsUpTo(p: Params, ratchet: real, n: nat): seq<real>
    requires 0.0 < p.tick
  {
    if n == 0 then []
    else
      RungsUpTo(p, ratchet, n - 1) + if Rung(p, ratchet, n - 1) <= 0.0 then [] else [Rung(p, ratchet, n - 1)]
  }

  function Ladder(p: Params, ratchet: real): seq<real>
    requires 0.0 < p.tick
  {
    RungsUpTo(p, ratchet, p.rungs)
  }

  function Lowest(prices: seq<real>): real
    requires prices != []
  {
    if |prices| == 1 then prices[0]
    else
      var m := Lowest(prices[..|prices| - 1]);
      if prices[|prices| - 1] < m then prices[|prices| - 1] else m
  }

  // ── One call ──

  /** Below this reference price the market has collapsed away from a ladder. */
  function CollapseFloor(p: Params, orders: seq<real>): real
    requires orders != []
  {
    Lowest(orders) * (1.0 - p.collapse)
  }

  predicate Collapsed(p: Params, s: State, orders: seq<real>) {
    orders != [] && s.refPrice < CollapseFloor(p, orders)
  }

  /** Where a suspension ends: the trigger plus hysteresis. */
  function RecoveryLevel(p: Params, trigger: real): real {
    trigger * (1.0 + p.recovery)
  }

  predicate Recovers(p: Params, s: State) {
    s.refPrice >= RecoveryLevel(p, s.trigger)
  }

  // Past the suspension and spike gates: build the ladder, and check it unless exempt.
  function Build(p: Params, s: State): (State, seq<real>)
    requires 0.0 < p.tick
  {
    var t := if s.ratchet <= 0.0 then s.(ratchet := s.refPrice - OfTicks(p.offsetTicks, p.tick)) else s;
    var orders := Ladder(p, t.ratchet);
    if !t.justRecovered && Collapsed(p, t, orders)
    then (t.(suspended := true, trigger := t.refPrice, justRecovered := false), [])
    else (t.(justRecovered := false), orders)
  }

  /** `desired_orders`. */
  function Desire(p: Params, s: State): (State, seq<real>)
    requires 0.0 < p.tick
  {
    if s.refPrice <= 0.0 then (s, [])
    else if s.suspended && !Recovers(p, s) then (s, [])
    else
      var t := if s.suspended then s.(suspended := false, justRecovered := true) else s;
      if t.spike && p.suspendOnSpike then (t, []) else Build(p, t)
  }

  /** `on_fill`; with nothing filled in total the average divides by zero, before the ratchet moves. */
  function Filled(s: State, price: real, size: real): State {
    var t := s.(filledSize := s.filledSize + size, filledCost := s.filledCost + price * size);
    if t.filledSize == 0.0 then t
    else
      var u := t.(entryPrice := t.filledCost / t.filledSize);
      if u.ratchet <= 0.0 || price < u.ratchet then u.(ratchet := price) else u
  }

  function Step(p: Params, s: State, e: Event): State
    requires 0.0 < p.tick
  {
    match e
    case Market(ref, spike) => s.(refPrice := ref, spike := spike)
    case Desired => Desire(p, s).0
    case Fill(price, size) => Filled(s, price, size)
    case StateChange(halting) => if halting then s.(suspended := true) else s
  }

  function Run(p: Params, s: State, es: seq<Event>): State
    requires 0.0 < p.tick
  {
    if es == [] then s else Step(p, Run(p, s, es[..|es| - 1]), es[|es| - 1])
  }

  // ── What a call does ──

  ghost predicate IsLowest(prices: seq<real>, k: nat) {
    k < |prices| && forall j :: 0 <= j < |prices| ==> prices[k] <= prices[j]
  }

  /** The reference is below the lowest rung by more than the collapse threshold. */
  ghost predicate FarBelow(p: Params, ref: real, orders: seq<real>) {
    exists k: nat :: IsLowest(orders, k) && ref < Times(orders[k], 1.0 - p.collapse)
  }

  /** The reference is at the price of the collapse plus hysteresis, or above. */
  ghost predicate BackUp(p: Params, s: State) {
    s.refPrice >= Times(s.trigger, 1.0 + p.recovery)
  }

  lemma {:induction false} LowestIsLowest(prices: seq<real>)
    requires prices != []
    ensures exists k: nat :: IsLowest(prices, k) && prices[k] == Lowest(prices)
    ensures forall k: nat :: IsLowest(prices, k) ==> prices[k] == Lowest(prices)
  {
    var n := |prices| - 1;
    if n == 0 {
      assert IsLowest(prices, 0);
    } else {
      LowestIsLowest(prices[..n]);
      var k: nat :| IsLowest(prices[..n], k) && prices[..n][k] == Lowest(prices[..n]);
      assert IsLowest(prices, if prices[n] < prices[k] then n else k);
    }
  }

  lemma CollapsedMeans(p: Params, s: State, orders: seq<real>)
    ensures Collapsed(p, s, orders) <==> FarBelow(p, s.refPrice, orders)
  {
    if orders != [] {
      LowestIsLowest(orders);
      FloorIs(p, orders);
      hide Times, CollapseFloor, Lowest, IsLowest;
      if FarBelow(p, s.refPrice, orders) {
        var k: nat :| IsLowest(orders, k) && s.refPrice < Times(orders[k], 1.0 - p.collapse);
        assert orders[k] == Lowest(orders);
      }
    }
  }

  lemma FloorIs(p: Params, orders: seq<real>)
    requires orders != []
    ensures CollapseFloor(p, orders) == Times(Lowest(orders), 1.0 - p.collapse)
  {
  }

  lemma TimesGrows(x: real, y: real, z: real)
    requires x <= y && 0.0 <= z
    ensures Times(x, z) <= Times(y, z)
  {
    assert 0.0 <= (y - x) * z;
  }

  /** With a threshold of at most 1 that is below every rung by more than it. */
  lemma FarBelowEveryRung(p: Params, ref: real, orders: seq<real>)
    requires p.collapse <= 1.0
    ensures FarBelow(p, ref, orders)
            <==> orders != [] && forall k :: 0 <= k < |orders| ==> ref < Times(orders[k], 1.0 - p.collapse)
  {
    if orders != [] {
      LowestIsLowest(orders);
      var k: nat :| IsLowest(orders, k) && orders[k] == Lowest(orders);
      hide Times, Lowest;
      forall j | 0 <= j < |orders|
        ensures Times(orders[k], 1.0 - p.collapse) <= Times(orders[j], 1.0 - p.collapse)
      {
        TimesGrows(orders[k], orders[j], 1.0 - p.collapse);
      }
      if FarBelow(p, ref, orders) {
        var l: nat :| IsLowest(orders, l) && ref < Times(orders[l], 1.0 - p.collapse);
        assert orders[l] == orders[k];
      }
    }
  }

  /** A call without a reference, or before a suspended strategy is back up, changes and returns nothing. Past
      that a suspension is over, and a spike stops the call if it is to. Otherwise the ratchet is set if it is
      not, below the reference by the offset, and the call returns its ladder, unless no suspension has just
      ended and the reference is far below the ladder: then it suspends, and remembers the reference. */
  lemma DesireMeans(p: Params, s: State)
    requires 0.0 < p.tick
    ensures var (t, orders) := Desire(p, s);
      var ratchet := if 0.0 < s.ratchet then s.ratchet else s.refPrice - Times(p.offsetTicks as real, p.tick);
      if s.refPrice <= 0.0 || (s.suspended && !BackUp(p, s)) then t == s && orders == []
      else if s.spike && p.suspendOnSpike then
        t == s.(suspended := false, justRecovered := s.suspended || s.justRecovered) && orders == []
      else if !s.suspended && !s.justRecovered && FarBelow(p, s.refPrice, Ladder(p, ratchet)) then
        t == s.(ratchet := ratchet, suspended := true, trigger := s.refPrice) && orders == []
      else t == s.(ratchet := ratchet, suspended := false, justRecovered := false) && orders == Ladder(p, ratchet)
  {
    hide Ladder, CollapseFloor, FarBelow;
    var ratchet := if 0.0 < s.ratchet then s.ratchet else s.refPrice - OfTicks(p.offsetTicks, p.tick);
    CollapsedMeans(p, s.(ratchet := ratchet), Ladder(p, ratchet));
    hide Collapsed;
  }

  // ── The shape of a ladder ──

  /** Rung i lies i spacings below the ratchet, up to half a tick. */
  lemma RungIsNear(p: Params, ratchet: real, i: nat)
    requires WholeTick(p.tick)
    ensures var below := Times((i * p.spacingTicks) as real, p.tick);
      -p.tick / 2.0 <= Rung(p, ratchet, i) - (ratchet - below) <= p.tick / 2.0
  {
    AlignIsNear(ratchet - OfTicks(i * p.spacingTicks, p.tick), p.tick);
  }

  lemma RungsDescend(p: Params, ratchet: real, i: nat, j: nat)
    requires Sensible(p) && i <= j
    ensures Rung(p, ratchet, j) <= Rung(p, ratchet, i)
  {
    hide Align, OfTicks;
    assert i * p.spacingTicks <= j * p.spacingTicks by {
      assert (j - i) * p.spacingTicks >= 0;
    }
    OfTicksMonotone(i * p.spacingTicks, j * p.spacingTicks, p.tick);
    AlignMonotone(ratchet - OfTicks(j * p.spacingTicks, p.tick), ratchet - OfTicks(i * p.spacingTicks, p.tick), p.tick);
  }

  lemma LowerRatchetLowerRung(p: Params, r: real, q: real, i: nat)
    requires Sensible(p) && q <= r
    ensures Rung(p, q, i) <= Rung(p, r, i)
  {
    AlignMonotone(q - OfTicks(i * p.spacingTicks, p.tick), r - OfTicks(i * p.spacingTicks, p.tick), p.tick);
  }

  /** The ladder is the rungs above zero, from the top, without gaps. */
  lemma {:induction false} LadderIsPrefix(p: Params, ratchet: real, n: nat)
    requires Sensible(p)
    ensures var l := RungsUpTo(p, ratchet, n);
      && |l| <= n
      && (forall i :: 0 <= i < |l| ==> l[i] == Rung(p, ratchet, i) && 0.0 < l[i])
      && (|l| < n ==> Rung(p, ratchet, |l|) <= 0.0)
  {
    if n > 0 {
      LadderIsPrefix(p, ratchet, n - 1);
      var l := RungsUpTo(p, ratchet, n - 1);
      if |l| < n - 1 {
        RungsDescend(p, ratchet, |l|, n - 1);
      }
    }
  }

  /** Rung by rung no higher, and no longer. */
  ghost predicate NoHigher(lower: seq<real>, upper: seq<real>) {
    |lower| <= |upper| && forall i :: 0 <= i < |lower| ==> lower[i] <= upper[i]
  }

  lemma LowerRatchetLowerLadder(p: Params, r: real, q: real)
    requires Sensible(p) && q <= r
    ensures NoHigher(Ladder(p, q), Ladder(p, r))
  {
    LadderIsPrefix(p, r, p.rungs);
    LadderIsPrefix(p, q, p.rungs);
    var lower, upper := Ladder(p, q), Ladder(p, r);
    if |upper| < |lower| {
      LowerRatchetLowerRung(p, r, q, |upper|);
      assert false;
    }
    forall i | 0 <= i < |lower|
      ensures lower[i] <= upper[i]
    {
      LowerRatchetLowerRung(p, r, q, i);
    }
  }

  /** A ladder with any rung comes from a positive ratchet. */
  lemma NonEmptyNeedsRatchet(p: Params, ratchet: real)
    requires Sensible(p) && Ladder(p, ratchet) != []
    ensures 0.0 < ratchet
  {
    LadderIsPrefix(p, ratchet, p.rungs);
    assert Rung(p, ratchet, 0) == Align(ratchet, p.tick);
    if ratchet <= 0.0 {
      AlignMonotone(ratchet, 0.0, p.tick);
      AlignZero(p.tick);
      assert false;
    }
  }

  lemma AlignZero(tick: real)
    requires 0.0 < tick
    ensures Align(0.0, tick) == 0.0
  {
    RoundWhole(0);
    assert 0.0 / tick == 0.0;
  }

  /** Prices of a ladder are positive multiples of the tick. */
  lemma PricesAreTickMultiples(p: Params, ratchet: real, i: nat)
    requires Sensible(p) && WholeTick(p.tick) && i < |Ladder(p, ratchet)|
    ensures 0.0 < Ladder(p, ratchet)[i]
    ensures exists n: int :: 0 < n && Ladder(p, ratchet)[i] == OfTicks(n, p.tick)
  {
    LadderIsPrefix(p, ratchet, p.rungs);
    var price := ratchet - OfTicks(i * p.spacingTicks, p.tick);
    AlignIsMultiple(price, p.tick);
    var n := Ticks(price, p.tick);
    OfTicksMonotone(n, 0, p.tick);
    assert 0 < n && Ladder(p, ratchet)[i] == OfTicks(n, p.tick);
  }

  // Ticks of consecutive rungs.
  lemma RungTicks(p: Params, ratchet: real, i: nat)
    requires Sensible(p) && WholeTick(p.tick)
    ensures Rung(p, ratchet, i) == OfTicks(RoundHalfEven(ratchet / p.tick - (i * p.spacingTicks) as real), p.tick)
  {
    var k := i * p.spacingTicks;
    var price := ratchet - OfTicks(k, p.tick);
    AlignIsMultiple(price, p.tick);
    assert price / p.tick == ratchet / p.tick - k as real;
  }

  /** With rungs at least two ticks apart the ladder is strictly descending. */
  lemma RungsStrictlyDescend(p: Params, ratchet: real, i: nat)
    requires Sensible(p) && WholeTick(p.tick) && 2 <= p.spacingTicks
    ensures Rung(p, ratchet, i + 1) < Rung(p, ratchet, i)
  {
    RungTicks(p, ratchet, i);
    RungTicks(p, ratchet, i + 1);
    var x, y := ratchet / p.tick - (i * p.spacingTicks) as real, ratchet / p.tick - ((i + 1) * p.spacingTicks) as real;
    assert (i + 1) * p.spacingTicks == i * p.spacingTicks + p.spacingTicks;
    RoundsToNearest(x);
    RoundsToNearest(y);
    OfTicksMonotone(RoundHalfEven(y), RoundHalfEven(x), p.tick);
  }

  /** With rungs one tick apart two neighbours coincide exactly when the upper one is asked for at
      an even number of ticks and a half: both halves round to the same even tick. */
  lemma OneTickRungsCoincide(p: Params, ratchet: real, i: nat)
    requires Sensible(p) && WholeTick(p.tick) && p.spacingTicks == 1
    ensures var x := ratchet / p.tick - i as real;
      Rung(p, ratchet, i + 1) == Rung(p, ratchet, i) <==> x - x.Floor as real == 0.5 && x.Floor % 2 == 0
  {
    RungTicks(p, ratchet, i);
    RungTicks(p, ratchet, i + 1);
    var x := ratchet / p.tick - i as real;
    var a, b := RoundHalfEven(x), RoundHalfEven(x - 1.0);
    assert ratchet / p.tick - ((i + 1) * p.spacingTicks) as real == x - 1.0;
    OfTicksMonotone(a, b, p.tick);
    OfTicksMonotone(b, a, p.tick);
    assert (x - 1.0).Floor == x.Floor - 1;
  }

  /** From a ratchet of two and a half ticks the two top rungs are both at two ticks. */
  lemma EqualRungs()
    ensures var p := Params(1.0, 2, 1, 0, 0.02, 0.01, true);
      Ladder(p, 2.5) == [2.0, 2.0]
  {
    var p := Params(1.0, 2, 1, 0, 0.02, 0.01, true);
    assert WholeTick(1.0) by { assert 1.0 * SCALE_8 == 100000000 as real; }
    RungTicks(p, 2.5, 0);
    RungTicks(p, 2.5, 1);
    assert RoundHalfEven(2.5) == 2 && RoundHalfEven(1.5) == 2;
    assert Rung(p, 2.5, 0) == 2.0 && Rung(p, 2.5, 1) == 2.0;
    hide Rung;
    assert RungsUpTo(p, 2.5, 0) == [];
    assert RungsUpTo(p, 2.5, 1) == [2.0];
    assert RungsUpTo(p, 2.5, 2) == [2.0, 2.0];
  }

  // ── The ratchet over a run ──

  /** Every fill is at a positive price. */
  ghost predicate PositiveFills(es: seq<Event>) {
    forall i :: 0 <= i < |es| && es[i].Fill? ==> 0.0 < es[i].price
  }

  /** Once positive, the ratchet never rises and stays positive. */
  lemma {:induction false} RatchetOnlyFalls(p: Params, s: State, es: seq<Event>)
    requires 0.0 < p.tick && 0.0 < s.ratchet && PositiveFills(es)
    ensures 0.0 < Run(p, s, es).ratchet <= s.ratchet
  {
    if es != [] {
      RatchetOnlyFalls(p, s, es[..|es| - 1]);
    }
  }

  /** What a call returns is nothing or the ladder of the ratchet that it leaves. */
  lemma DesireGivesLadder(p: Params, s: State)
    requires 0.0 < p.tick
    ensures Desire(p, s).1 == [] || Desire(p, s).1 == Ladder(p, Desire(p, s).0.ratchet)
    ensures Desire(p, s).1 != [] ==> !s.suspended || Recovers(p, s)
    ensures 0.0 < s.ratchet ==> Desire(p, s).0.ratchet == s.ratchet
  {
  }

  /** The ladder never chases the market: of any two calls in a run, with anything in between, the
      later ladder is rung by rung no higher and no longer than the earlier one, if that had a rung. */
  lemma NeverChases(p: Params, s: State, between: seq<Event>)
    requires Sensible(p) && PositiveFills(between) && Desire(p, s).1 != []
    ensures NoHigher(Desire(p, Run(p, Desire(p, s).0, between)).1, Desire(p, s).1)
  {
    hide Ladder, Desire, Run;
    var (t, earlier) := Desire(p, s);
    DesireGivesLadder(p, s);
    NonEmptyNeedsRatchet(p, t.ratchet);
    RatchetOnlyFalls(p, t, between);
    var u := Run(p, t, between);
    DesireGivesLadder(p, u);
    LowerRatchetLowerLadder(p, t.ratchet, u.ratchet);
  }

  // ── Collapse and recovery over a run ──

  /** No market event of the run reaches `level`. */
  ghost predicate StaysBelow(es: seq<Event>, level: real) {
    forall i :: 0 <= i < |es| && es[i].Market? ==> es[i].refPrice < level
  }

  /** Suspended at a trigger, the strategy stays suspended, and every call returns nothing, for as
      long as the reference price stays below the trigger plus hysteresis. */
  lemma {:induction false} StaysSuspended(p: Params, s: State, es: seq<Event>)
    requires 0.0 < p.tick && s.suspended
    requires s.refPrice < RecoveryLevel(p, s.trigger) && StaysBelow(es, RecoveryLevel(p, s.trigger))
    ensures var t := Run(p, s, es);
      t.suspended && t.trigger == s.trigger && t.refPrice < RecoveryLevel(p, s.trigger) && Desire(p, t) == (t, [])
  {
    hide RecoveryLevel, Build, OfTicks;
    if es != [] {
      StaysSuspended(p, s, es[..|es| - 1]);
    }
  }

  /** A call returns a ladder from suspension exactly when the reference has recovered, there is no
      spike in the way, and the ladder has a rung. */
  lemma RecoversAtHysteresis(p: Params, s: State)
    requires 0.0 < p.tick && s.suspended && 0.0 < s.refPrice
    ensures Desire(p, s).0.suspended <==> s.refPrice < RecoveryLevel(p, s.trigger)
    ensures Desire(p, s).1 != [] <==>
      && s.refPrice >= RecoveryLevel(p, s.trigger)
      && !(s.spike && p.suspendOnSpike)
      && Ladder(p, if s.ratchet <= 0.0 then s.refPrice - OfTicks(p.offsetTicks, p.tick) else s.ratchet) != []
  {
  }

  /** The call after event k ends a suspension: the reference is positive and has recovered. */
  ghost predicate EndsSuspension(p: Params, s: State, es: seq<Event>, k: nat)
    requires 0.0 < p.tick && k < |es|
  {
    var t := Run(p, s, es[..k]);
    es[k].Desired? && t.suspended && 0.0 < t.refPrice && Recovers(p, t)
  }

  // One event ends a suspension exactly when it is such a call.
  lemma EventEnds(p: Params, s: State, e: Event)
    requires 0.0 < p.tick && s.suspended
    ensures !Step(p, s, e).suspended <==> e.Desired? && 0.0 < s.refPrice && Recovers(p, s)
  {
    if e.Desired? && 0.0 < s.refPrice {
      RecoversAtHysteresis(p, s);
    }
    hide Build, RecoveryLevel;
  }

  lemma RunNext(p: Params, s: State, es: seq<Event>, n: nat)
    requires 0.0 < p.tick && n < |es|
    ensures Run(p, s, es[..n + 1]) == Step(p, Run(p, s, es[..n]), es[n])
  {
    hide Step;
    assert es[..n + 1][..n] == es[..n];
  }

  lemma {:induction false} SuspendedUntilEnds(p: Params, s: State, es: seq<Event>, n: nat)
    requires 0.0 < p.tick && s.suspended && n <= |es|
    requires forall k: nat :: k < n ==> !EndsSuspension(p, s, es, k)
    ensures Run(p, s, es[..n]).suspended
  {
    if n > 0 {
      SuspendedUntilEnds(p, s, es, n - 1);
      RunNext(p, s, es, n - 1);
      assert !EndsSuspension(p, s, es, n - 1);
      hide Step, Run, Recovers;
      EventEnds(p, Run(p, s, es[..n - 1]), es[n - 1]);
    }
  }

  /** A suspension ends in a run exactly when some call is made while suspended at a positive reference price
      that has reached the recovery level. */
  lemma SuspensionEndsWhen(p: Params, s: State, es: seq<Event>)
    requires 0.0 < p.tick && s.suspended
    ensures (exists k :: 0 <= k <= |es| && !Run(p, s, es[..k]).suspended)
            <==> exists k: nat :: k < |es| && EndsSuspension(p, s, es, k)
  {
    hide Step, Run, Recovers;
    if k: nat :| k < |es| && EndsSuspension(p, s, es, k) {
      RunNext(p, s, es, k);
      EventEnds(p, Run(p, s, es[..k]), es[k]);
      assert !Run(p, s, es[..k + 1]).suspended;
    } else {
      forall k | 0 <= k <= |es|
        ensures Run(p, s, es[..k]).suspended
      {
        SuspendedUntilEnds(p, s, es, k);
      }
    }
  }

  // ── Under the bot ──

  /** As the bot calls it: the market is shown to, and orders are asked of, a strategy that is not suspended. */
  ghost predicate OnlyWhileActive(p: Params, s: State, es: seq<Event>)
    requires 0.0 < p.tick
  {
    forall k :: 0 <= k < |es| && (es[k].Market? || es[k].Desired?) ==> !Run(p, s, es[..k]).suspended
  }

  lemma NotCalled(p: Params, s: State, es: seq<Event>, k: nat)
    requires 0.0 < p.tick && OnlyWhileActive(p, s, es) && k < |es| && Run(p, s, es[..k]).suspended
    ensures !es[k].Market? && !es[k].Desired?
  {
    hide Run;
  }

  /** Called like that, a strategy that is suspended once is suspended for good, whatever the market does: it
      is not called any more. */
  lemma {:induction false} SuspendedForGood(p: Params, s: State, es: seq<Event>, k: nat)
    requires 0.0 < p.tick && OnlyWhileActive(p, s, es) && k <= |es| && Run(p, s, es[..k]).suspended
    ensures Run(p, s, es).suspended
    ensures forall j :: k <= j < |es| ==> !es[j].Market? && !es[j].Desired?
  {
    hide *;
    var n := |es| - 1;
    assert es[..|es|] == es;
    if k <= n {
      var front := es[..n];
      assert front[..k] == es[..k];
      ActiveFront(p, s, es);
      SuspendedForGood(p, s, front, k);
      NotCalled(p, s, es, n);
      RunNext(p, s, es, n);
      EventEnds(p, Run(p, s, front), es[n]);
      assert forall j :: k <= j < n ==> es[j] == front[j];
    }
  }

  lemma ActiveFront(p: Params, s: State, es: seq<Event>)
    requires 0.0 < p.tick && OnlyWhileActive(p, s, es) && es != []
    ensures OnlyWhileActive(p, s, es[..|es| - 1])
  {
    hide Run;
    var front := es[..|es| - 1];
    forall k | 0 <= k < |front| && (front[k].Market? || front[k].Desired?)
      ensures !Run(p, s, front[..k]).suspended
    {
      assert front[..k] == es[..k];
    }
  }

  lemma ActiveMore(p: Params, s: State, es: seq<Event>, e: Event)
    requires 0.0 < p.tick && OnlyWhileActive(p, s, es) && !Run(p, s, es).suspended
    ensures OnlyWhileActive(p, s, es + [e])
  {
    hide Run;
    var all := es + [e];
    forall k | 0 <= k < |all| && (all[k].Market? || all[k].Desired?)
      ensures !Run(p, s, all[..k]).suspended
    {
      assert all[..k] == if k < |es| then es[..k] else es;
    }
  }

  const FALL := [Market(100.0, false), Desired, Market(90.0, false), Desired]
  const FALL_AND_RISE := FALL + [Market(100.0, false), Desired]

  /** A market that falls away and comes back: a strategy that is still called resumes, under the bot it is
      called no more. */
  lemma NeverBack()
    ensures var p := Params(1.0, 1, 1, 0, 0.02, 0.01, true);
      && OnlyWhileActive(p, Initial, FALL) && Run(p, Initial, FALL).suspended
      && !Run(p, Initial, FALL_AND_RISE).suspended
  {
    var p := Params(1.0, 1, 1, 0, 0.02, 0.01, true);
    FallRun(p);
    hide Run;
    assert FALL_AND_RISE[..4] == FALL && FALL_AND_RISE[..6] == FALL_AND_RISE;
    forall k | 0 <= k < 4
      ensures !Run(p, Initial, FALL[..k]).suspended
    {
      assert FALL[..k] == FALL_AND_RISE[..k];
      assert k == 0 || k == 1 || k == 2 || k == 3;
    }
  }

  lemma FallRun(p: Params)
    requires p == Params(1.0, 1, 1, 0, 0.02, 0.01, true)
    ensures !Run(p, Initial, FALL_AND_RISE[..0]).suspended && !Run(p, Initial, FALL_AND_RISE[..1]).suspended
    ensures !Run(p, Initial, FALL_AND_RISE[..2]).suspended && !Run(p, Initial, FALL_AND_RISE[..3]).suspended
    ensures Run(p, Initial, FALL_AND_RISE[..4]).suspended && !Run(p, Initial, FALL_AND_RISE[..6]).suspended
  {
    FallSteps(p);
    var (s1, s2, s3, s4) := FallStates(p);
    hide Step, Run;
    RunOfSix(p, FALL_AND_RISE, s1, s2, s3, s4);
  }

  lemma RunOfSix(p: Params, es: seq<Event>, s1: State, s2: State, s3: State, s4: State)
    requires 0.0 < p.tick && |es| == 6
    requires Step(p, Initial, es[0]) == s1 && Step(p, s1, es[1]) == s2 && Step(p, s2, es[2]) == s3
             && Step(p, s3, es[3]) == s4
    ensures Run(p, Initial, es[..0]) == Initial && Run(p, Initial, es[..1]) == s1 && Run(p, Initial, es[..2]) == s2
    ensures Run(p, Initial, es[..3]) == s3 && Run(p, Initial, es[..4]) == s4
    ensures Run(p, Initial, es[..6]) == Step(p, Step(p, s4, es[4]), es[5])
  {
    hide Step;
    assert Run(p, Initial, es[..0]) == Initial;
    hide Run;
    RunNext(p, Initial, es, 0);
    RunNext(p, Initial, es, 1);
    RunNext(p, Initial, es, 2);
    RunNext(p, Initial, es, 3);
    RunNext(p, Initial, es, 4);
    RunNext(p, Initial, es, 5);
  }

  // The states after the events of the fall.
  function FallStates(p: Params): (State, State, State, State) {
    var s1 := Initial.(refPrice := 100.0);
    var s2 := s1.(ratchet := 100.0);
    var s3 := s2.(refPrice := 90.0);
    (s1, s2, s3, s3.(suspended := true, trigger := 90.0))
  }

  lemma FallSteps(p: Params)
    requires p == Params(1.0, 1, 1, 0, 0.02, 0.01, true)
    ensures var (s1, s2, s3, s4) := FallStates(p);
      && Step(p, Initial, FALL[0]) == s1 && Step(p, s1, FALL[1]) == s2
      && Step(p, s2, FALL[2]) == s3 && Step(p, s3, FALL[3]) == s4
      && !Step(p, Step(p, s4, Market(100.0, false)), Desired).suspended
  {
    LadderOfOne(p, 100.0, 100);
    hide Ladder;
    RecoversAtHysteresis(p, FallStates(p).3.(refPrice := 100.0));
  }

  lemma LadderOfOne(p: Params, ratchet: real, n: int)
    requires 0.0 < p.tick == 1.0 && p.rungs == 1 && ratchet == n as real && n > 0
    ensures Ladder(p, ratchet) == [ratchet]
  {
    assert WholeTick(1.0) by { assert 1.0 * SCALE_8 == 100000000 as real; }
    AlignIsMultiple(ratchet, 1.0);
    RoundWhole(n);
    assert Rung(p, ratchet, 0) == ratchet;
    assert RungsUpTo(p, ratchet, 0) == [];
  }

  // ── Halts ──

  /** A call that suspends the strategy. */
  ghost predicate Collapses(p: Params, s: State)
    requires 0.0 < p.tick
  {
    !s.suspended && Desire(p, s).0.suspended
  }

  /** The reference price at the latest call that suspended; 0 before the first. */
  ghost function LatestCollapse(p: Params, es: seq<Event>): real
    requires 0.0 < p.tick
  {
    if es == [] then 0.0
    else
      var front := es[..|es| - 1];
      if es[|es| - 1].Desired? && Collapses(p, Run(p, Initial, front)) then Run(p, Initial, front).refPrice
      else LatestCollapse(p, front)
  }

  lemma {:induction false} TriggerIsLatestCollapse(p: Params, es: seq<Event>)
    requires 0.0 < p.tick
    ensures Run(p, Initial, es).trigger == LatestCollapse(p, es)
  {
    hide Ladder, OfTicks, CollapseFloor, RecoveryLevel;
    if es != [] {
      TriggerIsLatestCollapse(p, es[..|es| - 1]);
    }
  }

  /** A halt suspends without a trigger of its own. The next call ends it unless the reference price is below
      the recovery level of the latest collapse; so if there was none, at any positive price. */
  lemma HaltLastsWhen(p: Params, es: seq<Event>, ref: real, spike: bool)
    requires 0.0 < p.tick && 0.0 < ref
    ensures Run(p, Initial, es + [StateChange(true), Market(ref, spike), Desired]).suspended
            <==> ref < RecoveryLevel(p, LatestCollapse(p, es))
    ensures LatestCollapse(p, es) == 0.0 ==>
      !Run(p, Initial, es + [StateChange(true), Market(ref, spike), Desired]).suspended
  {
    var s := Run(p, Initial, es);
    TriggerIsLatestCollapse(p, es);
    var halted := Step(p, Step(p, s, StateChange(true)), Market(ref, spike));
    RecoversAtHysteresis(p, halted);
    hide Desire, LatestCollapse;
    var all := es + [StateChange(true), Market(ref, spike), Desired];
    var n := |es|;
    assert all[..n] == es && all[..n + 1][..n] == es && all[..n + 2][..n + 1] == all[..n + 1];
    assert all[..n + 3] == all && all[..|all| - 1] == all[..n + 2];
    assert Run(p, Initial, all[..n + 1]) == Step(p, s, StateChange(true));
    assert Run(p, Initial, all[..n + 2]) == halted;
  }

  /** A call that returns a ladder from below the collapse floor. */
  ghost predicate BelowFloor(p: Params, s: State)
    requires 0.0 < p.tick
  {
    FarBelow(p, s.refPrice, Desire(p, s).1)
  }

  /** A call that ends a suspension. */
  ghost predicate Recovery(p: Params, s: State)
    requires 0.0 < p.tick
  {
    s.suspended && !Desire(p, s).0.suspended
  }

  /** Only the first ladder after a recovery can be below the floor: a call below the floor is
      exempt, and using the exemption ends it. */
  lemma FloorOrExempt(p: Params, s: State)
    requires 0.0 < p.tick
    ensures BelowFloor(p, s) ==> s.justRecovered || Recovery(p, s)
    ensures Desire(p, s).1 != [] ==> !Desire(p, s).0.justRecovered
    ensures Desire(p, s).0.justRecovered ==> s.justRecovered || Recovery(p, s)
  {
    DesireMeans(p, s);
    hide Desire;
  }

  ghost function Calls(p: Params, s: State, es: seq<Event>, recoveries: bool): nat
    requires 0.0 < p.tick
  {
    if es == [] then 0
    else
      var t := Run(p, s, es[..|es| - 1]);
      Calls(p, s, es[..|es| - 1], recoveries)
      + if es[|es| - 1].Desired? && (if recoveries then Recovery(p, t) else BelowFloor(p, t)) then 1 else 0
  }

  /** Over any run, ladders below the collapse floor are at most one for each recovery. */
  lemma {:induction false} OneExemptionPerRecovery(p: Params, s: State, es: seq<Event>)
    requires 0.0 < p.tick
    ensures Calls(p, s, es, false) + (if Run(p, s, es).justRecovered then 1 else 0)
         <= Calls(p, s, es, true) + if s.justRecovered then 1 else 0
  {
    if es != [] {
      var n := |es| - 1;
      OneExemptionPerRecovery(p, s, es[..n]);
      FloorOrExempt(p, Run(p, s, es[..n]));
    }
  }

  // ── The entry price ──

  /** Fills of positive size at prices from lo to hi. */
  ghost predicate FillsWithin(es: seq<Event>, lo: real, hi: real) {
    forall i :: 0 <= i < |es| && es[i].Fill? ==> lo <= es[i].price <= hi && 0.0 < es[i].size
  }

  ghost predicate EntryWithin(s: State, lo: real, hi: real) {
    && 0.0 < s.filledSize && Times(s.entryPrice, s.filledSize) == s.filledCost
    && Times(lo, s.filledSize) <= s.filledCost <= Times(hi, s.filledSize)
  }

  lemma FilledTotals(s: State, price: real, size: real)
    requires s.filledSize + size != 0.0
    ensures var t := Filled(s, price, size);
      && t.filledSize == s.filledSize + size && t.filledCost == s.filledCost + Times(price, size)
      && Times(t.entryPrice, t.filledSize) == t.filledCost
      && t.ratchet == (if 0.0 < s.ratchet <= price then s.ratchet else price)
      && t == s.(filledSize := t.filledSize, filledCost := t.filledCost, entryPrice := t.entryPrice,
                 ratchet := t.ratchet)
  {
  }

  lemma FilledWithin(s: State, price: real, size: real, lo: real, hi: real)
    requires lo <= price <= hi && 0.0 < size
    requires s.filledSize == 0.0 == s.filledCost || EntryWithin(s, lo, hi)
    ensures EntryWithin(Filled(s, price, size), lo, hi)
  {
    hide Times, Filled;
    FilledTotals(s, price, size);
    WeightedAtLeast(lo, s.filledSize, s.filledCost, price, size);
    WeightedAtMost(hi, s.filledSize, s.filledCost, price, size);
  }

  lemma WeightedAtLeast(lo: real, total: real, cost: real, price: real, size: real)
    requires lo <= price && 0.0 < size && (total == 0.0 == cost || (0.0 < total && Times(lo, total) <= cost))
    ensures Times(lo, total + size) <= cost + Times(price, size)
  {
    assert lo * (total + size) == lo * total + lo * size;
    assert lo * size <= price * size;
  }

  lemma WeightedAtMost(hi: real, total: real, cost: real, price: real, size: real)
    requires price <= hi && 0.0 < size && (total == 0.0 == cost || (0.0 < total && cost <= Times(hi, total)))
    ensures cost + Times(price, size) <= Times(hi, total + size)
  {
    assert hi * (total + size) == hi * total + hi * size;
    assert price * size <= hi * size;
  }

  // Only fills change what was filled.
  lemma OthersFillNothing(p: Params, s: State, e: Event)
    requires 0.0 < p.tick && !e.Fill?
    ensures var t := Step(p, s, e);
      t.filledSize == s.filledSize && t.filledCost == s.filledCost && t.entryPrice == s.entryPrice
  {
  }

  ghost predicate HasFill(es: seq<Event>) {
    exists i :: 0 <= i < |es| && es[i].Fill?
  }

  lemma HasFillSnoc(es: seq<Event>)
    requires es != []
    ensures HasFill(es) <==> HasFill(es[..|es| - 1]) || es[|es| - 1].Fill?
  {
    var front := es[..|es| - 1];
    if HasFill(front) {
      var i :| 0 <= i < |front| && front[i].Fill?;
      assert es[i].Fill?;
    }
    if HasFill(es) && !es[|es| - 1].Fill? {
      var i :| 0 <= i < |es| && es[i].Fill?;
      assert front[i].Fill?;
    }
  }

  lemma {:induction false} EntryOverRun(p: Params, es: seq<Event>, lo: real, hi: real)
    requires 0.0 < p.tick && FillsWithin(es, lo, hi)
    ensures var s := Run(p, Initial, es);
      if HasFill(es) then EntryWithin(s, lo, hi) else s.filledSize == 0.0 == s.filledCost
  {
    hide EntryWithin, HasFill, Desire;
    if es == [] {
      NoFill();
    } else {
      var n := |es| - 1;
      EntryOverRun(p, es[..n], lo, hi);
      HasFillSnoc(es);
      if es[n].Fill? {
        FilledWithin(Run(p, Initial, es[..n]), es[n].price, es[n].size, lo, hi);
      } else {
        OthersFillNothing(p, Run(p, Initial, es[..n]), es[n]);
        SameEntry(Run(p, Initial, es[..n]), Run(p, Initial, es), lo, hi);
      }
    }
  }

  lemma NoFill()
    ensures !HasFill([])
  {
  }

  lemma SameEntry(s: State, t: State, lo: real, hi: real)
    requires t.filledSize == s.filledSize && t.filledCost == s.filledCost && t.entryPrice == s.entryPrice
    ensures EntryWithin(s, lo, hi) == EntryWithin(t, lo, hi)
  {
  }

  /** The entry price is an average: it lies within the range of the fill prices. */
  lemma EntryIsAverage(p: Params, es: seq<Event>, lo: real, hi: real)
    requires 0.0 < p.tick && FillsWithin(es, lo, hi) && HasFill(es)
    ensures lo <= Run(p, Initial, es).entryPrice <= hi
  {
    hide *;
    EntryOverRun(p, es, lo, hi);
    EntryBounds(Run(p, Initial, es), lo, hi);
  }

  lemma EntryBounds(s: State, lo: real, hi: real)
    requires EntryWithin(s, lo, hi)
    ensures lo <= s.entryPrice <= hi
  {
    AverageBounds(s.entryPrice, s.filledSize, lo, hi);
  }

  lemma AverageBounds(x: real, size: real, lo: real, hi: real)
    requires 0.0 < size && lo * size <= x * size <= hi * size
    ensures lo <= x <= hi
  {
    assert (x - lo) * size == x * size - lo * size;
    assert x - lo == (x - lo) * size / size;
    assert (hi - x) * size == hi * size - x * size;
    assert hi - x == (hi - x) * size / size;
  }
}

module Accumulation {
  import opened Types
  import opened Rounding
  import opened Ladders

  class Accumulator {
    const pair: string
    const orderSize: real
    const params: Params
    var refPrice: real
    var spikeActive: bool
    var ratchet: real
    var entryPrice: real
    var filledSize: real
    var filledCost: real
    var suspended: bool
    var suspendTrigger: real
    var justRecovered: bool

    // Every call since construction.
    ghost var calls: seq<Event>

    ghost function Now(): State
      reads this
    {
      State(refPrice, spikeActive, ratchet, entryPrice, filledSize, filledCost, suspended, suspendTrigger,
        justRecovered)
    }

    ghost predicate Valid()
      reads this
    {
      0.0 < params.tick && Now() == Run(params, Initial, calls)
    }

    constructor (pair: string, orderSize: real, p: Params)
      requires 0.0 < p.tick
      ensures Valid() && params == p && calls == []
    {
      this.pair, this.orderSize, params := pair, orderSize, p;
      refPrice, spikeActive, ratchet, entryPrice := 0.0, false, 0.0, 0.0;
      filledSize, filledCost := 0.0, 0.0;
      suspended, suspendTrigger, justRecovered := false, 0.0, false;
      calls := [];
    }

    method UpdateMarket(price: real, spike: bool)
      requires Valid()
      modifies this
      ensures Valid() && calls == old(calls) + [Market(price, spike)]
    {
      ghost var before := calls;
      refPrice, spikeActive := price, spike;
      calls := calls + [Market(price, spike)];
      assert calls[..|calls| - 1] == before;
    }

    method OnStateChange(halting: bool)
      requires Valid()
      modifies this
      ensures Valid() && calls == old(calls) + [StateChange(halting)]
    {
      ghost var before := calls;
      if halting {
        suspended := true;
      }
      calls := calls + [StateChange(halting)];
      assert calls[..|calls| - 1] == before;
    }

    /** Records a fill; false when the average has nothing to divide by. */
    method OnFill(price: real, size: real) returns (ok: bool)
      requires Valid()
      modifies this
      ensures Valid() && calls == old(calls) + [Fill(price, size)]
      ensures ok <==> filledSize != 0.0
    {
      ghost var before := calls;
      calls := calls + [Fill(price, size)];
      assert calls[..|calls| - 1] == before;
      filledSize := filledSize + size;
      filledCost := filledCost + price * size;
      if filledSize == 0.0 {
        return false;
      }
      entryPrice := filledCost / filledSize;
      if ratchet <= 0.0 || price < ratchet {
        ratchet := price;
      }
      ok := true;
    }

    // The ladder's rungs above zero.
    method ComputeLadder() returns (prices: seq<real>)
      requires 0.0 < params.tick
      ensures prices == Ladder(params, ratchet)
    {
      prices := [];
      for i := 0 to params.rungs
        invariant prices == RungsUpTo(params, ratchet, i)
      {
        var price := Rung(params, ratchet, i);
        if price <= 0.0 {
          continue;
        }
        prices := prices + [price];
      }
    }

    /** The prices of the orders that the strategy wants now; each is a buy of the order size. */
    method DesiredOrders() returns (prices: seq<real>)
      requires Valid()
      modifies this
      ensures Valid() && calls == old(calls) + [Desired]
      ensures prices == Desire(params, old(Now())).1
    {
      hide Ladder, CollapseFloor, OfTicks, RecoveryLevel, Build, Run;
      DesiredNext(params, calls);
      calls := calls + [Desired];
      if refPrice <= 0.0 {
        return [];
      }
      if suspended {
        if refPrice >= RecoveryLevel(params, suspendTrigger) {
          suspended := false;
        }
        if suspended {
          return [];
        }
        justRecovered := true;
      }
      if spikeActive && params.suspendOnSpike {
        return [];
      }
      prices := Offer();
    }

    // Past the gates: the ladder, unless the market has collapsed below it.
    method Offer() returns (prices: seq<real>)
      requires 0.0 < params.tick && !suspended
      modifies this`ratchet, this`suspended, this`suspendTrigger, this`justRecovered
      ensures (Now(), prices) == Build(params, old(Now()))
    {
      hide Ladder, CollapseFloor, OfTicks;
      if ratchet <= 0.0 {
        ratchet := refPrice - OfTicks(params.offsetTicks, params.tick);
      }
      prices := ComputeLadder();
      if !justRecovered && prices != [] {
        if refPrice < CollapseFloor(params, prices) {
          suspended := true;
          suspendTrigger := refPrice;
        }
      }
      justRecovered := false;
      if suspended {
        return [];
      }
    }
  }

  /** What a tick of the bot asks of a strategy, when it gets as far: an active one is shown the market, and
      then its orders are wanted. */
  method ServeTick(strategy: Accumulator, refPrice: real, spike: bool) returns (prices: seq<real>)
    requires strategy.Valid()
    modifies strategy
    ensures strategy.Valid()
    ensures strategy.calls == old(strategy.calls)
            + if old(strategy.suspended) then [] else [Market(refPrice, spike), Desired]
    ensures old(OnlyWhileActive(strategy.params, Initial, strategy.calls)) ==>
      OnlyWhileActive(strategy.params, Initial, strategy.calls)
    ensures old(strategy.suspended) ==> strategy.suspended && prices == []
    ensures !old(strategy.suspended) ==>
      prices == Desire(strategy.params, old(strategy.Now()).(refPrice := refPrice, spike := spike)).1
  {
    prices := [];
    ghost var before := strategy.calls;
    hide OnlyWhileActive, Run, Desire;
    if !strategy.suspended {
      MarketNext(strategy.params, before, refPrice, spike);
      if OnlyWhileActive(strategy.params, Initial, before) {
        ActiveMore(strategy.params, Initial, before, Market(refPrice, spike));
        ActiveMore(strategy.params, Initial, before + [Market(refPrice, spike)], Desired);
      }
      strategy.UpdateMarket(refPrice, spike);
      assert before + [Market(refPrice, spike)] + [Desired] == before + [Market(refPrice, spike), Desired];
    }
    if !strategy.suspended {
      prices := strategy.DesiredOrders();
    }
  }

  lemma MarketNext(p: Params, calls: seq<Event>, refPrice: real, spike: bool)
    requires 0.0 < p.tick
    ensures Run(p, Initial, calls + [Market(refPrice, spike)]).suspended == Run(p, Initial, calls).suspended
  {
    assert (calls + [Market(refPrice, spike)])[..|calls|] == calls;
  }

  lemma DesiredNext(p: Params, calls: seq<Event>)
    requires 0.0 < p.tick
    ensures Run(p, Initial, calls + [Desired]) == Desire(p, Run(p, Initial, calls)).0
  {
    assert (calls + [Desired])[..|calls|] == calls;
  }
}

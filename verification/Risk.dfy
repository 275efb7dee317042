// risk/risk_manager.py: position, order-count and flash-crash limits, and halting.

module Risks {
  import opened Types

  datatype Limits = Limits(maxPosition: real, maxOrders: int, flashThreshold: real, capCooldownMs: int, base: string)

  datatype Risk = Risk(
    halted: bool, position: bool, orderCount: bool, flash: bool, peak: real, capUntil: real, capBreached: bool)

  const InitialRisk := Risk(false, false, false, false, 0.0, 0.0, false)

  /** The part of a pair before its first underscore; empty without one. */
  function BaseOf(pair: string): string {
    if '_' in pair then FirstPart(pair) else ""
  }

  function FirstPart(pair: string): (r: string)
    requires '_' in pair
    ensures '_' !in r && r + ['_'] <= pair
  {
    if pair[0] == '_' then []
    else
      assert pair == [pair[0]] + pair[1..];
      [pair[0]] + FirstPart(pair[1..])
  }

  /** The base currency of a pair written as two currencies joined by an underscore is the first of them. */
  lemma {:induction false} BaseOfJoined(base: string, quote: string)
    requires '_' !in base
    ensures BaseOf(base + "_" + quote) == base
  {
    var pair := base + "_" + quote;
    assert pair[|base|] == '_';
    if base != "" {
      assert pair[0] == base[0] && pair[1..] == base[1..] + "_" + quote;
      BaseOfJoined(base[1..], quote);
      assert '_' in pair[1..] by { assert pair[1..][|base| - 1] == '_'; }
      assert base == [base[0]] + base[1..];
    }
  }

  /** Held base currency, or everything positive when the base currency is not known. */
  function Held(balances: seq<Balance>, base: string): real {
    if balances == [] then 0.0
    else
      var b := balances[|balances| - 1];
      var counts := if base != "" then b.currency == base else b.total > 0.0;
      Held(balances[..|balances| - 1], base) + if counts then b.total else 0.0
  }

  /** What the open buy orders would still add. */
  function PendingBuys(orders: seq<Order>): real {
    if orders == [] then 0.0
    else
      var o := orders[|orders| - 1];
      PendingBuys(orders[..|orders| - 1])
      + if o.side == Buy && o.size > o.filledSize then o.size - o.filledSize else 0.0
  }

  /** What is held adds up over the balances: each counts with its total if it is the base currency, or if the
      base currency is not known and the total is positive. */
  lemma {:induction false} HeldAdds(a: seq<Balance>, b: seq<Balance>, x: Balance, base: string)
    ensures Held(a + b, base) == Held(a, base) + Held(b, base)
    ensures base != "" ==> Held([x], base) == if x.currency == base then x.total else 0.0
    ensures base == "" ==> Held([x], base) == if x.total > 0.0 then x.total else 0.0
  {
    assert [x][..0] == [];
    if b == [] {
      assert a + b == a;
    } else {
      var n := |b| - 1;
      assert (a + b)[..|a + b| - 1] == a + b[..n];
      HeldAdds(a, b[..n], x, base);
    }
  }

  /** What is pending adds up over the orders: each buy counts with what is not filled of it. */
  lemma {:induction false} PendingAdds(a: seq<Order>, b: seq<Order>, x: Order)
    ensures PendingBuys(a + b) == PendingBuys(a) + PendingBuys(b)
    ensures PendingBuys([x]) == if x.side == Buy && x.filledSize < x.size then x.size - x.filledSize else 0.0
    ensures 0.0 <= PendingBuys(b)
  {
    assert [x][..0] == [];
    if b == [] {
      assert a + b == a;
    } else {
      var n := |b| - 1;
      assert (a + b)[..|a + b| - 1] == a + b[..n];
      PendingAdds(a, b[..n], x);
    }
  }

  function Exposure(l: Limits, orders: seq<Order>, balances: seq<Balance>, mid: real): real {
    (Held(balances, l.base) + PendingBuys(orders)) * mid
  }

  function Drop(peak: real, mid: real): real
    requires 0.0 < peak
  {
    (peak - mid) / peak
  }

  datatype Evaluation = Evaluation(orders: seq<Order>, balances: seq<Balance>, mid: real, now: real)

  predicate OverPosition(l: Limits, e: Evaluation) {
    e.mid > 0.0 && Exposure(l, e.orders, e.balances, e.mid) > l.maxPosition
  }

  function PeakWith(peak: real, mid: real): real {
    if mid > peak then mid else peak
  }

  /** The mid has dropped from the peak by the threshold. */
  predicate Crashed(l: Limits, peak: real, mid: real) {
    mid > 0.0 && PeakWith(peak, mid) > 0.0 && Drop(PeakWith(peak, mid), mid) >= l.flashThreshold
  }

  /** Some limit is broken. */
  predicate Breach(l: Limits, peak: real, e: Evaluation) {
    OverPosition(l, e) || |e.orders| >= l.maxOrders || Crashed(l, peak, e.mid)
  }

  /** `evaluate`: the three checks, then the start or the end of a halt. */
  function Evaluated(l: Limits, s: Risk, e: Evaluation): Risk {
    var position := OverPosition(l, e);
    var orderCount := |e.orders| >= l.maxOrders;
    var flash := Crashed(l, s.peak, e.mid);
    var peak := if e.mid <= 0.0 then s.peak else PeakWith(s.peak, e.mid);
    var capBreached := s.capBreached || position;
    var ends := s.halted && !(position || orderCount || flash);
    var capStarts := ends && capBreached;
    Risk(position || orderCount || flash, position, orderCount, flash, peak,
         if capStarts then e.now + l.capCooldownMs as real / 1000.0 else s.capUntil,
         capBreached && !capStarts)
  }

  function EvaluatedAll(l: Limits, es: seq<Evaluation>): Risk {
    if es == [] then InitialRisk else Evaluated(l, EvaluatedAll(l, es[..|es| - 1]), es[|es| - 1])
  }

  /** The largest positive mid of the evaluations; 0 without one. */
  ghost predicate IsPeak(es: seq<Evaluation>, peak: real) {
    && (forall i :: 0 <= i < |es| ==> es[i].mid <= peak)
    && (peak == 0.0 || exists i :: 0 <= i < |es| && es[i].mid == peak)
    && 0.0 <= peak
  }

  /** The last evaluation breaks a limit, and it, or one before it with no clear one in between, is
      over position. */
  predicate OverSince(l: Limits, es: seq<Evaluation>) {
    && es != []
    && var n := |es| - 1;
    && Breach(l, EvaluatedAll(l, es[..n]).peak, es[n])
    && (OverPosition(l, es[n]) || OverSince(l, es[..n]))
  }

  // ── Over all runs ──

  /** After every evaluation the manager is halted exactly when that evaluation breaks a limit, and the
      peak is the highest mid so far. */
  lemma {:induction false} HaltedExactlyOnBreach(l: Limits, es: seq<Evaluation>)
    ensures IsPeak(es, EvaluatedAll(l, es).peak)
    ensures es != [] ==>
              (EvaluatedAll(l, es).halted <==> Breach(l, EvaluatedAll(l, es[..|es| - 1]).peak, es[|es| - 1]))
  {
    hide OverPosition, Crashed;
    if es != [] {
      var n := |es| - 1;
      HaltedExactlyOnBreach(l, es[..n]);
      var was, peak := EvaluatedAll(l, es[..n]).peak, EvaluatedAll(l, es).peak;
      assert forall i :: 0 <= i < n ==> es[..n][i] == es[i];
      if peak == was && peak != 0.0 {
        var i :| 0 <= i < n && es[..n][i].mid == was;
        assert es[i].mid == peak;
      }
    }
  }

  /** The highest mid that counts as crashed from a peak. */
  function Crash(peak: real, threshold: real): real {
    peak * (1.0 - threshold)
  }

  lemma FlashOfStep(l: Limits, was: Risk, e: Evaluation)
    requires e.mid > 0.0
    ensures var s := Evaluated(l, was, e);
      0.0 < s.peak && (s.flash <==> e.mid <= Crash(s.peak, l.flashThreshold))
  {
    hide OverPosition, Drop, Crash;
    DropMeans(PeakWith(was.peak, e.mid), e.mid, l.flashThreshold);
  }

  lemma DropMeans(peak: real, mid: real, threshold: real)
    requires 0.0 < peak
    ensures Drop(peak, mid) >= threshold <==> mid <= Crash(peak, threshold)
  {
    var d := Drop(peak, mid);
    assert d * peak == peak - mid;
    assert peak * (1.0 - threshold) == peak - threshold * peak;
    if d >= threshold {
      assert 0.0 <= (d - threshold) * peak;
    } else {
      assert 0.0 < (threshold - d) * peak;
    }
  }

  lemma FlashAgainst(l: Limits, es: seq<Evaluation>)
    requires es != [] && es[|es| - 1].mid > 0.0
    ensures var s, mid := EvaluatedAll(l, es), es[|es| - 1].mid;
      IsPeak(es, s.peak) && 0.0 < s.peak && (s.flash <==> mid <= Crash(s.peak, l.flashThreshold))
  {
    hide OverPosition, Drop, Crash;
    HaltedExactlyOnBreach(l, es);
    var s, e := EvaluatedAll(l, es), es[|es| - 1];
    var was := EvaluatedAll(l, es[..|es| - 1]);
    hide EvaluatedAll, IsPeak;
    FlashOfStep(l, was, e);
  }

  /** The flash check measures against the highest mid ever: it is the relative drop from it. */
  lemma FlashMeans(l: Limits, es: seq<Evaluation>)
    requires es != [] && es[|es| - 1].mid > 0.0
    ensures var s, mid := EvaluatedAll(l, es), es[|es| - 1].mid;
      IsPeak(es, s.peak) && 0.0 < s.peak && (s.flash <==> DroppedBy(mid, s.peak, l.flashThreshold))
  {
    FlashAgainst(l, es);
    hide EvaluatedAll, IsPeak;
  }

  /** A mid lies the share `threshold` of the peak or more below the peak. */
  ghost predicate DroppedBy(mid: real, peak: real, threshold: real) {
    threshold * peak <= peak - mid
  }

  /** Base currency held and the open rest of the buy orders are worth more than the limit, or there are as many
      open orders as allowed, or the mid has dropped from the peak by the threshold. */
  ghost predicate BreaksLimit(l: Limits, balances: seq<Balance>, orders: seq<Order>, mid: real, peak: real) {
    || (Held(balances, l.base) + PendingBuys(orders)) * mid > l.maxPosition
    || |orders| >= l.maxOrders
    || DroppedBy(mid, peak, l.flashThreshold)
  }

  /** At a positive mid an evaluation halts if and only if a limit is broken, against the peak with that mid. */
  lemma EvaluationHalts(l: Limits, was: Risk, e: Evaluation)
    requires e.mid > 0.0
    ensures var s := Evaluated(l, was, e);
      && (s.halted <==> BreaksLimit(l, e.balances, e.orders, e.mid, s.peak))
      && s.peak == if was.peak < e.mid then e.mid else was.peak
  {
    FlashOfStep(l, was, e);
    hide Held, PendingBuys, Drop;
  }

  lemma {:induction false} PeakOfPart(l: Limits, es: seq<Evaluation>, n: nat)
    requires n <= |es|
    ensures 0.0 <= EvaluatedAll(l, es[|es| - n..]).peak <= EvaluatedAll(l, es).peak
  {
    var part := es[|es| - n..];
    HaltedExactlyOnBreach(l, es);
    HaltedExactlyOnBreach(l, part);
    var peak := EvaluatedAll(l, part).peak;
    hide EvaluatedAll, Breach;
    if peak != 0.0 {
      var i :| 0 <= i < |part| && part[i].mid == peak;
      assert es[|es| - n + i].mid == peak;
    }
  }

  /** The check is documented to measure against the recent high. Against the high of the last n evaluations
      it comes out the same if and only if the mid is not between what counts as crashed from that and from the
      highest ever; so whenever the two highs are equal. */
  lemma HighIsRecentWhen(l: Limits, es: seq<Evaluation>, n: nat)
    requires 0 < n <= |es| && es[|es| - 1].mid > 0.0
    ensures var all, recent, mid := EvaluatedAll(l, es), EvaluatedAll(l, es[|es| - n..]), es[|es| - 1].mid;
      && (all.flash == recent.flash
          <==> !(Crash(recent.peak, l.flashThreshold) < mid <= Crash(all.peak, l.flashThreshold)))
      && (all.peak == recent.peak ==> all.flash == recent.flash)
  {
    var part := es[|es| - n..];
    assert part[n - 1] == es[|es| - 1];
    FlashAgainst(l, es);
    FlashAgainst(l, part);
    PeakOfPart(l, es, n);
    CrashGrows(EvaluatedAll(l, part).peak, EvaluatedAll(l, es).peak, l.flashThreshold);
    hide EvaluatedAll, Crash;
  }

  lemma CrashGrows(low: real, high: real, threshold: real)
    requires 0.0 <= low <= high
    ensures 0.0 < Crash(low, threshold) ==> Crash(low, threshold) <= Crash(high, threshold)
  {
    var keep := 1.0 - threshold;
    if 0.0 <= keep {
      assert 0.0 <= (high - low) * keep;
    } else {
      assert 0.0 <= low * -keep;
    }
  }

  /** A mid that drifts from 100 over 96 to 95 is a crash at five percent, though it is within 1.1 percent of the
      last two. */
  lemma OldHighCounts()
    ensures var l := Limits(100.0, 10, 0.05, 30000, "BTC");
      var es := [Evaluation([], [], 100.0, 1.0), Evaluation([], [], 96.0, 2.0), Evaluation([], [], 95.0, 3.0)];
      EvaluatedAll(l, es).flash && !EvaluatedAll(l, es[1..]).flash
  {
    var l := Limits(100.0, 10, 0.05, 30000, "BTC");
    var a, b, d := Evaluation([], [], 100.0, 1.0), Evaluation([], [], 96.0, 2.0), Evaluation([], [], 95.0, 3.0);
    assert [a, b, d][..2] == [a, b] && [a, b][..1] == [a] && [a][..0] == [];
    assert [a, b, d][1..] == [b, d] && [b, d][..1] == [b] && [b][..0] == [];
    assert EvaluatedAll(l, [a]).peak == 100.0 && EvaluatedAll(l, [b]).peak == 96.0;
    assert EvaluatedAll(l, [a, b]).peak == 100.0;
    assert Drop(100.0, 95.0) == 0.05 && Drop(96.0, 95.0) < 0.05;
  }

  /** The cap flag is set exactly while a halt lasts in which the position limit was broken. */
  lemma {:induction false} CapFlagMeans(l: Limits, es: seq<Evaluation>)
    ensures EvaluatedAll(l, es).capBreached <==> OverSince(l, es)
  {
    if es != [] {
      var n := |es| - 1;
      CapFlagMeans(l, es[..n]);
      hide OverPosition, Crashed;
      if n > 0 {
        HaltedExactlyOnBreach(l, es[..n]);
      }
    }
  }

  /** The cap cooldown is set exactly by the evaluation that ends such a halt. */
  lemma CapCooldownStarts(l: Limits, es: seq<Evaluation>)
    requires es != []
    ensures var n := |es| - 1;
      var was, s := EvaluatedAll(l, es[..n]), EvaluatedAll(l, es);
      s.capUntil
      == if !s.halted && OverSince(l, es[..n]) then es[n].now + l.capCooldownMs as real / 1000.0 else was.capUntil
  {
    var n := |es| - 1;
    CapFlagMeans(l, es[..n]);
    hide OverPosition, Crashed;
    if n > 0 {
      HaltedExactlyOnBreach(l, es[..n]);
    }
  }

  /** Left to itself the manager does resume: a position over the limit at one evaluation, within it at
      the next, clears the halt and starts the cap cooldown. */
  lemma HaltClearsAlone()
    ensures var l := Limits(100.0, 10, 0.05, 30000, "BTC");
      var over, clear := Evaluation([], [Balance("BTC", 2.0)], 100.0, 1.0), Evaluation([], [], 100.0, 2.0);
      && EvaluatedAll(l, [over]).halted
      && !EvaluatedAll(l, [over, clear]).halted && EvaluatedAll(l, [over, clear]).capUntil == 32.0
  {
    var l := Limits(100.0, 10, 0.05, 30000, "BTC");
    var over, clear := Evaluation([], [Balance("BTC", 2.0)], 100.0, 1.0), Evaluation([], [], 100.0, 2.0);
    assert [over][..0] == [] && [over, clear][..1] == [over];
    assert [Balance("BTC", 2.0)][..0] == [];
    assert Held([Balance("BTC", 2.0)], "BTC") == 2.0 && Exposure(l, [], over.balances, 100.0) == 200.0;
    assert Exposure(l, [], [], 100.0) == 0.0 && Drop(100.0, 100.0) == 0.0;
    var halted := EvaluatedAll(l, [over]);
    assert EvaluatedAll(l, [over][..0]) == InitialRisk;
    assert halted == Evaluated(l, InitialRisk, over);
    assert halted.halted && halted.capBreached && halted.peak == 100.0;
    hide EvaluatedAll, Exposure, Drop;
    assert Evaluated(l, halted, clear).capUntil == 32.0 && !Evaluated(l, halted, clear).halted;
  }

  class LiveRiskManager {
    const limits: Limits
    var halted: bool
    var position: bool
    var orderCount: bool
    var flash: bool
    var peak: real
    var capUntil: real
    var capBreached: bool

    ghost function Value(): Risk
      reads this
    {
      Risk(halted, position, orderCount, flash, peak, capUntil, capBreached)
    }

    constructor (maxPosition: real, maxOrders: int, flashThresholdPct: real, capCooldownMs: int, pair: string)
      ensures limits == Limits(maxPosition, maxOrders, flashThresholdPct / 100.0, capCooldownMs, BaseOf(pair))
      ensures Value() == InitialRisk
    {
      limits := Limits(maxPosition, maxOrders, flashThresholdPct / 100.0, capCooldownMs, BaseOf(pair));
      halted, position, orderCount, flash, peak, capUntil, capBreached := false, false, false, false, 0.0, 0.0, false;
    }

    method CheckPosition(orders: seq<Order>, balances: seq<Balance>, mid: real)
      modifies this`position, this`capBreached
      ensures position == OverPosition(limits, Evaluation(orders, balances, mid, 0.0))
      ensures capBreached == (old(capBreached) || position)
    {
      if mid <= 0.0 {
        position := false;
        return;
      }
      var held, i := 0.0, 0;
      while i < |balances|
        invariant 0 <= i <= |balances| && held == Held(balances[..i], limits.base)
      {
        var b := balances[i];
        assert balances[..i + 1][..i] == balances[..i];
        if limits.base != "" && b.currency == limits.base {
          held := held + b.total;
        } else if limits.base == "" && b.total > 0.0 {
          held := held + b.total;
        }
        i := i + 1;
      }
      assert balances[..i] == balances;
      var pending := CountPending(orders);
      position := (held + pending) * mid > limits.maxPosition;
      if position {
        capBreached := true;
      }
    }

    static method CountPending(orders: seq<Order>) returns (pending: real)
      ensures pending == PendingBuys(orders)
    {
      pending := 0.0;
      var i := 0;
      while i < |orders|
        invariant 0 <= i <= |orders| && pending == PendingBuys(orders[..i])
      {
        var o := orders[i];
        assert orders[..i + 1][..i] == orders[..i];
        if o.side == Buy && o.size > o.filledSize {
          pending := pending + (o.size - o.filledSize);
        }
        i := i + 1;
      }
      assert orders[..i] == orders;
    }

    method CheckFlashCrash(mid: real)
      modifies this`flash, this`peak
      ensures flash == Crashed(limits, old(peak), mid)
      ensures peak == if mid <= 0.0 then old(peak) else PeakWith(old(peak), mid)
    {
      if mid <= 0.0 {
        flash := false;
        return;
      }
      if mid > peak {
        peak := mid;
      }
      if peak > 0.0 {
        flash := Drop(peak, mid) >= limits.flashThreshold;
      }
    }

    /** Halted afterwards exactly when a limit is broken now. */
    method Evaluate(orders: seq<Order>, balances: seq<Balance>, mid: real, now: real)
      modifies this
      ensures Value() == Evaluated(limits, old(Value()), Evaluation(orders, balances, mid, now))
      ensures position <==>
        mid > 0.0 && (Held(balances, limits.base) + PendingBuys(orders)) * mid > limits.maxPosition
      ensures orderCount <==> |orders| >= limits.maxOrders
      ensures flash <==> mid > 0.0 && mid <= peak * (1.0 - limits.flashThreshold)
      ensures peak == if mid > 0.0 && mid > old(peak) then mid else old(peak)
      ensures halted <==> position || orderCount || flash
    {
      hide Held, PendingBuys, Drop;
      if mid > 0.0 {
        FlashOfStep(limits, Value(), Evaluation(orders, balances, mid, now));
      }
      CheckPosition(orders, balances, mid);
      orderCount := |orders| >= limits.maxOrders;
      CheckFlashCrash(mid);
      if position || orderCount || flash {
        if !halted {
          halted := true;
        }
      } else {
        if halted {
          if capBreached {
            capUntil := now + limits.capCooldownMs as real / 1000.0;
            capBreached := false;
          }
          halted := false;
        }
      }
    }
  }
}

// bot.py: what the bot knows of its balances and of the market, and when that stops it.

module BotRisks {
  import opened Types
  import opened Lifecycle
  import opened Cooldowns
  import opened Risks
  import opened BotSteps
  import opened BotRuns
  import RefPricing
  import Windows

  /** The tick gets as far as the market: the bot is not stopped, and there is a mid. */
  ghost predicate Awake(b: Bot, i: Input) {
    b.machine.state != Emergency && b.machine.state != Shutdown && 0.0 < i.mid
  }

  /** Tick k, number k + 1, fetches the balances: it is awake, and a tenth one of a live bot with a client, and
      the exchange answers. */
  ghost predicate Fetches(c: Config, inputs: seq<Input>, k: nat)
    requires k < |inputs|
  {
    && Awake(After(c, inputs[..k]), inputs[k]) && (k + 1) % 10 == 0
    && !c.dryRun && c.hasClient && inputs[k].fetched.Some?
  }

  ghost predicate FetchesLast(c: Config, inputs: seq<Input>, k: nat) {
    k < |inputs| && Fetches(c, inputs, k) && forall j :: k < j < |inputs| ==> !Fetches(c, inputs, j)
  }

  lemma BalancesOfTick(c: Config, b: Bot, i: Input)
    requires Tick(c, b, i).Ran?
    ensures var t := Tick(c, b, i).bot;
      && t.ticks == b.ticks + 1
      && t.balances == if Awake(b, i) && (b.ticks + 1) % 10 == 0 && !c.dryRun && c.hasClient && i.fetched.Some?
                       then i.fetched.value else b.balances
  {
    hide RefPricing.Update, RefPricing.Expire, OwnPrices, Evaluated, Unblocked, Cooled, Shown;
  }

  lemma {:induction false} TicksAreCounted(c: Config, inputs: seq<Input>)
    ensures After(c, inputs).ticks == |inputs|
  {
    hide Tick;
    if inputs != [] {
      var n := |inputs| - 1;
      TicksAreCounted(c, inputs[..n]);
      NeverRaises(c, inputs);
      BalancesOfTick(c, After(c, inputs[..n]), inputs[n]);
    }
  }

  /** After any run the bot knows the balances of the last tick that fetched any; before one it knows none. */
  lemma {:induction false} BalancesAreLatest(c: Config, inputs: seq<Input>)
    ensures forall k: nat :: FetchesLast(c, inputs, k) ==> After(c, inputs).balances == inputs[k].fetched.value
    ensures (forall k: nat :: !FetchesLast(c, inputs, k)) ==> After(c, inputs).balances == []
  {
    hide Tick, Awake;
    if inputs != [] {
      var n := |inputs| - 1;
      var front := inputs[..n];
      BalancesAreLatest(c, front);
      TicksAreCounted(c, front);
      NeverRaises(c, inputs);
      BalancesOfTick(c, After(c, front), inputs[n]);
      LastFetch(c, inputs);
      hide After, Fetches, FetchesLast;
    }
  }

  lemma LastFetch(c: Config, inputs: seq<Input>)
    requires inputs != []
    ensures var n := |inputs| - 1;
      if Fetches(c, inputs, n) then FetchesLast(c, inputs, n) && forall k: nat :: FetchesLast(c, inputs, k) ==> k == n
      else forall k: nat :: FetchesLast(c, inputs, k) <==> FetchesLast(c, inputs[..n], k)
  {
    hide After, Fetches;
    FetchesFront(c, inputs);
    var front := inputs[..|inputs| - 1];
    if !Fetches(c, inputs, |front|) {
      forall k: nat
        ensures FetchesLast(c, inputs, k) <==> FetchesLast(c, front, k)
      {
        forall j: nat | j < |front|
          ensures Fetches(c, inputs, j) == Fetches(c, front, j)
        {
        }
      }
    }
  }

  lemma FetchesFront(c: Config, inputs: seq<Input>)
    requires inputs != []
    ensures forall k: nat :: k < |inputs| - 1 ==> Fetches(c, inputs, k) == Fetches(c, inputs[..|inputs| - 1], k)
  {
    hide After, Awake;
    var front := inputs[..|inputs| - 1];
    forall k: nat | k < |front|
      ensures Fetches(c, inputs, k) == Fetches(c, front, k)
    {
      assert front[..k] == inputs[..k] && front[k] == inputs[k];
    }
  }

  /** The highest mid of the ticks that were awake; 0 before one. */
  ghost predicate IsHighest(c: Config, inputs: seq<Input>, peak: real) {
    && 0.0 <= peak
    && (forall k: nat :: AwakeAt(c, inputs, k) ==> inputs[k].mid <= peak)
    && (peak == 0.0 || exists k: nat :: AwakeAt(c, inputs, k) && inputs[k].mid == peak)
  }

  ghost predicate AwakeAt(c: Config, inputs: seq<Input>, k: nat) {
    k < |inputs| && Awake(After(c, inputs[..k]), inputs[k])
  }

  lemma HighestWith(c: Config, inputs: seq<Input>, was: real)
    requires inputs != [] && IsHighest(c, inputs[..|inputs| - 1], was)
    ensures var n := |inputs| - 1;
      IsHighest(c, inputs, if AwakeAt(c, inputs, n) && was < inputs[n].mid then inputs[n].mid else was)
  {
    hide After, Awake;
    var n := |inputs| - 1;
    var front := inputs[..n];
    forall k: nat | k < n
      ensures AwakeAt(c, front, k) == AwakeAt(c, inputs, k) && front[k] == inputs[k]
    {
      assert front[..k] == inputs[..k];
    }
    if was != 0.0 {
      var k: nat :| AwakeAt(c, front, k) && front[k].mid == was;
      assert AwakeAt(c, inputs, k) && inputs[k].mid == was;
    }
  }

  lemma PeakOfTick(c: Config, b: Bot, i: Input)
    requires Tick(c, b, i).Ran?
    ensures Tick(c, b, i).bot.risk.peak == if Awake(b, i) && b.risk.peak < i.mid then i.mid else b.risk.peak
  {
    hide RefPricing.Update, RefPricing.Expire, OwnPrices, OverPosition, Drop, Unblocked, Cooled, Shown, Refreshed;
  }

  /** After any run the peak that crashes are measured from is the highest mid of an awake tick. */
  lemma {:induction false} PeakIsHighest(c: Config, inputs: seq<Input>)
    ensures IsHighest(c, inputs, After(c, inputs).risk.peak)
  {
    hide Tick, Awake;
    if inputs != [] {
      var n := |inputs| - 1;
      var front := inputs[..n];
      PeakIsHighest(c, front);
      NeverRaises(c, inputs);
      PeakOfTick(c, After(c, front), inputs[n]);
      hide After;
      HighestWith(c, inputs, After(c, front).risk.peak);
    }
  }

  // The evaluation of an awake tick.
  lemma RiskOfTick(c: Config, b: Bot, i: Input)
    requires Reachable(b.machine.state) && Awake(b, i)
    ensures var e := EvaluationOf(c, Counted(b), i);
      Tick(c, b, i).bot.risk == Evaluated(c.limits, b.risk, e) && Tick(c, b, i).bot.balances == e.balances
  {
    BreachStops(c, b, i);
    hide RefPricing.Update, RefPricing.Expire, OwnPrices, Evaluated, Unblocked, Shown, Refreshed, Breach;
  }

  lemma BreachOfTick(c: Config, b: Bot, i: Input)
    requires Reachable(b.machine.state) && Awake(b, i)
    ensures var t := Tick(c, b, i).bot;
      && (t.machine.state == Emergency <==> t.risk.halted)
      && (t.risk.halted <==> BreaksLimit(c.limits, t.balances, i.orders, i.mid, t.risk.peak))
  {
    BreachStops(c, b, i);
    RiskOfTick(c, b, i);
    HaltsOnBreach(c, b, i);
    hide Tick, Evaluated, Refreshed, BreaksLimit, Breach;
    EvaluationHalts(c.limits, b.risk, EvaluationOf(c, Counted(b), i));
  }

  /** An awake tick of a run ends in EMERGENCY if and only if the base currency held and the open rest of the buy
      orders are worth more than the limit, or the open orders reach theirs, or the mid lies the threshold below
      the highest one so far. What is held is known from the last tick that fetched balances. */
  lemma EmergencyMeans(c: Config, inputs: seq<Input>)
    requires inputs != [] && Awake(After(c, inputs[..|inputs| - 1]), inputs[|inputs| - 1])
    ensures var s, i := After(c, inputs), inputs[|inputs| - 1];
      s.machine.state == Emergency <==> BreaksLimit(c.limits, s.balances, i.orders, i.mid, s.risk.peak)
  {
    NeverRaises(c, inputs[..|inputs| - 1]);
    hide Tick, Awake, BreaksLimit;
    BreachOfTick(c, After(c, inputs[..|inputs| - 1]), inputs[|inputs| - 1]);
  }

  /** The base currency of some balances is worth more than the limit. */
  ghost predicate HoldsTooMuch(l: Limits, balances: seq<Balance>, mid: real) {
    Held(balances, l.base) * mid > l.maxPosition
  }

  /** A tick that fetches balances worth more than the limit ends in EMERGENCY, whatever else it finds. */
  lemma FetchedPositionStops(c: Config, inputs: seq<Input>)
    requires inputs != [] && Fetches(c, inputs, |inputs| - 1)
    requires HoldsTooMuch(c.limits, inputs[|inputs| - 1].fetched.value, inputs[|inputs| - 1].mid)
    ensures After(c, inputs).machine.state == Emergency
  {
    var n := |inputs| - 1;
    var i := inputs[n];
    EmergencyMeans(c, inputs);
    BalancesAreLatest(c, inputs);
    assert FetchesLast(c, inputs, n);
    hide After, BreaksLimit, FetchesLast, HoldsTooMuch;
    assert 0.0 < i.mid;
    HeldBreaks(c.limits, i.fetched.value, i.orders, i.mid, After(c, inputs).risk.peak);
  }

  lemma HeldBreaks(l: Limits, balances: seq<Balance>, orders: seq<Order>, mid: real, peak: real)
    requires 0.0 < mid && HoldsTooMuch(l, balances, mid)
    ensures BreaksLimit(l, balances, orders, mid, peak)
  {
    PendingAdds([], orders, Order("", "", Buy, 0.0, 0.0, 0.0, ""));
    hide Held, PendingBuys;
    var held, pending := Held(balances, l.base), PendingBuys(orders);
    assert (held + pending) * mid == held * mid + pending * mid;
  }

  // ── What the bot prices from ──

  /** Some open order of the side is at the price. */
  ghost predicate IsOwn(orders: seq<Order>, side: Side, price: real) {
    exists o :: o in orders && o.side == side && o.price == price
  }

  /** An awake tick takes its reference halfway between the best bid and the best ask, or from one of them if the
      other is not there or is the price of an own open order on its side; with neither it keeps the old one. */
  lemma ReferenceOfTick(c: Config, b: Bot, i: Input)
    requires Awake(b, i)
    ensures var ref := Tick(c, b, i).bot.ref;
      var bid, ask := 0.0 < i.bestBid && !IsOwn(i.orders, Buy, i.bestBid),
                      0.0 < i.bestAsk && !IsOwn(i.orders, Sell, i.bestAsk);
      && (bid && ask ==> ref.ref - i.bestBid == i.bestAsk - ref.ref)
      && (bid && !ask ==> ref.ref == i.bestBid) && (!bid && ask ==> ref.ref == i.bestAsk)
      && (!bid && !ask ==> ref.ref == b.ref.ref)
      && ref.mids == b.ref.mids + if bid || ask then [Windows.Stamped(ref.ref, i.clock.spike)] else []
  {
    RefPricing.ReferenceMeans(c.ref, b.ref, i.bestBid, i.bestAsk, OwnPrices(i.orders, Buy), OwnPrices(i.orders, Sell),
                              i.clock.spike, i.clock.twap);
    OwnPricesMean(i.orders, Buy, i.bestBid);
    OwnPricesMean(i.orders, Sell, i.bestAsk);
    RefOfTick(c, b, i);
    hide Tick, RefPricing.Update, OwnPrices, IsOwn;
  }

  lemma OwnPricesMean(orders: seq<Order>, side: Side, price: real)
    ensures price in OwnPrices(orders, side) <==> IsOwn(orders, side, price)
  {
  }

  lemma RefOfTick(c: Config, b: Bot, i: Input)
    requires Awake(b, i)
    ensures var t := RefPricing.Update(c.ref, b.ref, i.bestBid, i.bestAsk, OwnPrices(i.orders, Buy),
                                       OwnPrices(i.orders, Sell), i.clock.spike, i.clock.twap);
      Tick(c, b, i).bot.ref.ref == t.ref && Tick(c, b, i).bot.ref.mids == t.mids
  {
    hide RefPricing.Update, OwnPrices, Evaluated, Unblocked, Cooled, Shown, Refreshed;
    ShownRef(Priced(c, b, i).ref, i.strategies);
  }

  lemma {:induction false} ShownRef(ref: RefPricing.RefState, ss: seq<Strategy>)
    ensures Shown(ref, ss).ref == ref.ref && Shown(ref, ss).mids == ref.mids
  {
    if ss != [] {
      ShownRef(ref, ss[..|ss| - 1]);
    }
  }
}

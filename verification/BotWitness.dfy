// bot.py, strategy/accum.py: runs of a bot with its default settings.

module BotWitnesses {
  import opened Types
  import opened Lifecycle
  import opened Cooldowns
  import opened Risks
  import opened Rounding
  import opened BotSteps
  import opened BotRuns
  import opened BotOrders
  import Ladders
  import RefPricing
  import Windows

  const DEFAULTS := Config(RefPricing.Config(50.0, 10.0, 30.0), Limits(100.0, 10, 0.05, 30000, "BTC"), false, true)

  /** The default ladder below a reference price of 100, with a size as in the start script. */
  const LADDER := [
    Rung(99.95), Rung(99.85), Rung(99.75), Rung(99.65), Rung(99.55)]

  function Rung(price: real): OrderRequest {
    OrderRequest("BTC_USDT", Buy, price, 0.001, "")
  }

  const NAMES := "abcde"

  /** The orders of a ladder, as tracked once confirmed. */
  function Tracked(tick: string): seq<Order> {
    seq(5, k requires 0 <= k < 5 => Order([NAMES[k]] + tick, "BTC_USDT", Buy, LADDER[k].price, 0.001, 0.0, ""))
  }

  function QuietTick(orders: seq<Order>, t: real): Input {
    Input(100.0, 100.0, 100.0, orders, false, None, [Strategy(true, LADDER, t)], NoTimers,
          Readings(t, t, t, t, t, t, t, t, t, t, t))
  }

  const THREE_TICKS := [
    QuietTick([], 1.0), QuietTick(Tracked("1"), 2.0), QuietTick(Tracked("1") + Tracked("2"), 3.0)]

  // A bot that has only ever seen a mid of 100.
  ghost predicate Calm(b: Bot) {
    && b.machine.state == Running && !b.ref.spikeActive && b.risk.peak in {0.0, 100.0} && b.balances == []
    && forall e :: e in b.ref.mids ==> e.item == 100.0
  }

  lemma CalmPriced(b: Bot, orders: seq<Order>, t: real)
    requires Calm(b) && 100.0 !in OwnPrices(orders, Buy) && 100.0 !in OwnPrices(orders, Sell)
    ensures var ref := Priced(DEFAULTS, b, QuietTick(orders, t)).ref;
      !ref.spikeActive && forall e :: e in ref.mids ==> e.item == 100.0
  {
    hide OwnPrices;
    Windows.InWindowMembers(b.ref.mids + [Windows.Stamped(100.0, t)], t - 10.0);
  }

  lemma {:induction false} SmallBuys(orders: seq<Order>)
    requires forall o :: o in orders ==> o.side == Buy && o.size == 0.001 && o.filledSize == 0.0
    ensures PendingBuys(orders) == 0.001 * |orders| as real
  {
    if orders != [] {
      SmallBuys(orders[..|orders| - 1]);
    }
  }

  /** Orders like those of the ladders. */
  ghost predicate LadderOrders(orders: seq<Order>) {
    forall o :: o in orders ==> o.side == Buy && o.size == 0.001 && o.filledSize == 0.0 && o.price < 100.0
  }

  lemma CalmBreaksNothing(b: Bot, orders: seq<Order>, t: real)
    requires Calm(b) && |orders| <= 10 && LadderOrders(orders)
    ensures !BreaksOther(DEFAULTS, b, QuietTick(orders, t))
  {
    SmallBuys(orders);
    assert Held([], "BTC") == 0.0;
    assert Drop(100.0, 100.0) == 0.0;
    hide PendingBuys, Held, Drop;
  }

  // A quiet tick with room for a ladder leaves such a bot.
  lemma CalmTick(b: Bot, orders: seq<Order>, t: real)
    requires Calm(b) && |orders| < 10 && LadderOrders(orders) && 0.0 < t
    ensures ClearTick(DEFAULTS, b, QuietTick(orders, t)) && !BreaksOther(DEFAULTS, b, QuietTick(orders, t))
    ensures Calm(Tick(DEFAULTS, b, QuietTick(orders, t)).bot)
    ensures SubmittedIn(DEFAULTS, b, QuietTick(orders, t)) == LADDER
  {
    var i := QuietTick(orders, t);
    CalmPriced(b, orders, t);
    CalmBreaksNothing(b, orders, t);
    OneStrategy(t);
    CalmFields(b, orders, t);
    hide Priced, BreaksOther, Tick, AllDesired, SubmittedIn, LADDER;
    ClearTickDecides(DEFAULTS, b, i);
  }

  lemma OneStrategy(t: real)
    ensures AllDesired([Strategy(true, LADDER, t)]) == LADDER
  {
    assert [Strategy(true, LADDER, t)][..0] == [];
  }

  lemma CalmFields(b: Bot, orders: seq<Order>, t: real)
    requires Calm(b) && |orders| < 10 && LadderOrders(orders)
    ensures var b' := Tick(DEFAULTS, b, QuietTick(orders, t)).bot;
      && !b'.ref.spikeActive && b'.risk.peak == 100.0 && b'.balances == []
      && forall e :: e in b'.ref.mids ==> e.item == 100.0
  {
    var i := QuietTick(orders, t);
    CalmPriced(b, orders, t);
    CalmBreaksNothing(b, orders, t);
    BreachIsCount(DEFAULTS, b, i);
    var ref := Priced(DEFAULTS, b, i).ref;
    ShownKeeps(ref, i.strategies);
    ShownMids(ref, i.strategies);
    hide Priced, Tick, BreachTick, BreaksOther, Shown, OverPosition, Crashed;
    CalmTickKeeps(DEFAULTS, b, i);
  }

  lemma TrackedIsLadder(tick: string)
    ensures LadderOrders(Tracked(tick)) && |Tracked(tick)| == 5
  {
    assert LADDER[0].price < 100.0 && LADDER[1].price < 100.0 && LADDER[2].price < 100.0;
    assert LADDER[3].price < 100.0 && LADDER[4].price < 100.0;
  }

  // The bot before each of the three ticks.
  lemma CalmBots() returns (b: Bot, b': Bot)
    ensures b == After(DEFAULTS, THREE_TICKS[..1]) && b' == After(DEFAULTS, THREE_TICKS[..2])
    ensures Calm(Started) && Calm(b) && Calm(b')
    ensures SubmittedIn(DEFAULTS, Started, THREE_TICKS[0]) == SubmittedIn(DEFAULTS, b, THREE_TICKS[1]) == LADDER
    ensures ClearTick(DEFAULTS, Started, THREE_TICKS[0]) && !BreaksOther(DEFAULTS, Started, THREE_TICKS[0])
    ensures ClearTick(DEFAULTS, b, THREE_TICKS[1]) && !BreaksOther(DEFAULTS, b, THREE_TICKS[1])
  {
    AfterTicks(DEFAULTS, THREE_TICKS);
    TrackedIsLadder("1");
    hide Tick, ClearTick, BreaksOther, After, SubmittedIn, Tracked, LadderOrders;
    b := Tick(DEFAULTS, Started, THREE_TICKS[0]).bot;
    b' := Tick(DEFAULTS, b, THREE_TICKS[1]).bot;
    assert LadderOrders([]) by { NoOrders(); }
    CalmTick(Started, [], 1.0);
    CalmTick(b, Tracked("1"), 2.0);
  }

  lemma NoOrders()
    ensures LadderOrders([])
  {
  }

  lemma LastTick(b: Bot)
    requires Calm(b)
    ensures ClearTick(DEFAULTS, b, THREE_TICKS[2]) && !BreaksOther(DEFAULTS, b, THREE_TICKS[2])
  {
    TrackedIsLadder("1");
    TrackedIsLadder("2");
    var orders := Tracked("1") + Tracked("2");
    hide Tracked, Priced, BreaksOther;
    CalmPriced(b, orders, 3.0);
    CalmBreaksNothing(b, orders, 3.0);
  }

  lemma ThreeAreClear(c: Config, inputs: seq<Input>)
    requires |inputs| == 3
    requires forall k: nat :: k < 3 ==>
      ClearTick(c, After(c, inputs[..k]), inputs[k]) && !BreaksOther(c, After(c, inputs[..k]), inputs[k])
    ensures AllClear(c, inputs) && OnlyOrdersMatter(c, inputs)
  {
    hide After, ClearTick, BreaksOther;
  }

  lemma ThreeAreConfirmed(c: Config, inputs: seq<Input>)
    requires |inputs| == 3
    requires |inputs[1].orders| == |inputs[0].orders| + |SubmittedIn(c, After(c, inputs[..0]), inputs[0])|
    requires |inputs[2].orders| == |inputs[1].orders| + |SubmittedIn(c, After(c, inputs[..1]), inputs[1])|
    ensures Confirmed(c, inputs)
  {
    hide After, SubmittedIn;
    forall k | 0 < k < 3
      ensures |inputs[k].orders| == |inputs[k - 1].orders| + |SubmittedIn(c, After(c, inputs[..k - 1]), inputs[k - 1])|
    {
      assert k == 1 || k == 2;
    }
  }

  lemma FiveWishes()
    ensures forall k :: 0 <= k < 3 ==> |AllDesired(THREE_TICKS[k].strategies)| == 5
    ensures |THREE_TICKS[0].orders| == 0 && |THREE_TICKS[1].orders| == 5 && |THREE_TICKS[2].orders| == 10
  {
    hide AllDesired;
    OneStrategy(1.0);
    OneStrategy(2.0);
    OneStrategy(3.0);
    forall k | 0 <= k < 3
      ensures |AllDesired(THREE_TICKS[k].strategies)| == 5
    {
      assert k == 0 || k == 1 || k == 2;
    }
  }

  lemma ThreeHold(b: Bot, b': Bot)
    requires b == After(DEFAULTS, THREE_TICKS[..1]) && b' == After(DEFAULTS, THREE_TICKS[..2])
    requires SubmittedIn(DEFAULTS, Started, THREE_TICKS[0]) == SubmittedIn(DEFAULTS, b, THREE_TICKS[1]) == LADDER
    requires ClearTick(DEFAULTS, Started, THREE_TICKS[0]) && !BreaksOther(DEFAULTS, Started, THREE_TICKS[0])
    requires ClearTick(DEFAULTS, b, THREE_TICKS[1]) && !BreaksOther(DEFAULTS, b, THREE_TICKS[1])
    requires ClearTick(DEFAULTS, b', THREE_TICKS[2]) && !BreaksOther(DEFAULTS, b', THREE_TICKS[2])
    ensures Confirmed(DEFAULTS, THREE_TICKS) && AllClear(DEFAULTS, THREE_TICKS)
            && OnlyOrdersMatter(DEFAULTS, THREE_TICKS)
  {
    FiveWishes();
    AfterTicks(DEFAULTS, THREE_TICKS);
    hide After, ClearTick, BreaksOther, SubmittedIn, Tracked, AllDesired, Tick, QuietTick;
    forall k: nat | k < 3
      ensures ClearTick(DEFAULTS, After(DEFAULTS, THREE_TICKS[..k]), THREE_TICKS[k])
      ensures !BreaksOther(DEFAULTS, After(DEFAULTS, THREE_TICKS[..k]), THREE_TICKS[k])
    {
      assert k == 0 || k == 1 || k == 2;
    }
    ThreeAreClear(DEFAULTS, THREE_TICKS);
    ThreeAreConfirmed(DEFAULTS, THREE_TICKS);
  }

  /** With five rungs and a limit of ten, the second tick still places a ladder and the third halts the bot. */
  lemma ThirdTickHalts()
    ensures Confirmed(DEFAULTS, THREE_TICKS) && AllClear(DEFAULTS, THREE_TICKS)
            && OnlyOrdersMatter(DEFAULTS, THREE_TICKS)
    ensures After(DEFAULTS, THREE_TICKS[..2]).machine.state == Running
    ensures After(DEFAULTS, THREE_TICKS).machine.state == Emergency
  {
    var b, b' := CalmBots();
    LastTick(b');
    FiveWishes();
    hide After, ClearTick, BreaksOther, SubmittedIn, Tracked, AllDesired;
    hide Tick, Confirmed, AllClear, OnlyOrdersMatter, QuietTick;
    ThreeHold(b, b');
    HaltsInTick(DEFAULTS, THREE_TICKS, 5);
  }

  lemma AfterTicks(c: Config, inputs: seq<Input>)
    requires |inputs| == 3
    ensures After(c, inputs[..0]) == Started
    ensures After(c, inputs[..1]) == Tick(c, Started, inputs[0]).bot
    ensures After(c, inputs[..2]) == Tick(c, Tick(c, Started, inputs[0]).bot, inputs[1]).bot
  {
    hide Tick;
    assert inputs[..0] == [];
    AfterNext(c, inputs, 0);
    AfterNext(c, inputs, 1);
  }

  // ── The ladder is the accumulator's ──

  const ACCUMULATOR := Ladders.Params(0.01, 5, 10, 5, 0.02, 0.01, true)

  lemma DefaultRung(k: nat)
    requires k < 5
    ensures Ladders.Rung(ACCUMULATOR, 99.95, k) == LADDER[k].price
  {
    assert WholeTick(0.01) by { assert 0.01 * SCALE_8 == 1000000 as real; }
    assert 99.95 / 0.01 == 9995.0;
    Ladders.RungTicks(ACCUMULATOR, 99.95, k);
    RoundWhole(9995 - k * 10);
    assert k == 0 || k == 1 || k == 2 || k == 3 || k == 4;
  }

  /** An accumulator with its default settings wants these orders at a reference price of 100. */
  lemma DefaultLadder()
    ensures Ladders.Desire(ACCUMULATOR, Ladders.Initial.(refPrice := 100.0)).1
      == [LADDER[0].price, LADDER[1].price, LADDER[2].price, LADDER[3].price, LADDER[4].price]
  {
    DefaultRung(0);
    DefaultRung(1);
    DefaultRung(2);
    DefaultRung(3);
    DefaultRung(4);
    hide Ladders.Rung;
    var p := ACCUMULATOR;
    assert Ladders.RungsUpTo(p, 99.95, 0) == [];
    assert Ladders.RungsUpTo(p, 99.95, 1) == [99.95];
    assert Ladders.RungsUpTo(p, 99.95, 2) == [99.95, 99.85];
    assert Ladders.RungsUpTo(p, 99.95, 3) == [99.95, 99.85, 99.75];
    assert Ladders.RungsUpTo(p, 99.95, 4) == [99.95, 99.85, 99.75, 99.65];
    assert Ladders.RungsUpTo(p, 99.95, 5) == [99.95, 99.85, 99.75, 99.65, 99.55];
    hide Ladders.RungsUpTo;
    assert OfTicks(5, 0.01) == 0.05;
    FiveLowest(99.95, 99.85, 99.75, 99.65, 99.55);
  }

  lemma LowestNext(prices: seq<real>, x: real)
    requires prices != [] && x < Ladders.Lowest(prices)
    ensures Ladders.Lowest(prices + [x]) == x
  {
    assert (prices + [x])[..|prices|] == prices;
  }

  lemma FiveLowest(a: real, b: real, c: real, d: real, e: real)
    requires a > b > c > d > e
    ensures Ladders.Lowest([a, b, c, d, e]) == e
  {
    assert Ladders.Lowest([a]) == a;
    LowestNext([a], b);
    LowestNext([a] + [b], c);
    LowestNext([a] + [b] + [c], d);
    LowestNext([a] + [b] + [c] + [d], e);
    assert [a] + [b] + [c] + [d] + [e] == [a, b, c, d, e];
  }

  // ── A spike ──

  function At(mid: real, early: real, late: real, wanted: seq<OrderRequest>): Input {
    Input(mid, mid, mid, [], false, None, [Strategy(true, wanted, late)], NoTimers,
          Readings(early, early, early, early, early, early, late, late, late, late, late))
  }

  /** The mid jumps by one percent, and half a minute later the strategy wants to buy. */
  const SPIKE_RUN := [
    At(100.0, 1.0, 1.0, []), At(101.0, 2.0, 2.0, []), At(101.0, 31.9985, 31.999, [Rung(100.95)])]

  lemma NothingBreaks(b: Bot, i: Input)
    requires b.balances == [] && i.orders == [] && i.fetched == None && i.mid in {100.0, 101.0, 103.0}
    requires 0.0 <= b.risk.peak <= i.mid
    ensures !BreachTick(DEFAULTS, b, i)
  {
    assert Exposure(DEFAULTS.limits, [], [], i.mid) == 0.0;
    assert Drop(100.0, 100.0) == 0.0 && Drop(101.0, 101.0) == 0.0 && Drop(103.0, 103.0) == 0.0;
    hide Exposure, Drop, Idles;
  }

  // After the first tick the mid of 100 is on record.
  lemma FirstMid()
    ensures var b := Tick(DEFAULTS, Started, SPIKE_RUN[0]).bot;
      && b.machine.state == Running && !b.ref.spikeActive && b.ref.mids == [Windows.Stamped(100.0, 1.0)]
      && b.risk.peak == 100.0 && b.balances == []
  {
    var i := SPIKE_RUN[0];
    FirstMidIsCalm(DEFAULTS, i);
    NothingBreaks(Started, i);
    var ref := Priced(DEFAULTS, Started, i).ref;
    ShownKeeps(ref, i.strategies);
    MidsOfTick(DEFAULTS, Started, i);
    assert SeenMid(i) == 100.0;
    hide Priced, Tick, BreachTick, Shown, SeenMid;
    CalmTickKeeps(DEFAULTS, Started, i);
    ClearTickPlaces(DEFAULTS, Started, i);
    hide OverPosition, Crashed;
  }

  lemma SpikeSeen(b: Bot)
    requires !b.ref.spikeActive && b.ref.mids == [Windows.Stamped(100.0, 1.0)]
    ensures Protected(Priced(DEFAULTS, b, SPIKE_RUN[1]).ref, 32.0)
  {
    var i := SPIKE_RUN[1];
    assert SeenMid(i) == 101.0;
    Windows.AllInWindow(b.ref.mids, 2.0 - 10.0);
    assert SeesSpike(DEFAULTS, b, i);
    hide SeesSpike, Priced, SeenMid;
    SpikeProtects(DEFAULTS, b, i);
  }

  // The second tick sees the spike: protection and cooldown until 32.
  lemma SpikeTick(b: Bot)
    requires b.machine.state == Running && !b.ref.spikeActive && b.ref.mids == [Windows.Stamped(100.0, 1.0)]
    requires b.risk.peak == 100.0 && b.balances == []
    ensures var b' := Tick(DEFAULTS, b, SPIKE_RUN[1]).bot;
      && b'.machine.state == CooldownPriceSpike && b'.machine.until == 32.0 && Protected(b'.ref, 32.0)
      && b'.risk.peak == 101.0 && b'.balances == []
      && b'.ref.mids == [Windows.Stamped(100.0, 1.0), Windows.Stamped(101.0, 2.0)]
  {
    var i := SPIKE_RUN[1];
    MidsOfTick(DEFAULTS, b, i);
    assert SeenMid(i) == 101.0;
    SpikeSeen(b);
    NothingBreaks(b, i);
    SpikeEntered(Priced(DEFAULTS, b, i), i);
    assert WholeMs(30.0) == 30000;
    ShownProtects(Priced(DEFAULTS, b, i).ref, i.strategies, 32.0);
    GateOfCooldown(Guarded(Priced(DEFAULTS, b, i), i).value, 2.0);
    ClearedActs(DEFAULTS, b, i);
    hide Tick, BreachTick, RefPricing.Update, RefPricing.Expire, Shown, OverPosition, Crashed, CanPlace, FirstDesired;
  }

  // The bot that has seen the spike.
  lemma SpikedBot() returns (b: Bot)
    ensures b == After(DEFAULTS, SPIKE_RUN[..2])
    ensures b.machine.state == CooldownPriceSpike && b.machine.until == 32.0 && Protected(b.ref, 32.0)
    ensures b.risk.peak == 101.0 && b.balances == []
    ensures b.ref.mids == [Windows.Stamped(100.0, 1.0), Windows.Stamped(101.0, 2.0)]
  {
    AfterTicks(DEFAULTS, SPIKE_RUN);
    FirstMid();
    hide After, Tick;
    b := After(DEFAULTS, SPIKE_RUN[..2]);
    SpikeTick(Tick(DEFAULTS, Started, SPIKE_RUN[0]).bot);
  }

  lemma OneWanted()
    ensures AllDesired(SPIKE_RUN[2].strategies) == [Rung(100.95)]
  {
    assert SPIKE_RUN[2].strategies[..0] == [];
  }

  lemma SpikeRunIsTimely()
    ensures Timely(SPIKE_RUN)
  {
  }

  /** A ladder that is submitted one millisecond before the protection ends, in a run from the start. */
  lemma LadderUnderProtection()
    ensures Timely(SPIKE_RUN)
    ensures var b, i := After(DEFAULTS, SPIKE_RUN[..2]), SPIKE_RUN[2];
      && Priced(DEFAULTS, b, i).ref.spikeActive && Priced(DEFAULTS, b, i).ref.spikeUntil == i.clock.resume + 0.001
      && Tick(DEFAULTS, b, i).Ran? && Tick(DEFAULTS, b, i).kind == Ladder
      && Tick(DEFAULTS, b, i).submitted == [Rung(100.95)]
  {
    var i := SPIKE_RUN[2];
    SpikeRunIsTimely();
    OneWanted();
    hide Tick, BreachTick, Priced, After, AllDesired, Rung, Timely;
    var b := SpikedBot();
    NothingBreaks(b, i);
    PricedProtects(DEFAULTS, b, i, 32.0);
    LadderEndsEarly(DEFAULTS, b, i, 0.001);
  }

  // ── A spike while the flag of an earlier one is set ──

  /** The first spike at 2 protects until 32; a second one comes at 33, before anything has read the flag since. */
  const SECOND_SPIKE := SPIKE_RUN[..2] + [At(101.0, 25.0, 25.0, []), At(103.0, 33.0, 33.0, [Rung(102.95)])]

  // The third tick is cooling down and protected until 32.
  lemma CoolingTick(b: Bot)
    requires b.machine.state == CooldownPriceSpike && b.machine.until == 32.0 && Protected(b.ref, 32.0)
    requires b.risk.peak == 101.0 && b.balances == []
    ensures var i := At(101.0, 25.0, 25.0, []);
      var b' := Tick(DEFAULTS, b, i).bot;
      && b'.machine.state == CooldownPriceSpike && b'.machine.until == 32.0 && Protected(b'.ref, 32.0)
      && b'.risk.peak == 101.0 && b'.balances == [] && b'.ref.mids == b.ref.mids + [Windows.Stamped(101.0, 25.0)]
  {
    var i := At(101.0, 25.0, 25.0, []);
    MidsOfTick(DEFAULTS, b, i);
    assert SeenMid(i) == 101.0;
    PricedProtects(DEFAULTS, b, i, 32.0);
    NothingBreaks(b, i);
    SpikeEntered(Priced(DEFAULTS, b, i), i);
    assert WholeMs(7.0) == 7000;
    ShownProtects(Priced(DEFAULTS, b, i).ref, i.strategies, 32.0);
    GateOfCooldown(Guarded(Priced(DEFAULTS, b, i), i).value, 25.0);
    ClearedActs(DEFAULTS, b, i);
    hide Tick, BreachTick, RefPricing.Update, RefPricing.Expire, Shown, OverPosition, Crashed, CanPlace, FirstDesired;
  }

  // The bot before the second spike: cooled down, with the flag still set.
  lemma LapsedBot() returns (b: Bot)
    ensures b == After(DEFAULTS, SECOND_SPIKE[..3])
    ensures b.machine.state == CooldownPriceSpike && b.machine.until == 32.0 && Protected(b.ref, 32.0)
    ensures b.risk.peak == 101.0 && b.balances == []
    ensures b.ref.mids == [Windows.Stamped(100.0, 1.0), Windows.Stamped(101.0, 2.0), Windows.Stamped(101.0, 25.0)]
  {
    var b' := SpikedBot();
    CoolingTick(b');
    SecondSpikeStarts();
    hide *;
    AfterNext(DEFAULTS, SECOND_SPIKE, 2);
    b := After(DEFAULTS, SECOND_SPIKE[..3]);
  }

  lemma SecondSpikeStarts()
    ensures |SECOND_SPIKE| == 4 && SECOND_SPIKE[..2] == SPIKE_RUN[..2] && SECOND_SPIKE[2] == At(101.0, 25.0, 25.0, [])
  {
    hide At;
  }

  lemma YoungMids(mids: seq<Windows.Stamped<real>>)
    requires mids == [Windows.Stamped(100.0, 1.0), Windows.Stamped(101.0, 2.0), Windows.Stamped(101.0, 25.0)]
    ensures Windows.InWindow(mids, 23.0) == [Windows.Stamped(101.0, 25.0)]
  {
    var early, young := [Windows.Stamped(100.0, 1.0), Windows.Stamped(101.0, 2.0)], [Windows.Stamped(101.0, 25.0)];
    Windows.InWindowConcat(early, young, 23.0);
    Windows.InWindowMembers(early, 23.0);
    Windows.AllInWindow(young, 23.0);
    hide Windows.InWindow;
    assert Windows.InWindow(early, 23.0) == [];
    assert mids == early + young;
  }

  lemma SecondSpikeSeen(b: Bot)
    requires b.ref.mids == [Windows.Stamped(100.0, 1.0), Windows.Stamped(101.0, 2.0), Windows.Stamped(101.0, 25.0)]
    ensures SeesSpike(DEFAULTS, b, SECOND_SPIKE[3]) && RefPricing.Before(b.ref.mids, 33.0)
  {
    assert SeenMid(SECOND_SPIKE[3]) == 103.0;
    hide SeenMid, Windows.InWindow;
    YoungMids(b.ref.mids);
    assert RefPricing.ChangeBps(103.0, 101.0) >= 50.0;
    hide RefPricing.ChangeBps;
  }

  lemma SecondSpikeIsTimely()
    ensures Timely(SECOND_SPIKE)
  {
  }

  lemma SecondWish()
    ensures AllDesired(SECOND_SPIKE[3].strategies) == [Rung(102.95)]
  {
    assert SECOND_SPIKE[3].strategies[..0] == [];
  }

  /** A tick that sees a spike of two percent, finds an expired protection still flagged, and submits its
      ladder at once. */
  lemma SpikeUnseen()
    ensures Timely(SECOND_SPIKE)
    ensures var b, i := After(DEFAULTS, SECOND_SPIKE[..3]), SECOND_SPIKE[3];
      && !Idles(b, i) && SeesSpike(DEFAULTS, b, i) && b.ref.spikeActive
      && Tick(DEFAULTS, b, i).Ran? && Tick(DEFAULTS, b, i).kind == Ladder
      && Tick(DEFAULTS, b, i).submitted == [Rung(102.95)]
  {
    var i := SECOND_SPIKE[3];
    SecondSpikeIsTimely();
    SecondWish();
    hide Tick, BreachTick, Priced, After, AllDesired, Rung, Timely, SeesSpike, RefPricing.Before;
    var b := LapsedBot();
    NothingBreaks(b, i);
    SecondSpikeSeen(b);
    SpikeUnprotected(DEFAULTS, b, i);
  }
}

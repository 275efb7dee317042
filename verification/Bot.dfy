// bot.py: the control loop.
//
// BotSteps is the step relation of one tick, and what a tick guarantees; Bots is the orchestrator that
// drives the components. What every run of ticks guarantees is in BotRuns.dfy.

module BotSteps {
  import opened Types
  import opened Lifecycle
  import opened Cooldowns
  import opened Risks
  import opened Rounding
  import RefPricing
  import Windows

  const BALANCE_REFRESH_INTERVAL := 10

  datatype Config = Config(ref: RefPricing.Config, limits: Limits, dryRun: bool, hasClient: bool)

  /** A strategy during one tick: whether it is active, what it desires, and when it was shown the
      spike flag. */
  datatype Strategy = Strategy(active: bool, desired: seq<OrderRequest>, shown: real)

  /** The clock, in the order in which a tick reads it. */
  datatype Readings = Readings(
    spike: real, twap: real, query: real, remaining: real, entered: real, judged: real,
    resume: real, gate: real, price: real, fill: real, compliance: real)

  /** What a tick finds: the market, the own orders before and after placing, the balances that the
      exchange reports if asked, the strategies, the timers, and the clock. */
  datatype Input = Input(
    mid: real, bestBid: real, bestAsk: real, orders: seq<Order>, quoted: bool, fetched: Option<seq<Balance>>,
    strategies: seq<Strategy>, timers: Timers, clock: Readings)

  datatype Bot = Bot(machine: Machine, ref: RefPricing.RefState, risk: Risk, ticks: nat, balances: seq<Balance>)

  datatype Kind = Nothing | Compliance | Ladder

  /** Raised stands for an IllegalTransition that leaves the tick. */
  datatype Outcome = Ran(bot: Bot, kind: Kind, submitted: seq<OrderRequest>) | Raised(bot: Bot)

  /** A bot whose run has just started. */
  const Started := Bot(Machine(Running, None, 0.0), RefPricing.InitialRef, InitialRisk, 0, [])

  function OwnPrices(orders: seq<Order>, side: Side): set<real> {
    set o | o in orders && o.side == side :: o.price
  }

  function Counted(b: Bot): Bot {
    b.(ticks := b.ticks + 1)
  }

  /** After the price update and the first look at the spike flag. */
  function Priced(c: Config, b: Bot, i: Input): Bot {
    var ref := RefPricing.Update(c.ref, b.ref, i.bestBid, i.bestAsk,
                                 OwnPrices(i.orders, Buy), OwnPrices(i.orders, Sell), i.clock.spike, i.clock.twap);
    b.(ref := RefPricing.Expire(ref, i.clock.query))
  }

  /** The machine after spike protection; None when its cooldown may not start. */
  function Guarded(priced: Bot, i: Input): Option<Machine> {
    if priced.ref.spikeActive then
      Cooled(priced.machine, CooldownPriceSpike, RefPricing.SpikeRemainingMs(priced.ref, i.clock.remaining),
        i.clock.entered)
    else Some(priced.machine)
  }

  function Refreshed(c: Config, b: Bot, i: Input): seq<Balance> {
    if b.ticks % BALANCE_REFRESH_INTERVAL == 0 && !c.dryRun && c.hasClient && i.fetched.Some? then i.fetched.value
    else b.balances
  }

  function EvaluationOf(c: Config, b: Bot, i: Input): Evaluation {
    Evaluation(i.orders, Refreshed(c, b, i), i.mid, i.clock.judged)
  }

  /** Showing the spike flag to the active strategies may end an expired protection. */
  function Shown(ref: RefPricing.RefState, ss: seq<Strategy>): RefPricing.RefState {
    if ss == [] then ref
    else
      var r := Shown(ref, ss[..|ss| - 1]);
      if ss[|ss| - 1].active then RefPricing.Expire(r, ss[|ss| - 1].shown) else r
  }

  function AllDesired(ss: seq<Strategy>): seq<OrderRequest> {
    if ss == [] then []
    else AllDesired(ss[..|ss| - 1]) + if ss[|ss| - 1].active then ss[|ss| - 1].desired else []
  }

  /** The first desired order of every active strategy. */
  function FirstDesired(ss: seq<Strategy>): seq<OrderRequest> {
    if ss == [] then []
    else
      var s := ss[|ss| - 1];
      FirstDesired(ss[..|ss| - 1]) + if s.active && s.desired != [] then [s.desired[0]] else []
  }

  /** What is desired, all of it or first, adds up over the strategies in their order; only active ones count. */
  lemma {:induction false} DesiredAdds(a: seq<Strategy>, b: seq<Strategy>, s: Strategy)
    ensures AllDesired(a + b) == AllDesired(a) + AllDesired(b)
    ensures FirstDesired(a + b) == FirstDesired(a) + FirstDesired(b)
    ensures AllDesired([s]) == if s.active then s.desired else []
    ensures FirstDesired([s]) == if s.active && s.desired != [] then s.desired[..1] else []
  {
    assert [s][..0] == [];
    if b == [] {
      assert a + b == a;
    } else {
      var n := |b| - 1;
      assert (a + b)[..|a + b| - 1] == a + b[..n];
      DesiredAdds(a, b[..n], s);
    }
  }

  function Submitted(c: Config, orders: seq<OrderRequest>): seq<OrderRequest> {
    if c.dryRun then [] else orders
  }

  /** What happens instead of placing a ladder. */
  function Suppressed(c: Config, b: Bot, i: Input): Outcome {
    if DepthRequired(i.timers, i.clock.compliance) then Ran(b, Compliance, Submitted(c, FirstDesired(i.strategies)))
    else Ran(b, Nothing, [])
  }

  /** The last checks before placing, and the placing. */
  function Placed(c: Config, b: Bot, i: Input): Outcome {
    if !CanPlace(b.machine, i.clock.gate) then Ran(b, Nothing, [])
    else if !Unblocked(i.timers, i.clock.price, i.clock.fill) then Suppressed(c, b, i)
    else
      Ran(b.(machine := WithSub(b.machine, if i.quoted then Waiting else Placing)), Ladder,
          Submitted(c, AllDesired(i.strategies)))
  }

  /** Leaving a cooldown, or not. */
  function Acted(c: Config, b: Bot, i: Input): Outcome {
    if !IsCooldown(b.machine.state) then Placed(c, b, i)
    else if !CanPlace(b.machine, i.clock.resume) then Suppressed(c, b, i)
    else
      match Moved(b.machine, Running)
      case None => Raised(b)
      case Some(m) => Placed(c, b.(machine := m), i)
  }

  /** After the risk evaluation. */
  function Judged(c: Config, b: Bot, i: Input): Bot {
    var e := EvaluationOf(c, b, i);
    b.(balances := e.balances, risk := Evaluated(c.limits, b.risk, e))
  }

  /** A tick that gets as far as the risk evaluation. */
  function Decided(c: Config, judged: Bot, i: Input): Outcome {
    if judged.risk.halted then
      match Moved(judged.machine, Emergency)
      case None => Raised(judged)
      case Some(m) => Ran(judged.(machine := m), Nothing, [])
    else Acted(c, judged.(ref := Shown(judged.ref, i.strategies)), i)
  }

  predicate Idles(b: Bot, i: Input) {
    b.machine.state in {Emergency, Shutdown} || i.mid <= 0.0
  }

  function Tick(c: Config, b: Bot, i: Input): Outcome {
    if Idles(b, i) then Ran(Counted(b), Nothing, [])
    else
      var priced := Priced(c, Counted(b), i);
      match Guarded(priced, i)
      case None => Raised(priced)
      case Some(m) => Decided(c, Judged(c, priced.(machine := m), i), i)
  }

  /** The evaluation of this tick breaks a limit. */
  predicate BreachTick(c: Config, b: Bot, i: Input) {
    !Idles(b, i) && Breach(c.limits, b.risk.peak, EvaluationOf(c, Counted(b), i))
  }

  // ── One tick ──

  /** A tick raises exactly when a spike hits in a state that may not start its cooldown, or a halt
      hits in INIT. */
  lemma RaisesWhen(c: Config, b: Bot, i: Input)
    ensures Tick(c, b, i).Raised? <==>
      && !Idles(b, i)
      && ((Priced(c, b, i).ref.spikeActive && b.machine.state !in {Running, CooldownPriceSpike})
          || (b.machine.state == Init && BreachTick(c, b, i)))
  {
    hide RefPricing.Update, RefPricing.Expire, OwnPrices, Evaluated, RefPricing.SpikeRemainingMs, Breach, Unblocked;
    HaltsOnBreach(c, b, i);
    CooldownIsLegalWhen(b.machine, CooldownPriceSpike,
                        RefPricing.SpikeRemainingMs(Priced(c, b, i).ref, i.clock.remaining), i.clock.entered);
  }

  /** A spike while cooling down after a fill raises. */
  lemma SpikeDuringFillCooldown(c: Config, ref: RefPricing.RefState, i: Input)
    requires ref.spikeActive && i.clock.query < ref.spikeUntil && i.mid > 0.0
    ensures Tick(c, Bot(Machine(CooldownFill, None, i.clock.spike + 1.0), ref, InitialRisk, 0, []), i).Raised?
  {
    var b := Bot(Machine(CooldownFill, None, i.clock.spike + 1.0), ref, InitialRisk, 0, []);
    RaisesWhen(c, b, i);
    hide Tick, OwnPrices, RefPricing.TopMid, RefPricing.Spikes;
  }

  lemma HaltsOnBreach(c: Config, b: Bot, i: Input)
    ensures var e := EvaluationOf(c, Counted(b), i);
      Evaluated(c.limits, b.risk, e).halted <==> Breach(c.limits, b.risk.peak, e)
  {
    hide OverPosition, Crashed, Refreshed;
  }

  // Without a breach a tick goes on, from the guarded machine, to act.
  lemma ClearedActs(c: Config, b: Bot, i: Input)
    requires !Idles(b, i) && !BreachTick(c, b, i) && Guarded(Priced(c, Counted(b), i), i).Some?
    ensures Tick(c, b, i) == Acted(c, Cleared(c, b, i), i)
    ensures Guarded(Priced(c, b, i), i) == Some(Cleared(c, b, i).machine)
  {
    HaltsOnBreach(c, b, i);
    hide RefPricing.Update, RefPricing.Expire, OwnPrices, Cooled, Acted, Shown, Breach, Evaluated;
  }

  function Cleared(c: Config, b: Bot, i: Input): Bot
    requires Guarded(Priced(c, Counted(b), i), i).Some?
  {
    var priced := Priced(c, Counted(b), i);
    var judged := Judged(c, priced.(machine := Guarded(priced, i).value), i);
    judged.(ref := Shown(judged.ref, i.strategies))
  }

  /** The states that a started run is ever in. */
  predicate Reachable(s: BotState) {
    s in {Running, CooldownPriceSpike, Emergency}
  }

  /** A breach means EMERGENCY and no order; without one a tick never gets there. */
  lemma BreachStops(c: Config, b: Bot, i: Input)
    requires Reachable(b.machine.state)
    ensures var o := Tick(c, b, i);
      && o.Ran? && Reachable(o.bot.machine.state)
      && (BreachTick(c, b, i) ==> o.bot.machine.state == Emergency && o.kind == Nothing && o.submitted == [])
      && (b.machine.state == Emergency ==> o == Ran(Counted(b), Nothing, []))
      && (o.bot.machine.state == Emergency ==> b.machine.state == Emergency || BreachTick(c, b, i))
  {
    hide RefPricing.Update, RefPricing.Expire, OwnPrices, Evaluated, RefPricing.SpikeRemainingMs;
    hide Breach, Unblocked, RemainingMs;
    HaltsOnBreach(c, b, i);
  }

  /** The clock only moves forward, and reads as positive. */
  ghost predicate InOrder(r: Readings) {
    && 0.0 < r.spike <= r.twap <= r.query <= r.remaining <= r.entered <= r.judged
    && r.judged <= r.resume <= r.gate <= r.price <= r.fill <= r.compliance
  }

  /** The active strategies are shown the spike flag in turn, between two readings. */
  ghost predicate ShownBetween(ss: seq<Strategy>, from: real, to: real) {
    && (forall k :: 0 <= k < |ss| ==> from <= ss[k].shown <= to)
    && forall j, k :: 0 <= j < k < |ss| ==> ss[j].shown <= ss[k].shown
  }

  /** What holds when a tick submits a ladder: no limit is broken, both blocking timers have expired,
      less than 1 ms is left of a cooldown, and less than 2 ms of a spike protection. */
  ghost predicate LadderIsSafe(c: Config, b: Bot, i: Input) {
    && b.machine.state != Emergency && i.mid > 0.0 && !BreachTick(c, b, i)
    && i.timers.priceUntil <= i.clock.price && i.timers.fillUntil <= i.clock.fill
    && (b.machine.state == CooldownPriceSpike && 0.0 < b.machine.until && !Priced(c, b, i).ref.spikeActive ==>
          b.machine.until < i.clock.resume + 0.001)
    && (Priced(c, b, i).ref.spikeActive ==> Priced(c, b, i).ref.spikeUntil < i.clock.resume + 0.002)
  }

  /** A ladder is only submitted when that is safe, by a bot that is then running. */
  lemma LadderNeeds(c: Config, b: Bot, i: Input)
    requires Reachable(b.machine.state) && InOrder(i.clock) && Tick(c, b, i).Ran? && Tick(c, b, i).kind == Ladder
    ensures LadderIsSafe(c, b, i) && Tick(c, b, i).bot.machine.state == Running
  {
    BreachStops(c, b, i);
    hide RefPricing.Update, RefPricing.Expire, OwnPrices, Evaluated, RefPricing.SpikeRemainingMs, Breach, RemainingMs;
    var priced := Priced(c, b, i);
    var m := Guarded(priced, i).value;
    GateOfCooldown(m, i.clock.resume);
    if priced.ref.spikeActive {
      SpikeEntered(priced, i);
    }
  }

  lemma GateWhileRunning(m: Machine, now: real)
    requires IsCooldown(m.state)
    ensures Moved(m, Running) == Some(Machine(Running, m.sub, 0.0)) && CanPlace(Machine(Running, m.sub, 0.0), now)
  {
  }

  lemma GateOfCooldown(m: Machine, now: real)
    ensures IsCooldown(m.state) && 0.0 < m.until ==> (CanPlace(m, now) <==> m.until < now + 0.001)
  {
    if IsCooldown(m.state) && 0.0 < m.until {
      CooldownGate(m, now);
    }
  }

  // The cooldown that spike protection starts lasts until the protection ends, up to a millisecond.
  lemma SpikeEntered(priced: Bot, i: Input)
    requires priced.ref.spikeActive && priced.machine.state in {Running, CooldownPriceSpike} && InOrder(i.clock)
    ensures Guarded(priced, i).Some?
    ensures var m := Guarded(priced, i).value;
      && m.state == CooldownPriceSpike && 0.0 < m.until && priced.ref.spikeUntil < m.until + 0.001
      && m.until == i.clock.entered + RefPricing.SpikeRemainingMs(priced.ref, i.clock.remaining) as real / 1000.0
  {
    var ms := RefPricing.SpikeRemainingMs(priced.ref, i.clock.remaining);
    CooldownIsLegalWhen(priced.machine, CooldownPriceSpike, ms, i.clock.entered);
  }

  /** The end of the cooldown that a tick faces: a protection that still lasts has just renewed it. */
  function FacedDeadline(c: Config, b: Bot, i: Input): real {
    var priced := Priced(c, b, i);
    if priced.ref.spikeActive
    then i.clock.entered + RefPricing.SpikeRemainingMs(priced.ref, i.clock.remaining) as real / 1000.0
    else b.machine.until
  }

  /** The tick is not in a cooldown, or less than 1 ms is left of it. */
  predicate CooldownOver(c: Config, b: Bot, i: Input) {
    Priced(c, b, i).ref.spikeActive || b.machine.state == CooldownPriceSpike ==>
      FacedDeadline(c, b, i) < i.clock.resume + 0.001
  }

  // The guarded machine of a tick, and what it lets through.
  lemma GuardedGate(c: Config, b: Bot, i: Input)
    requires b.machine.state in {Running, CooldownPriceSpike} && InOrder(i.clock)
    requires b.machine.state == CooldownPriceSpike ==> 0.0 < b.machine.until
    ensures Guarded(Priced(c, b, i), i).Some?
    ensures var m := Guarded(Priced(c, b, i), i).value;
      if IsCooldown(m.state)
      then && m.state == CooldownPriceSpike && (CanPlace(m, i.clock.resume) <==> CooldownOver(c, b, i))
           && Moved(m, Running) == Some(Machine(Running, m.sub, 0.0))
      else m == b.machine && m.state == Running && CooldownOver(c, b, i)
  {
    hide RefPricing.Update, RefPricing.Expire, OwnPrices, RefPricing.SpikeRemainingMs, RemainingMs;
    var priced := Priced(c, b, i);
    if priced.ref.spikeActive {
      SpikeEntered(priced, i);
    }
    GateOfCooldown(Guarded(priced, i).value, i.clock.resume);
  }

  /** A running bot, or one cooling down from a spike, submits its ladder in a tick if and only if the
      mid is valid, no limit is broken, the cooldown is over up to 1 ms, and both blocking timers have
      expired; and then it submits everything that is desired, unless it is a dry run. */
  lemma LadderExactly(c: Config, b: Bot, i: Input)
    requires b.machine.state in {Running, CooldownPriceSpike} && InOrder(i.clock)
    requires b.machine.state == CooldownPriceSpike ==> 0.0 < b.machine.until
    ensures var o := Tick(c, b, i);
      && o.Ran?
      && (o.kind == Ladder <==>
            && i.mid > 0.0 && !BreachTick(c, b, i) && CooldownOver(c, b, i)
            && i.timers.priceUntil <= i.clock.price && i.timers.fillUntil <= i.clock.fill)
      && (o.kind == Ladder ==> o.submitted == if c.dryRun then [] else AllDesired(i.strategies))
      && (o.kind == Ladder ==> o.bot.machine.sub == Some(if i.quoted then Waiting else Placing))
  {
    BreachStops(c, b, i);
    if i.mid > 0.0 && !BreachTick(c, b, i) {
      GuardedGate(c, b, i);
      hide RefPricing.Update, RefPricing.Expire, OwnPrices, Breach, RemainingMs, Cooled, CooldownOver, AllDesired;
      ClearedActs(c, b, i);
      hide Tick, Cleared, Guarded, Priced;
    }
  }

  lemma {:induction false} AllDesiredMembers(ss: seq<Strategy>, r: OrderRequest)
    ensures r in AllDesired(ss) <==> exists s :: s in ss && s.active && r in s.desired
  {
    if ss != [] {
      AllDesiredMembers(ss[..|ss| - 1], r);
      assert ss == ss[..|ss| - 1] + [ss[|ss| - 1]];
    }
  }

  /** Out of a spike cooldown, with the market valid and no limit broken, the bot resumes exactly when
      less than 1 ms is left of the cooldown that it faces; otherwise it stays in it. */
  lemma ResumesWhen(c: Config, b: Bot, i: Input)
    requires b.machine.state == CooldownPriceSpike && 0.0 < b.machine.until && InOrder(i.clock)
    requires i.mid > 0.0 && !BreachTick(c, b, i)
    ensures Tick(c, b, i).bot.machine.state
            == if FacedDeadline(c, b, i) < i.clock.resume + 0.001 then Running else CooldownPriceSpike
  {
    GuardedGate(c, b, i);
    GateWhileRunning(Guarded(Priced(c, b, i), i).value, i.clock.gate);
    hide RefPricing.Update, RefPricing.Expire, OwnPrices, Breach, RemainingMs;
    hide Cooled, Unblocked, FacedDeadline, AllDesired;
    ClearedActs(c, b, i);
    hide Tick, Cleared, Guarded;
  }

  /** The bound of 2 ms is tight: for any smaller gap there are readings at which a ladder is submitted
      while that much of the protection is left. */
  lemma LadderEndsEarly(c: Config, b: Bot, i: Input, gap: real)
    requires b.machine.state in {Running, CooldownPriceSpike} && InOrder(i.clock) && 0.0 <= gap < 0.002
    requires b.machine.state == CooldownPriceSpike ==> 0.0 < b.machine.until
    requires i.mid > 0.0 && !BreachTick(c, b, i) && Unblocked(i.timers, i.clock.price, i.clock.fill)
    requires Priced(c, b, i).ref.spikeActive
    requires var end := Priced(c, b, i).ref.spikeUntil;
      && i.clock.remaining == i.clock.entered == end - 0.001 - gap / 2.0
      && i.clock.resume == end - gap
    ensures Tick(c, b, i).Ran? && Tick(c, b, i).kind == Ladder && i.clock.resume + gap == Priced(c, b, i).ref.spikeUntil
    ensures !c.dryRun ==> Tick(c, b, i).submitted == AllDesired(i.strategies)
  {
    var ref := Priced(c, b, i).ref;
    var left := (ref.spikeUntil - i.clock.remaining) * 1000.0;
    assert left == 1.0 + gap * 500.0;
    OneMillisecond(ref.spikeUntil - i.clock.remaining);
    hide RefPricing.Update, RefPricing.Expire, OwnPrices, Tick, BreachTick, WholeMs;
    LadderExactly(c, b, i);
  }

  lemma OneMillisecond(seconds: real)
    requires 0.001 <= seconds < 0.002
    ensures WholeMs(seconds) == 1
  {
  }

  // ── Compliance orders ──

  function ActiveCount(ss: seq<Strategy>): nat {
    if ss == [] then 0 else ActiveCount(ss[..|ss| - 1]) + if ss[|ss| - 1].active then 1 else 0
  }

  lemma {:induction false} FirstDesiredMembers(ss: seq<Strategy>, r: OrderRequest)
    ensures |FirstDesired(ss)| <= ActiveCount(ss)
    ensures r in FirstDesired(ss) <==> exists s :: s in ss && s.active && s.desired != [] && r == s.desired[0]
  {
    if ss != [] {
      FirstDesiredMembers(ss[..|ss| - 1], r);
      assert ss == ss[..|ss| - 1] + [ss[|ss| - 1]];
    }
  }

  /** Instead of a ladder there is at most one order for every active strategy, its first desired one,
      and only while the compliance timer runs; a dry run never submits anything. */
  lemma ComplianceOrders(c: Config, b: Bot, i: Input, r: OrderRequest)
    requires Reachable(b.machine.state) && Tick(c, b, i).Ran? && Tick(c, b, i).kind != Ladder
    ensures var o := Tick(c, b, i);
      && |o.submitted| <= ActiveCount(i.strategies)
      && (r in o.submitted ==>
            && !c.dryRun && i.clock.compliance < i.timers.complianceUntil
            && exists s :: s in i.strategies && s.active && s.desired != [] && r == s.desired[0])
  {
    hide RefPricing.Update, RefPricing.Expire, OwnPrices, Evaluated, Breach;
    hide Unblocked, RemainingMs, FirstDesired, Refreshed;
    FirstDesiredMembers(i.strategies, r);
  }

  /** While the compliance timer runs, an unhalted tick with a valid mid of a running or cooling bot
      that places no ladder submits the first desired order of every active strategy. */
  lemma ComplianceIsKept(c: Config, b: Bot, i: Input, s: Strategy)
    requires Reachable(b.machine.state) && !Idles(b, i) && !BreachTick(c, b, i) && !c.dryRun
    requires Tick(c, b, i).Ran? && Tick(c, b, i).kind != Ladder && DepthRequired(i.timers, i.clock.compliance)
    requires s in i.strategies && s.active && s.desired != []
    ensures Tick(c, b, i).kind == Compliance && s.desired[0] in Tick(c, b, i).submitted
  {
    hide RefPricing.Update, RefPricing.Expire, OwnPrices, Breach, Unblocked, RemainingMs, FirstDesired;
    FirstDesiredMembers(i.strategies, s.desired[0]);
    ClearedActs(c, b, i);
    hide Tick, Cleared;
  }

  ghost predicate Quotes(submitted: seq<OrderRequest>, side: Side) {
    exists r :: r in submitted && r.side == side
  }

  /** The compliance orders are documented to keep a quote on each side. They quote a side if and only if
      the first desired order of some active strategy is on that side. */
  lemma ComplianceQuotesWhen(c: Config, b: Bot, i: Input, side: Side)
    requires Reachable(b.machine.state) && Tick(c, b, i).Ran? && Tick(c, b, i).kind == Compliance && !c.dryRun
    ensures Quotes(Tick(c, b, i).submitted, side) <==>
      exists s :: s in i.strategies && s.active && s.desired != [] && s.desired[0].side == side
  {
    assert Tick(c, b, i).submitted == FirstDesired(i.strategies) by {
      hide RefPricing.Update, RefPricing.Expire, OwnPrices, Evaluated, Breach;
      hide Unblocked, RemainingMs, FirstDesired, Refreshed;
    }
    hide Tick, FirstDesired;
    if r :| r in FirstDesired(i.strategies) && r.side == side {
      FirstDesiredMembers(i.strategies, r);
    }
    if s :| s in i.strategies && s.active && s.desired != [] && s.desired[0].side == side {
      FirstDesiredMembers(i.strategies, s.desired[0]);
    }
  }

  /** A strategy that wants to buy, a fill cooldown and a compliance timer: there is no quote to sell. */
  lemma OneSidedCompliance() returns (c: Config, i: Input)
    ensures Tick(c, Started, i).Ran? && Tick(c, Started, i).kind == Compliance
    ensures Quotes(Tick(c, Started, i).submitted, Buy) && !Quotes(Tick(c, Started, i).submitted, Sell)
  {
    c := Config(RefPricing.Config(50.0, 10.0, 60.0), Limits(100.0, 10, 0.05, 30000, "BTC"), false, false);
    var s := Strategy(true, [OrderRequest("BTC_USDT", Buy, 99.0, 1.0, "")], 1.0);
    i := Input(100.0, 100.0, 100.0, [], false, None, [s], Timers(0.0, 2.0, 2.0),
               Readings(1.0, 1.0, 1.0, 1.0, 1.0, 1.0, 1.0, 1.0, 1.0, 1.0, 1.0));
    FirstMidIsCalm(c, i);
    assert !BreachTick(c, Started, i) by {
      assert Exposure(c.limits, [], [], 100.0) == 0.0 && Drop(100.0, 100.0) == 0.0;
    }
    hide Priced, BreachTick;
    StaysRunning(c, Started, i);
    hide Tick;
    ComplianceQuotesWhen(c, Started, i, Buy);
    ComplianceQuotesWhen(c, Started, i, Sell);
    assert s in i.strategies;
  }

  lemma FirstMidIsCalm(c: Config, i: Input)
    ensures !Priced(c, Started, i).ref.spikeActive
  {
    hide OwnPrices, RefPricing.ChangeBps;
    forall e: Windows.Stamped<real>, cutoff: real
      ensures |Windows.InWindow([e], cutoff)| <= 1
    {
      assert [e][..0] == [];
    }
  }

  // Without a spike or a breach a running bot's tick ends with the checks before placing.
  lemma StaysRunning(c: Config, b: Bot, i: Input)
    requires b.machine.state == Running && i.mid > 0.0 && !BreachTick(c, b, i) && !Priced(c, b, i).ref.spikeActive
    ensures Tick(c, b, i) == Placed(c, Cleared(c, b, i), i) && CanPlace(Cleared(c, b, i).machine, i.clock.gate)
  {
    hide RefPricing.Update, RefPricing.Expire, OwnPrices, Breach, Placed;
    ClearedActs(c, b, i);
    hide Tick;
  }

}

module Bots {
  import opened Types
  import opened Lifecycle
  import opened Cooldowns
  import opened Risks
  import RefPricing
  import RefPriceEngine
  import BotSteps

  class Bot {
    const sm: LiveStateMachine
    const refPrice: RefPriceEngine.LiveRefPriceEngine
    const risk: LiveRiskManager
    const cooldown: CooldownManager
    const dryRun: bool
    const hasClient: bool
    var balances: seq<Balance>
    var ticks: nat

    ghost function Settings(): BotSteps.Config {
      BotSteps.Config(refPrice.config, risk.limits, dryRun, hasClient)
    }

    ghost function Value(): BotSteps.Bot
      reads this, sm, refPrice, risk
    {
      BotSteps.Bot(sm.Value(), refPrice.State(), risk.Value(), ticks, balances)
    }

    constructor (sm: LiveStateMachine, refPrice: RefPriceEngine.LiveRefPriceEngine, risk: LiveRiskManager,
                 cooldown: CooldownManager, dryRun: bool, hasClient: bool)
      ensures this.sm == sm && this.refPrice == refPrice && this.risk == risk && this.cooldown == cooldown
      ensures this.dryRun == dryRun && this.hasClient == hasClient && balances == [] && ticks == 0
    {
      this.sm, this.refPrice, this.risk, this.cooldown := sm, refPrice, risk, cooldown;
      this.dryRun, this.hasClient := dryRun, hasClient;
      balances, ticks := [], 0;
    }

    /** The beginning of `run`: a fresh bot starts without an illegal transition. */
    method Start() returns (legal: bool)
      requires sm.Value() == InitialMachine
      modifies sm
      ensures legal && sm.Value() == BotSteps.Started.machine
    {
      legal := true;
      if sm.state == Init {
        legal := sm.Transition(Idle);
      }
      if legal && sm.state == Idle {
        legal := sm.Transition(Running);
      }
    }

    // The price update and spike protection.
    method HandlePrice(i: BotSteps.Input) returns (legal: bool)
      requires refPrice.Valid() && refPrice.lastRead <= i.clock.spike && BotSteps.InOrder(i.clock)
      modifies sm, refPrice
      ensures refPrice.Valid() && refPrice.lastRead == i.clock.query
      ensures var priced := BotSteps.Priced(Settings(), old(Value()), i);
        && legal == BotSteps.Guarded(priced, i).Some?
        && Value() == if legal then priced.(machine := BotSteps.Guarded(priced, i).value) else priced
    {
      hide RefPricing.Update, RefPricing.Expire, Cooled, RefPricing.SpikeRemainingMs, BotSteps.OwnPrices;
      refPrice.UpdatePrice(i.bestBid, i.bestAsk, BotSteps.OwnPrices(i.orders, Buy), BotSteps.OwnPrices(i.orders, Sell),
                           i.clock.spike, i.clock.twap);
      var active := refPrice.SpikeProtectionActive(i.clock.query);
      legal := true;
      if active {
        var ms := refPrice.SpikeCooldownRemainingMs(i.clock.remaining);
        legal := sm.EnterCooldown(CooldownPriceSpike, ms, i.clock.entered);
      }
    }

    // Balances and risk.
    method EvaluateRisk(i: BotSteps.Input)
      modifies this`balances, risk
      ensures Value() == BotSteps.Judged(Settings(), old(Value()), i)
      ensures balances == if ticks % 10 == 0 && !dryRun && hasClient && i.fetched.Some?
                          then i.fetched.value else old(balances)
    {
      hide Evaluated, Breach;
      if ticks % BotSteps.BALANCE_REFRESH_INTERVAL == 0 && !dryRun && hasClient && i.fetched.Some? {
        balances := i.fetched.value;
      }
      risk.Evaluate(i.orders, balances, i.mid, i.clock.judged);
    }

    // Shows the spike flag to the active strategies.
    method UpdateStrategies(ss: seq<BotSteps.Strategy>, ghost from: real, ghost to: real)
      requires refPrice.Valid() && refPrice.lastRead <= from <= to && BotSteps.ShownBetween(ss, from, to)
      modifies refPrice
      ensures refPrice.Valid() && refPrice.lastRead <= to
      ensures refPrice.State() == BotSteps.Shown(old(refPrice.State()), ss)
    {
      hide RefPricing.Expire;
      var k := 0;
      while k < |ss|
        invariant 0 <= k <= |ss| && refPrice.Valid() && refPrice.lastRead <= to
        invariant refPrice.lastRead <= from || exists j :: 0 <= j < k && refPrice.lastRead <= ss[j].shown
        invariant refPrice.State() == BotSteps.Shown(old(refPrice.State()), ss[..k])
      {
        assert ss[..k + 1][..k] == ss[..k];
        if ss[k].active {
          var active := refPrice.SpikeProtectionActive(ss[k].shown);
        }
        k := k + 1;
      }
      assert ss[..k] == ss;
    }

    // One order for every active strategy.
    method PlaceCompliance(ss: seq<BotSteps.Strategy>) returns (submitted: seq<OrderRequest>)
      ensures submitted == BotSteps.Submitted(Settings(), BotSteps.FirstDesired(ss))
    {
      submitted := [];
      var k := 0;
      while k < |ss|
        invariant 0 <= k <= |ss|
        invariant submitted == BotSteps.Submitted(Settings(), BotSteps.FirstDesired(ss[..k]))
      {
        assert ss[..k + 1][..k] == ss[..k];
        if ss[k].active && ss[k].desired != [] && !dryRun {
          submitted := submitted + [ss[k].desired[0]];
        }
        k := k + 1;
      }
      assert ss[..k] == ss;
    }

    // Everything that the active strategies desire.
    method RefreshOrders(ss: seq<BotSteps.Strategy>) returns (submitted: seq<OrderRequest>)
      modifies sm
      ensures sm.Value() == WithSub(old(sm.Value()), Waiting)
      ensures submitted == BotSteps.Submitted(Settings(), BotSteps.AllDesired(ss))
    {
      sm.SetSubState(Placing);
      var desired: seq<OrderRequest> := [];
      var k := 0;
      while k < |ss|
        invariant 0 <= k <= |ss| && desired == BotSteps.AllDesired(ss[..k])
        invariant sm.Value() == WithSub(old(sm.Value()), Placing)
      {
        assert ss[..k + 1][..k] == ss[..k];
        if ss[k].active {
          desired := desired + ss[k].desired;
        }
        k := k + 1;
      }
      assert ss[..k] == ss;
      submitted := if dryRun then [] else desired;
      sm.SetSubState(Waiting);
    }

    // Compliance depth, or nothing.
    method Suppress(i: BotSteps.Input) returns (kind: BotSteps.Kind, submitted: seq<OrderRequest>)
      requires i.timers == cooldown.Value()
      ensures var o := BotSteps.Suppressed(Settings(), Value(), i);
        o.Ran? && kind == o.kind && submitted == o.submitted && o.bot == Value()
    {
      kind, submitted := BotSteps.Nothing, [];
      var required := cooldown.ComplianceDepthRequired(i.clock.compliance);
      if required {
        kind := BotSteps.Compliance;
        submitted := PlaceCompliance(i.strategies);
      }
    }

    // From the cooldown check on.
    method Act(i: BotSteps.Input) returns (legal: bool, kind: BotSteps.Kind, submitted: seq<OrderRequest>)
      requires i.timers == cooldown.Value()
      modifies sm
      ensures var o := BotSteps.Acted(Settings(), old(Value()), i);
        && legal == o.Ran? && Value() == o.bot
        && (legal ==> kind == o.kind && submitted == o.submitted)
    {
      hide CanPlace, Unblocked, BotSteps.Submitted, BotSteps.AllDesired, BotSteps.FirstDesired, DepthRequired;
      legal, kind, submitted := true, BotSteps.Nothing, [];
      if IsCooldown(sm.state) {
        var over := sm.MayPlace(i.clock.resume);
        if !over {
          kind, submitted := Suppress(i);
          return;
        }
        legal := sm.Transition(Running);
        if !legal {
          return;
        }
      }
      var may := sm.MayPlace(i.clock.gate);
      if !may {
        return;
      }
      may := cooldown.MayPlace(i.clock.price, i.clock.fill);
      if !may {
        kind, submitted := Suppress(i);
        return;
      }
      kind := BotSteps.Ladder;
      submitted := RefreshOrders(i.strategies);
      sm.SetSubState(if i.quoted then Waiting else Placing);
    }

    /** One tick of the loop is one step of the relation. */
    method Tick(i: BotSteps.Input) returns (legal: bool, kind: BotSteps.Kind, submitted: seq<OrderRequest>)
      requires refPrice.Valid() && refPrice.lastRead <= i.clock.spike && BotSteps.InOrder(i.clock)
      requires i.timers == cooldown.Value() && BotSteps.ShownBetween(i.strategies, i.clock.judged, i.clock.resume)
      modifies this, sm, refPrice, risk
      ensures refPrice.Valid() && refPrice.lastRead <= i.clock.resume
      ensures var o := BotSteps.Tick(Settings(), old(Value()), i);
        && legal == o.Ran? && Value() == o.bot
        && (legal ==> kind == o.kind && submitted == o.submitted)
    {
      hide BotSteps.Priced, BotSteps.Guarded, BotSteps.Acted, BotSteps.Judged, BotSteps.Shown, Moved;
      legal, kind, submitted := true, BotSteps.Nothing, [];
      ticks := ticks + 1;
      if sm.state == Emergency {
        return;
      }
      if sm.state == Shutdown {
        return;
      }
      if i.mid <= 0.0 {
        return;
      }
      legal := HandlePrice(i);
      if !legal {
        return;
      }
      EvaluateRisk(i);
      if risk.halted {
        legal := sm.Transition(Emergency);
        return;
      }
      UpdateStrategies(i.strategies, i.clock.judged, i.clock.resume);
      legal, kind, submitted := Act(i);
    }
  }
}

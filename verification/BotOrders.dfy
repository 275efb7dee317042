// bot.py, order/order_engine.py: the orders that the loop tracks over a run, and the limit on them.

module BotOrders {
  import opened Types
  import opened Lifecycle
  import opened Cooldowns
  import opened Risks
  import opened BotSteps
  import opened BotRuns
  import RefPricing

  function SubmittedIn(c: Config, b: Bot, i: Input): seq<OrderRequest> {
    var o := Tick(c, b, i);
    if o.Ran? then o.submitted else []
  }

  /** Every submitted order is confirmed, so that the orders tracked become more by those submitted. A trade does
      not take an order off the list that the bot keeps. */
  ghost predicate Confirmed(c: Config, inputs: seq<Input>) {
    forall k {:trigger inputs[k]} :: 0 < k < |inputs| ==>
      |inputs[k].orders| == |inputs[k - 1].orders| + |SubmittedIn(c, After(c, inputs[..k - 1]), inputs[k - 1])|
  }

  /** In every tick the active strategies desire at least n orders in all. */
  ghost predicate KeepDesiring(inputs: seq<Input>, n: nat) {
    forall k :: 0 <= k < |inputs| ==> |AllDesired(inputs[k].strategies)| >= n
  }

  /** How many ticks of the run submit a ladder. */
  function LadderTicks(c: Config, inputs: seq<Input>): nat {
    if inputs == [] then 0
    else
      var front, i := inputs[..|inputs| - 1], inputs[|inputs| - 1];
      LadderTicks(c, front)
      + if Tick(c, After(c, front), i).Ran? && Tick(c, After(c, front), i).kind == Ladder then 1 else 0
  }

  lemma LadderSubmitsAll(c: Config, b: Bot, i: Input)
    requires Reachable(b.machine.state) && !c.dryRun && Tick(c, b, i).Ran? && Tick(c, b, i).kind == Ladder
    ensures SubmittedIn(c, b, i) == AllDesired(i.strategies) && |i.orders| < c.limits.maxOrders
  {
    BreachStops(c, b, i);
    hide RefPricing.Update, RefPricing.Expire, OwnPrices, Evaluated, Unblocked, RemainingMs;
    hide Refreshed, AllDesired, OverPosition, Crashed;
  }

  lemma LadderTicksStep(c: Config, inputs: seq<Input>)
    requires inputs != []
    ensures var front := inputs[..|inputs| - 1];
      var o := Tick(c, After(c, front), inputs[|inputs| - 1]);
      LadderTicks(c, inputs) == LadderTicks(c, front) + if o.Ran? && o.kind == Ladder then 1 else 0
  {
    hide Tick;
  }

  // The orders of k ladders, by adding.
  ghost function Pile(n: nat, k: nat): nat {
    if k == 0 then 0 else Pile(n, k - 1) + n
  }

  lemma {:induction false} PileIsProduct(n: nat, k: nat)
    ensures Pile(n, k) == n * k
  {
    if k > 0 {
      PileIsProduct(n, k - 1);
      assert n * k == n * (k - 1) + n;
    }
  }

  lemma PileGrows(n: nat, k: nat)
    ensures Pile(n, k + 1) == Pile(n, k) + n
  {
  }

  lemma AlwaysReachable(c: Config, inputs: seq<Input>)
    ensures Reachable(After(c, inputs).machine.state)
  {
    hide *;
    NeverRaises(c, inputs);
  }

  lemma DesiresEnough(inputs: seq<Input>, n: nat, k: nat)
    requires KeepDesiring(inputs, n) && k < |inputs|
    ensures |AllDesired(inputs[k].strategies)| >= n
  {
    hide AllDesired;
  }

  // Before the last tick there is at least one order for every order of every ladder.
  lemma {:induction false} OrdersPileUp(c: Config, inputs: seq<Input>, n: nat)
    requires inputs != [] && !c.dryRun && Confirmed(c, inputs) && KeepDesiring(inputs, n)
    ensures Pile(n, LadderTicks(c, inputs[..|inputs| - 1])) <= |inputs[|inputs| - 1].orders|
  {
    var k := |inputs| - 1;
    if k == 0 {
      hide After, Tick, AllDesired, Confirmed, KeepDesiring;
      assert LadderTicks(c, inputs[..0]) == 0;
    } else {
      hide *;
      var front := inputs[..k];
      var i := front[k - 1];
      FrontOfRun(c, inputs, n);
      OrdersPileUp(c, front, n);
      LadderTicksStep(c, front);
      LastSubmission(c, inputs);
      PileGrows(n, LadderTicks(c, front[..k - 1]));
      if Tick(c, After(c, front[..k - 1]), i).Ran? && Tick(c, After(c, front[..k - 1]), i).kind == Ladder {
        AlwaysReachable(c, front[..k - 1]);
        LadderSubmitsAll(c, After(c, front[..k - 1]), i);
        DesiresEnough(front, n, k - 1);
      }
    }
  }

  lemma LastSubmission(c: Config, inputs: seq<Input>)
    requires |inputs| > 1 && Confirmed(c, inputs)
    ensures var front := inputs[..|inputs| - 1];
      var b, i := After(c, front[..|front| - 1]), front[|front| - 1];
      |inputs[|inputs| - 1].orders| == |i.orders| + |SubmittedIn(c, b, i)|
  {
    hide Tick, After;
    var k := |inputs| - 1;
    assert inputs[..k][..k - 1] == inputs[..k - 1];
    assert |inputs[k].orders| == |inputs[k - 1].orders| + |SubmittedIn(c, After(c, inputs[..k - 1]), inputs[k - 1])|;
  }

  lemma FrontOfRun(c: Config, inputs: seq<Input>, n: nat)
    requires inputs != [] && Confirmed(c, inputs) && KeepDesiring(inputs, n)
    ensures Confirmed(c, inputs[..|inputs| - 1]) && KeepDesiring(inputs[..|inputs| - 1], n)
  {
    hide SubmittedIn, AllDesired, After;
    var front := inputs[..|inputs| - 1];
    forall k | 0 < k < |front|
      ensures |front[k].orders| == |front[k - 1].orders| + |SubmittedIn(c, After(c, front[..k - 1]), front[k - 1])|
    {
      assert front[..k - 1] == inputs[..k - 1];
    }
    forall k | 0 <= k < |front|
      ensures |AllDesired(front[k].strategies)| >= n
    {
      assert front[k] == inputs[k];
    }
  }

  // A tick that submits a ladder finds fewer orders than the limit.
  lemma RoomForLadder(c: Config, inputs: seq<Input>, n: nat)
    requires inputs != [] && !c.dryRun && Confirmed(c, inputs) && KeepDesiring(inputs, n)
    requires var o := Tick(c, After(c, inputs[..|inputs| - 1]), inputs[|inputs| - 1]); o.Ran? && o.kind == Ladder
    ensures Pile(n, LadderTicks(c, inputs[..|inputs| - 1])) < c.limits.maxOrders
  {
    hide *;
    AlwaysReachable(c, inputs[..|inputs| - 1]);
    OrdersPileUp(c, inputs, n);
    LadderSubmitsAll(c, After(c, inputs[..|inputs| - 1]), inputs[|inputs| - 1]);
  }

  lemma NoLadders(c: Config)
    ensures LadderTicks(c, []) == 0
  {
    hide Tick, After;
  }

  // The orders of all ladders but the last are below the limit.
  lemma {:induction false} PileIsLow(c: Config, inputs: seq<Input>, n: nat)
    requires !c.dryRun && Confirmed(c, inputs) && KeepDesiring(inputs, n)
    ensures LadderTicks(c, inputs) > 0 ==> Pile(n, LadderTicks(c, inputs) - 1) < c.limits.maxOrders
  {
    hide *;
    if inputs == [] {
      NoLadders(c);
    } else {
      var front := inputs[..|inputs| - 1];
      var o := Tick(c, After(c, front), inputs[|inputs| - 1]);
      LadderTicksStep(c, inputs);
      if o.Ran? && o.kind == Ladder {
        RoomForLadder(c, inputs, n);
        assert LadderTicks(c, inputs) - 1 == LadderTicks(c, front);
      } else {
        FrontOfRun(c, inputs, n);
        PileIsLow(c, front, n);
      }
    }
  }

  /** The loop places the whole ladder again in every tick, whatever is open already. So as long as every
      order is confirmed, the ladder ticks of any run are fewer than the limit on open orders divided by the
      size of a ladder, plus one. */
  lemma LaddersAreFew(c: Config, inputs: seq<Input>, n: nat)
    requires !c.dryRun && Confirmed(c, inputs) && KeepDesiring(inputs, n)
    ensures LadderTicks(c, inputs) > 0 ==> n * (LadderTicks(c, inputs) - 1) < c.limits.maxOrders
  {
    hide *;
    PileIsLow(c, inputs, n);
    if LadderTicks(c, inputs) > 0 {
      PileIsProduct(n, LadderTicks(c, inputs) - 1);
    }
  }

  // ── When the bot halts itself ──

  /** As long as the bot is not in EMERGENCY the market is valid, no protection is on, and no timer blocks. */
  ghost predicate AllClear(c: Config, inputs: seq<Input>) {
    forall k :: 0 <= k < |inputs| && After(c, inputs[..k]).machine.state != Emergency ==>
      ClearTick(c, After(c, inputs[..k]), inputs[k])
  }

  predicate ClearTick(c: Config, b: Bot, i: Input) {
    i.mid > 0.0 && !Priced(c, b, i).ref.spikeActive && Unblocked(i.timers, i.clock.price, i.clock.fill)
  }

  lemma ClearTickPlaces(c: Config, b: Bot, i: Input)
    requires b.machine.state == Running && ClearTick(c, b, i) && !BreachTick(c, b, i)
    ensures var o := Tick(c, b, i);
      o.Ran? && o.kind == Ladder && o.bot.machine.state == Running
  {
    hide RefPricing.Update, RefPricing.Expire, OwnPrices, Breach, RemainingMs, Unblocked, AllDesired;
    ClearedActs(c, b, i);
    hide Tick, Cleared;
  }

  // What a running bot's tick leaves besides the machine, without a spike or a breach.
  lemma CalmTickKeeps(c: Config, b: Bot, i: Input)
    requires b.machine.state == Running && i.mid > 0.0 && !BreachTick(c, b, i) && !Priced(c, b, i).ref.spikeActive
    ensures var after := Tick(c, b, i).bot;
      && after.ref == Shown(Priced(c, b, i).ref, i.strategies)
      && after.risk == Evaluated(c.limits, b.risk, EvaluationOf(c, Counted(b), i))
      && after.balances == Refreshed(c, Counted(b), i)
  {
    hide RefPricing.Update, RefPricing.Expire, OwnPrices, Breach, Evaluated, Shown;
    hide Unblocked, RemainingMs, AllDesired, FirstDesired;
    ClearedActs(c, b, i);
    hide Tick;
  }

  lemma {:induction false} ClearRunPlaces(c: Config, inputs: seq<Input>)
    requires AllClear(c, inputs) && After(c, inputs).machine.state != Emergency
    ensures LadderTicks(c, inputs) == |inputs| && After(c, inputs).machine.state == Running
  {
    hide Tick, ClearTick, BreachTick;
    if inputs != [] {
      var n := |inputs| - 1;
      var b, i := After(c, inputs[..n]), inputs[n];
      NeverRaises(c, inputs[..n]);
      BreachStops(c, b, i);
      ClearFront(c, inputs);
      ClearRunPlaces(c, inputs[..n]);
      ClearTickPlaces(c, b, i);
    }
  }

  lemma ClearFront(c: Config, inputs: seq<Input>)
    requires inputs != [] && AllClear(c, inputs)
    ensures AllClear(c, inputs[..|inputs| - 1])
  {
    hide ClearTick, After;
    var front := inputs[..|inputs| - 1];
    forall k | 0 <= k < |front| && After(c, front[..k]).machine.state != Emergency
      ensures ClearTick(c, After(c, front[..k]), front[k])
    {
      assert front[..k] == inputs[..k] && front[k] == inputs[k];
    }
  }

  /** With nothing in the way of placing and every order confirmed, a live bot whose strategies keep
      desiring n orders stops itself for risk: after maxOrders / n ticks, rounded up, and one more. */
  lemma HaltsItself(c: Config, inputs: seq<Input>, n: nat)
    requires !c.dryRun && Confirmed(c, inputs) && KeepDesiring(inputs, n) && AllClear(c, inputs)
    requires inputs != [] && n * (|inputs| - 1) >= c.limits.maxOrders
    ensures After(c, inputs).machine.state == Emergency
  {
    hide After, LadderTicks;
    if After(c, inputs).machine.state != Emergency {
      ClearRunPlaces(c, inputs);
      LaddersAreFew(c, inputs, n);
      assert false;
    }
  }

  /** Until it is in EMERGENCY no tick breaks another limit than that on open orders. */
  ghost predicate OnlyOrdersMatter(c: Config, inputs: seq<Input>) {
    forall k :: 0 <= k < |inputs| && After(c, inputs[..k]).machine.state != Emergency ==>
      !BreaksOther(c, After(c, inputs[..k]), inputs[k])
  }

  predicate BreaksOther(c: Config, b: Bot, i: Input) {
    OverPosition(c.limits, EvaluationOf(c, Counted(b), i)) || Crashed(c.limits, b.risk.peak, i.mid)
  }

  /** How many orders the active strategies desire in the ticks of a run together. */
  function Wished(inputs: seq<Input>): nat {
    if inputs == [] then 0 else Wished(inputs[..|inputs| - 1]) + |AllDesired(inputs[|inputs| - 1].strategies)|
  }

  // A tick breaks a limit exactly when it finds too many orders.
  lemma BreachIsCount(c: Config, b: Bot, i: Input)
    requires !Idles(b, i) && !BreaksOther(c, b, i)
    ensures BreachTick(c, b, i) <==> |i.orders| >= c.limits.maxOrders
  {
    hide OverPosition, Crashed, Refreshed;
  }

  // A tick of a running bot with nothing in the way.
  lemma ClearTickDecides(c: Config, b: Bot, i: Input)
    requires b.machine.state == Running && !c.dryRun && ClearTick(c, b, i) && !BreaksOther(c, b, i)
    ensures |i.orders| >= c.limits.maxOrders ==> Tick(c, b, i).bot.machine.state == Emergency
    ensures |i.orders| < c.limits.maxOrders ==>
      Tick(c, b, i).bot.machine.state == Running && SubmittedIn(c, b, i) == AllDesired(i.strategies)
  {
    hide BreaksOther, BreachTick, Tick, AllDesired, Priced;
    BreachIsCount(c, b, i);
    if |i.orders| < c.limits.maxOrders {
      ClearTickPlaces(c, b, i);
      LadderSubmitsAll(c, b, i);
    } else {
      BreachStops(c, b, i);
    }
  }

  // Before tick m: either halted for orders in an earlier tick, or running with all desired orders confirmed.
  ghost predicate DecidedAt(c: Config, inputs: seq<Input>, m: nat)
    requires m < |inputs|
  {
    var b := After(c, inputs[..m]);
    if b.machine.state == Emergency then m > 0 && |inputs[0].orders| + Wished(inputs[..m - 1]) >= c.limits.maxOrders
    else b.machine.state == Running && |inputs[m].orders| == |inputs[0].orders| + Wished(inputs[..m])
  }

  lemma {:induction false} OrdersDecide(c: Config, inputs: seq<Input>, m: nat)
    requires m < |inputs| && !c.dryRun && Confirmed(c, inputs) && AllClear(c, inputs) && OnlyOrdersMatter(c, inputs)
    ensures DecidedAt(c, inputs, m)
  {
    hide *;
    if m == 0 {
      StartsDecided(c, inputs);
    } else {
      OrdersDecide(c, inputs, m - 1);
      ClearAt(c, inputs, m - 1);
      ConfirmedAt(c, inputs, m);
      DecidedNext(c, inputs, m);
    }
  }

  lemma DecidedNext(c: Config, inputs: seq<Input>, m: nat)
    requires 0 < m < |inputs| && !c.dryRun && DecidedAt(c, inputs, m - 1)
    requires var b := After(c, inputs[..m - 1]);
      && (b.machine.state != Emergency ==> ClearTick(c, b, inputs[m - 1]) && !BreaksOther(c, b, inputs[m - 1]))
      && |inputs[m].orders| == |inputs[m - 1].orders| + |SubmittedIn(c, b, inputs[m - 1])|
    ensures DecidedAt(c, inputs, m)
  {
    var b := After(c, inputs[..m - 1]);
    AfterNext(c, inputs, m - 1);
    WishedNext(inputs, m - 1);
    hide After, ClearTick, BreaksOther, SubmittedIn, Wished, Tick, AllDesired;
    if b.machine.state == Emergency {
      StaysEmergency(c, b, inputs[m - 1]);
      WishedNext(inputs, m - 2);
    } else {
      ClearTickDecides(c, b, inputs[m - 1]);
    }
  }

  lemma ConfirmedAt(c: Config, inputs: seq<Input>, m: nat)
    requires 0 < m < |inputs| && Confirmed(c, inputs)
    ensures |inputs[m].orders| == |inputs[m - 1].orders| + |SubmittedIn(c, After(c, inputs[..m - 1]), inputs[m - 1])|
  {
    hide SubmittedIn, After;
  }

  lemma StartsDecided(c: Config, inputs: seq<Input>)
    requires |inputs| > 0
    ensures DecidedAt(c, inputs, 0)
  {
    assert inputs[..0] == [];
  }

  lemma AfterNext(c: Config, inputs: seq<Input>, k: nat)
    requires k < |inputs|
    ensures After(c, inputs[..k + 1]) == Tick(c, After(c, inputs[..k]), inputs[k]).bot
  {
    hide Tick;
    assert inputs[..k + 1][..k] == inputs[..k];
  }

  lemma StaysEmergency(c: Config, b: Bot, i: Input)
    requires b.machine.state == Emergency
    ensures Tick(c, b, i).bot.machine.state == Emergency
  {
  }

  lemma WishedNext(inputs: seq<Input>, k: nat)
    requires k < |inputs|
    ensures Wished(inputs[..k + 1]) == Wished(inputs[..k]) + |AllDesired(inputs[k].strategies)|
  {
    hide AllDesired;
    assert inputs[..k + 1][..k] == inputs[..k];
  }

  lemma ClearAt(c: Config, inputs: seq<Input>, k: nat)
    requires AllClear(c, inputs) && OnlyOrdersMatter(c, inputs) && k < |inputs|
    ensures After(c, inputs[..k]).machine.state != Emergency ==>
      ClearTick(c, After(c, inputs[..k]), inputs[k]) && !BreaksOther(c, After(c, inputs[..k]), inputs[k])
  {
    hide After, ClearTick, BreaksOther;
  }

  /** Exactly when: with nothing else in the way, and whatever trades, the bot is in EMERGENCY after a run if
      and only if the orders tracked at first and those desired before the last tick reach the limit. */
  lemma HaltsExactly(c: Config, inputs: seq<Input>)
    requires inputs != [] && !c.dryRun && Confirmed(c, inputs) && AllClear(c, inputs) && OnlyOrdersMatter(c, inputs)
    ensures After(c, inputs).machine.state == Emergency
            <==> |inputs[0].orders| + Wished(inputs[..|inputs| - 1]) >= c.limits.maxOrders
  {
    hide *;
    var m := |inputs| - 1;
    assert inputs[..m + 1] == inputs;
    OrdersDecide(c, inputs, m);
    ClearAt(c, inputs, m);
    AfterNext(c, inputs, m);
    LastDecides(c, inputs);
  }

  lemma LastDecides(c: Config, inputs: seq<Input>)
    requires var m := |inputs| - 1;
      && inputs != [] && !c.dryRun && DecidedAt(c, inputs, m)
      && var b := After(c, inputs[..m]);
      && (b.machine.state != Emergency ==> ClearTick(c, b, inputs[m]) && !BreaksOther(c, b, inputs[m]))
      && After(c, inputs) == Tick(c, b, inputs[m]).bot
    ensures After(c, inputs).machine.state == Emergency
            <==> |inputs[0].orders| + Wished(inputs[..|inputs| - 1]) >= c.limits.maxOrders
  {
    var m := |inputs| - 1;
    var b := After(c, inputs[..m]);
    hide After, ClearTick, BreaksOther, Wished, Tick, AllDesired;
    if b.machine.state == Emergency {
      StaysEmergency(c, b, inputs[m]);
      WishedNext(inputs, m - 1);
    } else {
      ClearTickDecides(c, b, inputs[m]);
    }
  }

  /** Strategies that desire n orders in every tick, of a bot that starts without any, halt it in tick
      1 + ceil(limit / n), and not before. */
  lemma HaltsInTick(c: Config, inputs: seq<Input>, n: nat)
    requires inputs != [] && !c.dryRun && Confirmed(c, inputs) && AllClear(c, inputs) && OnlyOrdersMatter(c, inputs)
    requires inputs[0].orders == [] && forall k :: 0 <= k < |inputs| ==> |AllDesired(inputs[k].strategies)| == n
    ensures After(c, inputs).machine.state == Emergency <==> n * (|inputs| - 1) >= c.limits.maxOrders
  {
    hide After, Confirmed, AllClear, OnlyOrdersMatter, AllDesired, Wished;
    HaltsExactly(c, inputs);
    WishedIsPile(inputs, n, |inputs| - 1);
    PileIsProduct(n, |inputs| - 1);
  }

  lemma {:induction false} WishedIsPile(inputs: seq<Input>, n: nat, k: nat)
    requires k <= |inputs| && forall j :: 0 <= j < |inputs| ==> |AllDesired(inputs[j].strategies)| == n
    ensures Wished(inputs[..k]) == Pile(n, k)
  {
    hide AllDesired;
    if k > 0 {
      WishedIsPile(inputs, n, k - 1);
      WishedNext(inputs, k - 1);
    }
  }
}

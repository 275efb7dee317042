// bot.py: the loop with its order engine. The orders that a tick sees are those the engine tracks, and what
// the tick submits is placed with the engine before the next.

module BotLoops {
  import opened Types
  import opened Lifecycle
  import opened Cooldowns
  import opened BotSteps
  import opened BotRuns
  import opened BotOrders
  import opened Exchanges
  import opened OrderEngines
  import Bots

  /** All of some orders, each once. */
  ghost predicate Lists(orders: seq<Order>, open: map<string, Order>) {
    && |orders| == |open|
    && (forall o :: o in orders ==> o.orderId in open && open[o.orderId] == o)
    && (forall id :: id in open ==> open[id] in orders)
    && (forall i, j :: 0 <= i < j < |orders| ==> orders[i].orderId != orders[j].orderId)
  }

  /** `open_orders`: the tracked orders, each once. */
  method ListOpen(engine: LiveOrderEngine) returns (orders: seq<Order>)
    requires engine.Valid()
    ensures Lists(orders, engine.open)
  {
    orders := [];
    var rest := engine.open;
    while rest.Keys != {}
      invariant rest.Keys <= engine.open.Keys && |orders| + |rest| == |engine.open|
      invariant forall id :: id in rest ==> rest[id] == engine.open[id]
      invariant forall o :: o in orders ==>
        o.orderId in engine.open && engine.open[o.orderId] == o && o.orderId !in rest
      invariant forall id :: id in engine.open && id !in rest ==> engine.open[id] in orders
      invariant forall i, j :: 0 <= i < j < |orders| ==> orders[i].orderId != orders[j].orderId
      decreases rest.Keys
    {
      var id :| id in rest.Keys;
      orders := orders + [rest[id]];
      assert rest == (rest - {id})[id := rest[id]];
      rest := rest - {id};
    }
  }

  /** The tracked orders, and the calls of the exchange so far. */
  datatype Ledger = Ledger(open: map<string, Order>, calls: seq<Call>)

  /** After the placing of some requests at a reference price, under ids from some number on. */
  ghost predicate Handled(before: Ledger, after: Ledger, reqs: seq<OrderRequest>, refPrice: real, grants: nat -> bool,
                          ids: nat -> string, tick: real)
    requires 0.0 < tick
  {
    exists first: nat ::
      && GrowsBy(before.open, after.open, reqs, ids, first, tick) && before.calls <= after.calls
      && AllSubmitted(after.calls[|before.calls|..], reqs, refPrice, grants, first, tick, |after.open| - |before.open|)
  }

  ghost function RefAfter(c: Config, b: Bot, i: Input): real {
    Tick(c, b, i).bot.ref.ref
  }

  /** Before each tick the engine is at `ledgers[k]`: the tick sees the orders tracked then, each once. By the next
      tick what it submitted has been handed to the exchange, as far as it passes the checks and has tokens, and the
      orders that were accepted are added, and no others. */
  ghost predicate OnTracked(c: Config, inputs: seq<Input>, ledgers: seq<Ledger>, grants: nat -> bool,
                            ids: nat -> string, tick: real)
    requires 0.0 < tick
  {
    && |ledgers| == |inputs| + 1
    && forall k {:trigger inputs[k]} :: 0 <= k < |inputs| ==>
      && Lists(inputs[k].orders, ledgers[k].open)
      && Handled(ledgers[k], ledgers[k + 1], SubmittedIn(c, After(c, inputs[..k]), inputs[k]),
                 RefAfter(c, After(c, inputs[..k]), inputs[k]), grants, ids, tick)
  }

  lemma OnTrackedNext(c: Config, inputs: seq<Input>, ledgers: seq<Ledger>, grants: nat -> bool, ids: nat -> string,
                      tick: real, i: Input, ledger: Ledger)
    requires 0.0 < tick && OnTracked(c, inputs, ledgers, grants, ids, tick)
    requires Lists(i.orders, ledgers[|inputs|].open)
    requires Handled(ledgers[|inputs|], ledger, SubmittedIn(c, After(c, inputs), i), RefAfter(c, After(c, inputs), i),
                     grants, ids, tick)
    ensures OnTracked(c, inputs + [i], ledgers + [ledger], grants, ids, tick)
    ensures |ledgers| == |inputs| + 1 && (ledgers + [ledger])[|inputs + [i]|] == ledger
  {
    hide Lists, Handled, SubmittedIn, After, RefAfter;
    var all, tracked := inputs + [i], ledgers + [ledger];
    forall k | 0 <= k < |all|
      ensures Lists(all[k].orders, tracked[k].open)
      ensures Handled(tracked[k], tracked[k + 1], SubmittedIn(c, After(c, all[..k]), all[k]),
                      RefAfter(c, After(c, all[..k]), all[k]), grants, ids, tick)
    {
      if k < |inputs| {
        assert all[..k] == inputs[..k] && all[k] == inputs[k];
      } else {
        assert all[..k] == inputs;
      }
    }
  }

  /** The ticks of a run differ from what was fed only in the orders. */
  ghost predicate Follows(inputs: seq<Input>, feed: seq<Input>) {
    |inputs| <= |feed| && forall k :: 0 <= k < |inputs| ==> inputs[k] == feed[k].(orders := inputs[k].orders)
  }

  /** A feed has its readings in order, and the timers as the cooldown manager has them. */
  ghost predicate Fit(feed: seq<Input>, timers: Timers) {
    Timely(feed) && forall k :: 0 <= k < |feed| ==> feed[k].timers == timers
  }

  /** All orders submitted in a run are tracked after it, besides those that the last tick saw. */
  ghost predicate Tallied(c: Config, inputs: seq<Input>, tracked: nat) {
    && Confirmed(c, inputs)
    && (inputs != [] ==>
          var front, last := inputs[..|inputs| - 1], inputs[|inputs| - 1];
          tracked == |last.orders| + |SubmittedIn(c, After(c, front), last)|)
  }

  lemma TallyNext(c: Config, inputs: seq<Input>, i: Input, tracked: nat)
    requires Tallied(c, inputs, tracked) && |i.orders| == tracked
    ensures Tallied(c, inputs + [i], tracked + |SubmittedIn(c, After(c, inputs), i)|)
  {
    hide *;
    var all := inputs + [i];
    forall k | 0 < k < |all|
      ensures ConfirmedAt(c, all, k)
    {
      if k < |inputs| {
        EarlierConfirmed(c, inputs, i, tracked, k);
      } else {
        LastConfirmed(c, inputs, i, tracked);
      }
    }
    ConfirmedByIndex(c, all);
    TallyOf(c, inputs, i, tracked);
  }

  lemma TallyBefore(c: Config, inputs: seq<Input>, i: Input, tracked: nat)
    requires Tallied(c, inputs + [i], tracked)
    ensures Tallied(c, inputs, |i.orders|) && tracked == |i.orders| + |SubmittedIn(c, After(c, inputs), i)|
  {
    hide SubmittedIn, After;
    var all, n := inputs + [i], |inputs|;
    assert all[..n] == inputs && all[n] == i && all[..|all| - 1] == inputs;
    forall k | 0 < k < n
      ensures ConfirmedAt(c, inputs, k)
    {
      assert all[k] == inputs[k] && all[k - 1] == inputs[k - 1] && all[..k - 1] == inputs[..k - 1];
    }
    ConfirmedByIndex(c, inputs);
    if n > 0 {
      assert all[n - 1] == inputs[n - 1] && all[..n - 1] == inputs[..n - 1];
      assert |all[n].orders| == |all[n - 1].orders| + |SubmittedIn(c, After(c, all[..n - 1]), all[n - 1])|;
    }
  }

  ghost predicate ConfirmedAt(c: Config, inputs: seq<Input>, k: nat)
    requires 0 < k < |inputs|
  {
    |inputs[k].orders| == |inputs[k - 1].orders| + |SubmittedIn(c, After(c, inputs[..k - 1]), inputs[k - 1])|
  }

  lemma ConfirmedByIndex(c: Config, inputs: seq<Input>)
    requires forall k :: 0 < k < |inputs| ==> ConfirmedAt(c, inputs, k)
    ensures Confirmed(c, inputs)
  {
    hide SubmittedIn, After;
    forall k | 0 < k < |inputs|
      ensures |inputs[k].orders| == |inputs[k - 1].orders| + |SubmittedIn(c, After(c, inputs[..k - 1]), inputs[k - 1])|
    {
      assert ConfirmedAt(c, inputs, k);
    }
  }

  lemma EarlierConfirmed(c: Config, inputs: seq<Input>, i: Input, tracked: nat, k: nat)
    requires Tallied(c, inputs, tracked) && 0 < k < |inputs|
    ensures ConfirmedAt(c, inputs + [i], k)
  {
    hide SubmittedIn, After;
    assert (inputs + [i])[..k - 1] == inputs[..k - 1];
  }

  lemma LastConfirmed(c: Config, inputs: seq<Input>, i: Input, tracked: nat)
    requires Tallied(c, inputs, tracked) && |i.orders| == tracked && inputs != []
    ensures ConfirmedAt(c, inputs + [i], |inputs|)
  {
    hide SubmittedIn, After, Confirmed;
    assert (inputs + [i])[..|inputs| - 1] == inputs[..|inputs| - 1];
  }

  lemma TallyOf(c: Config, inputs: seq<Input>, i: Input, tracked: nat)
    requires Confirmed(c, inputs + [i]) && |i.orders| == tracked
    ensures Tallied(c, inputs + [i], tracked + |SubmittedIn(c, After(c, inputs), i)|)
  {
    hide SubmittedIn, After, Confirmed;
    assert (inputs + [i])[..|inputs|] == inputs;
  }

  lemma RunNext(c: Config, inputs: seq<Input>, i: Input)
    ensures After(c, inputs + [i]) == Tick(c, After(c, inputs), i).bot
    ensures Tick(c, After(c, inputs), i).Ran?
    ensures SubmittedIn(c, After(c, inputs), i) == Tick(c, After(c, inputs), i).submitted
    ensures RefAfter(c, After(c, inputs), i) == Tick(c, After(c, inputs), i).bot.ref.ref
  {
    hide Tick;
    var all := inputs + [i];
    assert all[..|inputs|] == inputs && all[..|all| - 1] == inputs;
    NeverRaises(c, all);
  }

  lemma FollowsNext(inputs: seq<Input>, feed: seq<Input>, i: Input)
    requires Follows(inputs, feed) && |inputs| < |feed| && i == feed[|inputs|].(orders := i.orders)
    ensures Follows(inputs + [i], feed)
  {
  }

  lemma {:induction false} SameWishes(inputs: seq<Input>, feed: seq<Input>, k: nat)
    requires Follows(inputs, feed) && k <= |inputs|
    ensures Wished(inputs[..k]) == Wished(feed[..k])
  {
    hide AllDesired;
    if k > 0 {
      SameWishes(inputs, feed, k - 1);
      WishedNext(inputs, k - 1);
      WishedNext(feed, k - 1);
    }
  }

  lemma FitAt(feed: seq<Input>, timers: Timers, k: nat)
    requires Fit(feed, timers) && k < |feed|
    ensures InOrder(feed[k].clock) && feed[k].timers == timers
    ensures ShownBetween(feed[k].strategies, feed[k].clock.judged, feed[k].clock.resume)
    ensures k + 1 < |feed| ==> feed[k].clock.resume <= feed[k + 1].clock.spike
  {
  }

  /** One turn of the loop: a tick on the tracked orders, and the placing of what it submits. */
  method Turn(bot: Bots.Bot, engine: LiveOrderEngine, fed: Input, grants: nat -> bool, ids: nat -> string, used: nat)
    returns (i: Input, submitted: seq<OrderRequest>, confirmed: bool)
    requires bot.refPrice.Valid() && bot.refPrice.lastRead <= fed.clock.spike && InOrder(fed.clock)
    requires fed.timers == bot.cooldown.Value() && ShownBetween(fed.strategies, fed.clock.judged, fed.clock.resume)
    requires engine.Valid() && FreshFrom(ids, used, engine.client.issued.Keys)
    modifies bot, bot.sm, bot.refPrice, bot.risk, engine, engine.client
    ensures i == fed.(orders := i.orders) && Lists(i.orders, old(engine.open))
    ensures var o := Tick(bot.Settings(), old(bot.Value()), i);
      && bot.Value() == o.bot && (o.Ran? ==> submitted == o.submitted) && (o.Raised? ==> submitted == [])
      && Handled(Ledger(old(engine.open), old(engine.client.calls)), Ledger(engine.open, engine.client.calls),
                 submitted, o.bot.ref.ref, grants, ids, engine.tick)
    ensures bot.refPrice.Valid() && bot.refPrice.lastRead <= fed.clock.resume
    ensures engine.Valid() && FreshFrom(ids, used + |submitted|, engine.client.issued.Keys)
    ensures confirmed <==> |engine.open| == |old(engine.open)| + |submitted|
  {
    var orders := ListOpen(engine);
    i := fed.(orders := orders);
    hide Tick, Lists, GrowsBy, AllSubmitted, FreshFrom;
    ghost var before, calls := engine.open, engine.client.calls;
    var legal, kind, wanted := bot.Tick(i);
    submitted := if legal then wanted else [];
    var placed := PlaceAll(engine, submitted, bot.refPrice.ref, grants, ids, used);
    PlacedIsHandled(engine, before, calls, submitted, bot.refPrice.ref, grants, ids, used, placed);
    confirmed := placed == |submitted|;
  }

  lemma PlacedIsHandled(engine: LiveOrderEngine, before: map<string, Order>, calls: seq<Call>, reqs: seq<OrderRequest>,
                        refPrice: real, grants: nat -> bool, ids: nat -> string, first: nat, placed: nat)
    requires HasPlaced(engine, before, calls, reqs, refPrice, grants, ids, first, placed)
    ensures Handled(Ledger(before, calls), Ledger(engine.open, engine.client.calls), reqs, refPrice, grants, ids,
                    engine.tick)
    ensures |engine.open| == |before| + placed
  {
    hide GrowsBy, AllSubmitted, FreshFrom;
  }

  /** Where the loop is after some ticks of its feed; `ledgers` are where the engine was before each, and is. */
  ghost predicate Looped(bot: Bots.Bot, engine: LiveOrderEngine, feed: seq<Input>, inputs: seq<Input>,
                         ledgers: seq<Ledger>, grants: nat -> bool, ids: nat -> string, confirmed: bool)
    requires 0.0 < engine.tick
    reads bot, bot.sm, bot.refPrice, bot.risk, engine, engine.client
  {
    && Follows(inputs, feed) && bot.Value() == After(bot.Settings(), inputs)
    && bot.refPrice.Valid() && (|inputs| < |feed| ==> bot.refPrice.lastRead <= feed[|inputs|].clock.spike)
    && OnTracked(bot.Settings(), inputs, ledgers, grants, ids, engine.tick)
    && ledgers[|inputs|] == Ledger(engine.open, engine.client.calls)
    && (confirmed <==> Tallied(bot.Settings(), inputs, |engine.open|))
  }

  lemma LoopNext(c: Config, feed: seq<Input>, inputs: seq<Input>, i: Input, tracked: nat, confirmed: bool)
    requires Follows(inputs, feed) && |inputs| < |feed| && i == feed[|inputs|].(orders := i.orders)
    requires |i.orders| == tracked && (confirmed <==> Tallied(c, inputs, tracked))
    ensures Follows(inputs + [i], feed)
    ensures After(c, inputs + [i]) == Tick(c, After(c, inputs), i).bot && Tick(c, After(c, inputs), i).Ran?
    ensures SubmittedIn(c, After(c, inputs), i) == Tick(c, After(c, inputs), i).submitted
    ensures RefAfter(c, After(c, inputs), i) == Tick(c, After(c, inputs), i).bot.ref.ref
    ensures forall now: nat ::
      Tallied(c, inputs + [i], now) <==> confirmed && now == tracked + |Tick(c, After(c, inputs), i).submitted|
  {
    hide *;
    FollowsNext(inputs, feed, i);
    RunNext(c, inputs, i);
    forall now: nat
      ensures Tallied(c, inputs + [i], now)
              <==> confirmed && now == tracked + |Tick(c, After(c, inputs), i).submitted|
    {
      if Tallied(c, inputs + [i], now) {
        TallyBefore(c, inputs, i, now);
      }
      if confirmed {
        TallyNext(c, inputs, i, tracked);
      }
    }
  }

  // One more tick.
  method Advance(bot: Bots.Bot, engine: LiveOrderEngine, ghost feed: seq<Input>, ghost inputs: seq<Input>,
                 ghost ledgers: seq<Ledger>, fed: Input, confirmed: bool, grants: nat -> bool, ids: nat -> string,
                 used: nat)
    returns (i: Input, still: bool, used': nat)
    requires engine.Valid() && Looped(bot, engine, feed, inputs, ledgers, grants, ids, confirmed)
    requires |inputs| < |feed| && fed == feed[|inputs|]
    requires Fit(feed, bot.cooldown.Value()) && FreshFrom(ids, used, engine.client.issued.Keys)
    modifies bot, bot.sm, bot.refPrice, bot.risk, engine, engine.client
    ensures engine.Valid() && FreshFrom(ids, used', engine.client.issued.Keys)
    ensures Looped(bot, engine, feed, inputs + [i], ledgers + [Ledger(engine.open, engine.client.calls)], grants, ids,
                   still)
  {
    hide Tick, After, Tallied, Follows, Fit, FreshFrom, Bots.Bot.Value, InOrder, ShownBetween;
    hide OnTracked, Handled, SubmittedIn, RefAfter;
    FitAt(feed, bot.cooldown.Value(), |inputs|);
    ghost var tracked, c := |engine.open|, bot.Settings();
    var submitted: seq<OrderRequest>, all: bool;
    i, submitted, all := Turn(bot, engine, fed, grants, ids, used);
    LoopNext(c, feed, inputs, i, tracked, confirmed);
    OnTrackedNext(c, inputs, ledgers, grants, ids, engine.tick, i, Ledger(engine.open, engine.client.calls));
    still, used' := confirmed && all, used + |submitted|;
  }

  /** The loop of a started bot. Its ticks are a run of the step relation, each on the orders that the engine
      tracks by then. If every order is confirmed, the bot ends in EMERGENCY exactly as `HaltsExactly` says,
      whatever trades. */
  method Loop(bot: Bots.Bot, engine: LiveOrderEngine, feed: seq<Input>, grants: nat -> bool, ids: nat -> string)
    returns (ghost inputs: seq<Input>, ghost ledgers: seq<Ledger>, confirmed: bool)
    requires bot.Value() == Started && bot.refPrice.Valid() && Fit(feed, bot.cooldown.Value())
    requires feed != [] ==> bot.refPrice.lastRead <= feed[0].clock.spike
    requires engine.Valid() && FreshFrom(ids, 0, engine.client.issued.Keys)
    modifies bot, bot.sm, bot.refPrice, bot.risk, engine, engine.client
    ensures engine.Valid() && |inputs| == |feed|
    ensures Looped(bot, engine, feed, inputs, ledgers, grants, ids, confirmed)
    ensures ledgers[0] == Ledger(old(engine.open), old(engine.client.calls))
    ensures feed != [] && confirmed && HaltsForOrders(bot.Settings(), inputs) ==>
      (bot.Value().machine.state == Emergency
       <==> |old(engine.open)| + Wished(feed[..|feed| - 1]) >= bot.Settings().limits.maxOrders)
  {
    inputs, ledgers, confirmed := [], [Ledger(engine.open, engine.client.calls)], true;
    var used: nat := 0;
    NothingYet(bot.Settings(), feed, ledgers[0], grants, ids, engine.tick);
    hide *;
    for k := 0 to |feed|
      invariant engine.Valid() && FreshFrom(ids, used, engine.client.issued.Keys)
      invariant |inputs| == k && Looped(bot, engine, feed, inputs, ledgers, grants, ids, confirmed)
      invariant ledgers != [] && ledgers[0] == Ledger(old(engine.open), old(engine.client.calls))
    {
      var i: Input;
      i, confirmed, used := Advance(bot, engine, feed, inputs, ledgers, feed[k], confirmed, grants, ids, used);
      inputs, ledgers := inputs + [i], ledgers + [Ledger(engine.open, engine.client.calls)];
    }
    if feed != [] && confirmed && HaltsForOrders(bot.Settings(), inputs) {
      LoopHalts(bot, engine, feed, inputs, ledgers, grants, ids);
    }
  }

  /** Nothing but the limit on open orders can stop a live bot from placing. */
  ghost predicate HaltsForOrders(c: Config, inputs: seq<Input>) {
    !c.dryRun && AllClear(c, inputs) && OnlyOrdersMatter(c, inputs)
  }

  lemma NothingYet(c: Config, feed: seq<Input>, ledger: Ledger, grants: nat -> bool, ids: nat -> string, tick: real)
    requires 0.0 < tick
    ensures Follows([], feed) && After(c, []) == Started && Tallied(c, [], |ledger.open|)
    ensures OnTracked(c, [], [ledger], grants, ids, tick)
  {
  }

  lemma LoopHalts(bot: Bots.Bot, engine: LiveOrderEngine, feed: seq<Input>, inputs: seq<Input>,
                  ledgers: seq<Ledger>, grants: nat -> bool, ids: nat -> string)
    requires 0.0 < engine.tick
    requires feed != [] && |inputs| == |feed| && Looped(bot, engine, feed, inputs, ledgers, grants, ids, true)
    requires HaltsForOrders(bot.Settings(), inputs)
    ensures bot.Value().machine.state == Emergency
            <==> |ledgers[0].open| + Wished(feed[..|feed| - 1]) >= bot.Settings().limits.maxOrders
  {
    hide After, Wished, Confirmed, AllClear, OnlyOrdersMatter, Follows, Bots.Bot.Value, SubmittedIn, Handled;
    SameWishes(inputs, feed, |feed| - 1);
    HaltsExactly(bot.Settings(), inputs);
  }
}

// bot.py: what every run of the control loop guarantees, from INIT until it is shut down.

module BotRuns {
  import opened Types
  import opened Lifecycle
  import opened Cooldowns
  import opened Risks
  import opened BotSteps
  import RefPricing
  import Windows

  /** The bot after all the ticks of a run. */
  function After(c: Config, inputs: seq<Input>): Bot {
    if inputs == [] then Started else Tick(c, After(c, inputs[..|inputs| - 1]), inputs[|inputs| - 1]).bot
  }

  // ── Emergencies ──

  /** A run from INIT through IDLE to RUNNING never raises, whatever its ticks find, and can always
      be shut down. */
  lemma {:induction false} NeverRaises(c: Config, inputs: seq<Input>)
    ensures Reachable(After(c, inputs).machine.state)
    ensures Moved(After(c, inputs).machine, Shutdown).Some?
    ensures forall k :: 0 <= k < |inputs| ==> Tick(c, After(c, inputs[..k]), inputs[k]).Ran?
  {
    hide Tick;
    if inputs != [] {
      var n := |inputs| - 1;
      NeverRaises(c, inputs[..n]);
      BreachStops(c, After(c, inputs[..n]), inputs[n]);
      forall k | 0 <= k < |inputs|
        ensures Tick(c, After(c, inputs[..k]), inputs[k]).Ran?
      {
        if k < n {
          assert inputs[..n][..k] == inputs[..k] && inputs[..n][k] == inputs[k];
        }
      }
    }
  }

  /** Every ladder of every run is safe. */
  lemma EveryLadderIsSafe(c: Config, inputs: seq<Input>, k: nat)
    requires k < |inputs| && InOrder(inputs[k].clock)
    ensures var b := After(c, inputs[..k]);
      var o := Tick(c, b, inputs[k]);
      o.Ran? && (o.kind == Ladder ==> LadderIsSafe(c, b, inputs[k]))
  {
    hide Tick, LadderIsSafe;
    NeverRaises(c, inputs);
    NeverRaises(c, inputs[..k]);
    var b := After(c, inputs[..k]);
    if Tick(c, b, inputs[k]).kind == Ladder {
      LadderNeeds(c, b, inputs[k]);
    }
  }

  /** Tick k of the run is the first or a later one that breaks a limit. */
  predicate BreachAt(c: Config, inputs: seq<Input>, k: nat) {
    k < |inputs| && BreachTick(c, After(c, inputs[..k]), inputs[k])
  }

  /** The bot is in EMERGENCY exactly after some tick broke a limit; it stays there until it is shut
      down, and submits nothing any more. */
  lemma {:induction false} EmergencyIsFinal(c: Config, inputs: seq<Input>)
    ensures After(c, inputs).machine.state == Emergency <==> exists k: nat :: BreachAt(c, inputs, k)
  {
    hide Tick, BreachTick;
    if inputs != [] {
      var n := |inputs| - 1;
      NeverRaises(c, inputs[..n]);
      EmergencyIsFinal(c, inputs[..n]);
      BreachStops(c, After(c, inputs[..n]), inputs[n]);
      forall k: nat | k < n
        ensures BreachAt(c, inputs[..n], k) == BreachAt(c, inputs, k)
      {
        assert inputs[..n][..k] == inputs[..k];
      }
      if k: nat :| BreachAt(c, inputs[..n], k) {
        assert BreachAt(c, inputs, k);
      }
      if k: nat :| BreachAt(c, inputs, k) {
        if k < n {
          assert BreachAt(c, inputs[..n], k);
        }
      }
      if BreachTick(c, After(c, inputs[..n]), inputs[n]) {
        assert BreachAt(c, inputs, n);
      }
    }
  }

  /** After a tick that broke a limit, no later tick submits anything. */
  lemma NothingAfterBreach(c: Config, inputs: seq<Input>, k: nat, i: Input)
    requires BreachAt(c, inputs, k)
    ensures Tick(c, After(c, inputs), i).Ran? && Tick(c, After(c, inputs), i).kind == Nothing
            && Tick(c, After(c, inputs), i).submitted == []
  {
    EmergencyIsFinal(c, inputs);
    NeverRaises(c, inputs);
    BreachStops(c, After(c, inputs), i);
  }

  /** Under the bot a halt never clears, so the cap cooldown never starts. */
  lemma {:induction false} CapCooldownNeverStarts(c: Config, inputs: seq<Input>)
    ensures After(c, inputs).risk.capUntil == 0.0
    ensures After(c, inputs).risk.halted ==> After(c, inputs).machine.state == Emergency
  {
    if inputs != [] {
      var n := |inputs| - 1;
      CapCooldownNeverStarts(c, inputs[..n]);
      NeverRaises(c, inputs[..n]);
      var b := After(c, inputs[..n]);
      KeepsCapCooldown(c, b, inputs[n]);
    }
  }

  lemma KeepsCapCooldown(c: Config, b: Bot, i: Input)
    requires Reachable(b.machine.state) && b.risk.capUntil == 0.0 && (b.risk.halted ==> b.machine.state == Emergency)
    ensures var o := Tick(c, b, i);
      o.bot.risk.capUntil == 0.0 && (o.bot.risk.halted ==> o.bot.machine.state == Emergency)
  {
    hide RefPricing.Update, RefPricing.Expire, OwnPrices, RefPricing.SpikeRemainingMs, OverPosition;
    hide Crashed, Unblocked, RemainingMs, Refreshed;
  }

  /** Between ticks, a spike cooldown lasts at least as long as the protection, up to a millisecond. */
  lemma {:induction false} CooldownOutlastsSpike(c: Config, inputs: seq<Input>)
    requires forall k :: 0 <= k < |inputs| ==> InOrder(inputs[k].clock)
    ensures var b := After(c, inputs);
      b.machine.state == CooldownPriceSpike ==>
        0.0 < b.machine.until && (b.ref.spikeActive ==> b.ref.spikeUntil < b.machine.until + 0.001)
  {
    if inputs != [] {
      var n := |inputs| - 1;
      CooldownOutlastsSpike(c, inputs[..n]);
      NeverRaises(c, inputs[..n]);
      OutlastsStep(c, After(c, inputs[..n]), inputs[n]);
    }
  }

  predicate Outlasts(b: Bot) {
    b.machine.state == CooldownPriceSpike ==>
      0.0 < b.machine.until && (b.ref.spikeActive ==> b.ref.spikeUntil < b.machine.until + 0.001)
  }

  lemma OutlastsStep(c: Config, b: Bot, i: Input)
    requires Reachable(b.machine.state) && InOrder(i.clock) && Outlasts(b)
    ensures Outlasts(Tick(c, b, i).bot)
  {
    hide RefPricing.Update, RefPricing.Expire, OwnPrices, Evaluated, RefPricing.SpikeRemainingMs;
    hide Breach, RemainingMs, Unblocked, Refreshed;
    if !Idles(b, i) {
      var priced := Priced(c, b, i);
      if priced.ref.spikeActive {
        SpikeEntered(priced, i);
      }
      ShownKeeps(priced.ref, i.strategies);
    }
  }

  lemma {:induction false} ShownKeeps(ref: RefPricing.RefState, ss: seq<Strategy>)
    ensures Shown(ref, ss).spikeUntil == ref.spikeUntil
    ensures Shown(ref, ss).spikeActive ==> ref.spikeActive
  {
    if ss != [] {
      ShownKeeps(ref, ss[..|ss| - 1]);
    }
  }

  /** Showing the flag to the strategies ends a protection exactly if it is over when an active one is shown it. */
  lemma {:induction false} ShownExpires(ref: RefPricing.RefState, ss: seq<Strategy>)
    ensures Shown(ref, ss) == ref.(spikeActive := Shown(ref, ss).spikeActive)
    ensures Shown(ref, ss).spikeActive
            <==> ref.spikeActive && forall s :: s in ss && s.active ==> s.shown < ref.spikeUntil
  {
    if ss != [] {
      ShownExpires(ref, ss[..|ss| - 1]);
      assert ss == ss[..|ss| - 1] + [ss[|ss| - 1]];
    }
  }

  // ── Spike protection over a run ──

  /** The clock moves forward within every tick and from tick to tick. */
  ghost predicate Timely(inputs: seq<Input>) {
    && (forall k :: 0 <= k < |inputs| ==>
          && InOrder(inputs[k].clock)
          && ShownBetween(inputs[k].strategies, inputs[k].clock.judged, inputs[k].clock.resume))
    && forall j, k :: 0 <= j < k < |inputs| ==> inputs[j].clock.compliance <= inputs[k].clock.spike
  }

  /** The protection ends at `end`, and is active. */
  predicate Protected(ref: RefPricing.RefState, end: real) {
    ref.spikeActive && ref.spikeUntil == end
  }

  lemma {:induction false} ShownProtects(ref: RefPricing.RefState, ss: seq<Strategy>, end: real)
    requires Protected(ref, end) && forall k :: 0 <= k < |ss| ==> ss[k].shown < end
    ensures Protected(Shown(ref, ss), end)
  {
    if ss != [] {
      ShownProtects(ref, ss[..|ss| - 1], end);
    }
  }

  lemma PricedProtects(c: Config, b: Bot, i: Input, end: real)
    requires Protected(b.ref, end) && i.clock.query < end
    ensures Protected(Priced(c, b, i).ref, end)
  {
    hide OwnPrices, RefPricing.TopMid, RefPricing.Spikes, RefPricing.Excluding;
  }

  // A tick whose readings are all before the end of a protection keeps it.
  lemma TickProtects(c: Config, b: Bot, i: Input, end: real)
    requires Idles(b, i) ==> Protected(b.ref, end)
    requires !Idles(b, i) ==> Protected(Priced(c, b, i).ref, end)
    requires forall k :: 0 <= k < |i.strategies| ==> i.strategies[k].shown < end
    ensures Protected(Tick(c, b, i).bot.ref, end)
  {
    hide RefPricing.Update, RefPricing.Expire, OwnPrices, Evaluated, Unblocked, RemainingMs;
    hide Refreshed, Protected, Cooled, Shown;
    if !Idles(b, i) {
      ShownProtects(Priced(c, b, i).ref, i.strategies, end);
    }
  }

  lemma {:induction false} ProtectionHolds(c: Config, inputs: seq<Input>, k: nat, end: real)
    requires Timely(inputs) && k < |inputs| && inputs[|inputs| - 1].clock.resume < end
    requires !Idles(After(c, inputs[..k]), inputs[k])
    requires Protected(Priced(c, After(c, inputs[..k]), inputs[k]).ref, end)
    ensures Protected(After(c, inputs).ref, end)
  {
    var n := |inputs| - 1;
    hide Tick, Priced, Protected;
    if k < n {
      TimelyFront(inputs);
      assert inputs[..n][..k] == inputs[..k] && inputs[..n][k] == inputs[k];
      assert inputs[..n][n - 1] == inputs[n - 1];
      assert InOrder(inputs[n].clock) && InOrder(inputs[n - 1].clock);
      ProtectionHolds(c, inputs[..n], k, end);
      PricedProtects(c, After(c, inputs[..n]), inputs[n], end);
    }
    assert ShownBetween(inputs[n].strategies, inputs[n].clock.judged, inputs[n].clock.resume);
    TickProtects(c, After(c, inputs[..n]), inputs[n], end);
  }

  lemma TimelyFront(inputs: seq<Input>)
    requires Timely(inputs) && inputs != []
    ensures Timely(inputs[..|inputs| - 1])
  {
    hide InOrder, ShownBetween;
    var n := |inputs| - 1;
    assert forall k :: 0 <= k < n ==> inputs[..n][k] == inputs[k];
  }

  // A protection that one tick sees, a later one still sees.
  lemma StillProtected(c: Config, inputs: seq<Input>, k: nat, j: nat, end: real)
    requires Timely(inputs) && k <= j < |inputs|
    requires !Idles(After(c, inputs[..k]), inputs[k])
    requires Protected(Priced(c, After(c, inputs[..k]), inputs[k]).ref, end)
    requires inputs[j].clock.resume < end
    ensures Protected(Priced(c, After(c, inputs[..j]), inputs[j]).ref, end)
  {
    hide Tick, Priced, Protected, Idles, After;
    if k < j {
      TimelyPrefix(inputs, j);
      assert inputs[..j][..k] == inputs[..k] && inputs[..j][k] == inputs[k] && inputs[..j][j - 1] == inputs[j - 1];
      assert InOrder(inputs[j - 1].clock) && InOrder(inputs[j].clock);
      ProtectionHolds(c, inputs[..j], k, end);
      PricedProtects(c, After(c, inputs[..j]), inputs[j], end);
    }
  }

  /** From the tick that sees a protection on, no tick of the run submits a ladder as long as 2 ms or more
      of it are left. */
  lemma NoLadderWhileProtected(c: Config, inputs: seq<Input>, k: nat, j: nat, end: real)
    requires Timely(inputs) && k <= j < |inputs|
    requires !Idles(After(c, inputs[..k]), inputs[k])
    requires Protected(Priced(c, After(c, inputs[..k]), inputs[k]).ref, end)
    requires inputs[j].clock.resume + 0.002 <= end
    ensures Tick(c, After(c, inputs[..j]), inputs[j]).Ran? && Tick(c, After(c, inputs[..j]), inputs[j]).kind != Ladder
  {
    var b, i := After(c, inputs[..j]), inputs[j];
    NeverRaises(c, inputs);
    NeverRaises(c, inputs[..j]);
    assert InOrder(i.clock);
    StillProtected(c, inputs, k, j, end);
    hide Tick, Priced, Idles, After, Timely;
    if Tick(c, b, i).kind == Ladder {
      LadderNeeds(c, b, i);
    }
  }

  lemma TimelyPrefix(inputs: seq<Input>, j: nat)
    requires Timely(inputs) && j <= |inputs|
    ensures Timely(inputs[..j])
  {
    hide InOrder, ShownBetween;
    assert forall k :: 0 <= k < j ==> inputs[..j][k] == inputs[k];
  }

  /** The mid that the reference price is taken from; 0 without a price. */
  function SeenMid(i: Input): real {
    RefPricing.TopMid(RefPricing.Excluding(i.bestBid, OwnPrices(i.orders, Buy)),
                      RefPricing.Excluding(i.bestAsk, OwnPrices(i.orders, Sell)))
  }

  function MidsWith(mids: seq<Windows.Stamped<real>>, i: Input): seq<Windows.Stamped<real>> {
    if SeenMid(i) > 0.0 then mids + [Windows.Stamped(SeenMid(i), i.clock.spike)] else mids
  }

  lemma {:induction false} MidsUntil(c: Config, inputs: seq<Input>, now: real)
    requires Timely(inputs) && (inputs != [] ==> inputs[|inputs| - 1].clock.compliance <= now)
    ensures RefPricing.Before(After(c, inputs).ref.mids, now)
  {
    if inputs != [] {
      var n := |inputs| - 1;
      var b, i := After(c, inputs[..n]), inputs[n];
      assert InOrder(i.clock);
      TimelyFront(inputs);
      assert n > 0 ==> inputs[..n][n - 1] == inputs[n - 1];
      MidsUntil(c, inputs[..n], i.clock.spike);
      MidsOfTick(c, b, i);
      hide Tick, SeenMid, Timely;
      Windows.OrderSnoc(b.ref.mids, Windows.Stamped(SeenMid(i), i.clock.spike));
    }
  }

  lemma MidsOfTick(c: Config, b: Bot, i: Input)
    ensures Tick(c, b, i).bot.ref.mids == if Idles(b, i) then b.ref.mids else MidsWith(b.ref.mids, i)
  {
    ShownMids(Priced(c, b, i).ref, i.strategies);
    PricedMids(c, b, i);
    hide RefPricing.Update, RefPricing.Expire, OwnPrices, Evaluated, Unblocked, RemainingMs;
    hide Refreshed, Cooled, Shown, MidsWith;
  }

  lemma PricedMids(c: Config, b: Bot, i: Input)
    ensures Priced(c, b, i).ref.mids == MidsWith(b.ref.mids, i)
  {
    hide OwnPrices, RefPricing.TopMid, RefPricing.Spikes, RefPricing.Excluding;
  }

  lemma {:induction false} ShownMids(ref: RefPricing.RefState, ss: seq<Strategy>)
    ensures Shown(ref, ss).mids == ref.mids
  {
    if ss != [] {
      ShownMids(ref, ss[..|ss| - 1]);
    }
  }

  /** The mid of a tick lies the threshold away from the oldest mid in the window before it. */
  ghost predicate SeesSpike(c: Config, b: Bot, i: Input) {
    && 0.0 < SeenMid(i)
    && RefPricing.FarFromFirst(c.ref, Windows.InWindow(b.ref.mids, i.clock.spike - c.ref.spikeWindow), SeenMid(i))
  }

  /** When the protection ends that a tick with a spike leaves: one that was flagged before is not renewed. */
  function ProtectionEnd(c: Config, b: Bot, i: Input): real {
    if b.ref.spikeActive then b.ref.spikeUntil else i.clock.spike + c.ref.spikeCooldown
  }

  /** Whatever was flagged before, a spike keeps ladders away until the end of the protection that is then in
      force, up to 2 ms; that is for the whole cooldown if no protection was flagged. */
  lemma SpikeSuppresses(c: Config, inputs: seq<Input>, k: nat, j: nat)
    requires Timely(inputs) && k <= j < |inputs| && 0.0 <= c.ref.spikeWindow
    requires var b := After(c, inputs[..k]); !Idles(b, inputs[k]) && SeesSpike(c, b, inputs[k])
    requires inputs[j].clock.resume + 0.002 <= ProtectionEnd(c, After(c, inputs[..k]), inputs[k])
    ensures Tick(c, After(c, inputs[..j]), inputs[j]).Ran? && Tick(c, After(c, inputs[..j]), inputs[j]).kind != Ladder
  {
    var b, i := After(c, inputs[..k]), inputs[k];
    TimelyPrefix(inputs, k);
    assert k > 0 ==> inputs[..k][k - 1] == inputs[k - 1];
    assert InOrder(i.clock) && InOrder(inputs[j].clock);
    MidsUntil(c, inputs[..k], i.clock.spike);
    SpikeProtects(c, b, i);
    assert i.clock.query < ProtectionEnd(c, b, i) by {
      assert k < j ==> inputs[k].clock.compliance <= inputs[j].clock.spike;
    }
    hide Tick, Priced, Idles, SeesSpike, ProtectionEnd;
    NoLadderWhileProtected(c, inputs, k, j, ProtectionEnd(c, b, i));
  }

  // After pricing, the protection is in force exactly until then.
  lemma SpikeProtects(c: Config, b: Bot, i: Input)
    requires SeesSpike(c, b, i) && 0.0 <= c.ref.spikeWindow && RefPricing.Before(b.ref.mids, i.clock.spike)
    ensures Priced(c, b, i).ref.spikeUntil == ProtectionEnd(c, b, i)
    ensures Priced(c, b, i).ref.spikeActive <==> i.clock.query < ProtectionEnd(c, b, i)
  {
    RefPricing.SpikeRule(c.ref, b.ref, i.bestBid, i.bestAsk, OwnPrices(i.orders, Buy), OwnPrices(i.orders, Sell),
                         i.clock.spike, i.clock.twap);
    hide RefPricing.Update, OwnPrices, RefPricing.FarFromFirst, RefPricing.TopMid;
  }

  /** The documented protection, for the cooldown from the spike on, is in force after pricing if and only if no
      protection was flagged, or one with that very end. Otherwise the flagged one keeps its end, and is over at
      once if that has passed. */
  lemma ProtectsForCooldownWhen(c: Config, b: Bot, i: Input)
    requires SeesSpike(c, b, i) && 0.0 <= c.ref.spikeWindow && RefPricing.Before(b.ref.mids, i.clock.spike)
    requires i.clock.query < i.clock.spike + c.ref.spikeCooldown
    ensures Protected(Priced(c, b, i).ref, i.clock.spike + c.ref.spikeCooldown)
            <==> !b.ref.spikeActive || b.ref.spikeUntil == i.clock.spike + c.ref.spikeCooldown
    ensures b.ref.spikeActive ==>
      && Priced(c, b, i).ref.spikeUntil == b.ref.spikeUntil
      && (Priced(c, b, i).ref.spikeActive <==> i.clock.query < b.ref.spikeUntil)
  {
    SpikeProtects(c, b, i);
    hide Priced, SeesSpike;
  }

  /** A spike seen while an expired protection is still flagged does not even suppress its own tick: out of a
      spike cooldown that is over up to 1 ms, everything desired is submitted if nothing else is in the way. */
  lemma SpikeUnprotected(c: Config, b: Bot, i: Input)
    requires SeesSpike(c, b, i) && 0.0 <= c.ref.spikeWindow && RefPricing.Before(b.ref.mids, i.clock.spike)
    requires InOrder(i.clock) && b.ref.spikeActive && b.ref.spikeUntil <= i.clock.query
    requires b.machine.state == CooldownPriceSpike && 0.0 < b.machine.until < i.clock.resume + 0.001
    requires i.mid > 0.0 && !BreachTick(c, b, i) && Unblocked(i.timers, i.clock.price, i.clock.fill)
    ensures var o := Tick(c, b, i);
      o.Ran? && o.kind == Ladder && o.submitted == if c.dryRun then [] else AllDesired(i.strategies)
  {
    SpikeProtects(c, b, i);
    hide Tick, BreachTick, Priced, SeesSpike;
    LadderExactly(c, b, i);
  }
}

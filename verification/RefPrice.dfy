// price/ref_price_engine.py: the reference price without own orders, spike protection, TWAP.
//
// RefPricing is the specification over the full history of mids; RefPriceEngine keeps only
// the trimmed deques.

module RefPricing {
  import opened Types
  import opened Rounding
  import opened Windows
  import opened Averages

  const TWAP_SECONDS := 30.0

  datatype Config = Config(spikeThresholdBps: real, spikeWindow: real, spikeCooldown: real)

  /** `mids` and `twaps` are all the mids ever seen, as stamped for the spike check and the TWAP. */
  datatype RefState = RefState(
    ref: real, refBid: real, refAsk: real,
    mids: seq<Stamped<real>>, twaps: seq<Stamped<real>>,
    spikeActive: bool, spikeUntil: real)

  const InitialRef := RefState(0.0, 0.0, 0.0, [], [], false, 0.0)

  /** The book's top without own orders; 0 when there is nothing to price from. */
  function TopMid(bid: real, ask: real): real {
    if bid > 0.0 && ask > 0.0 then (bid + ask) / 2.0
    else if ask > 0.0 then ask
    else if bid > 0.0 then bid
    else 0.0
  }

  function Excluding(price: real, own: set<real>): real {
    if price in own then 0.0 else price
  }

  function ChangeBps(mid: real, was: real): real
    requires was != 0.0
  {
    Abs(mid - was) / was * 10000.0
  }

  /** The window ending with the current mid spans a spike: it holds an older mid, and the oldest
      of them is the threshold away. */
  predicate Spikes(c: Config, window: seq<Stamped<real>>, mid: real) {
    |window| >= 2 && window[0].item > 0.0 && ChangeBps(mid, window[0].item) >= c.spikeThresholdBps
  }

  /** `update`, with the clock read for the spike check and again for the TWAP. */
  function Update(c: Config, s: RefState, bestBid: real, bestAsk: real, ownBids: set<real>, ownAsks: set<real>,
                  now: real, later: real): RefState {
    var bid, ask := Excluding(bestBid, ownBids), Excluding(bestAsk, ownAsks);
    var mid := TopMid(bid, ask);
    if mid <= 0.0 then s
    else
      var mids := s.mids + [Stamped(mid, now)];
      var spike := Spikes(c, InWindow(mids, now - c.spikeWindow), mid) && !s.spikeActive;
      RefState(mid, if bid > 0.0 then bid else mid, if ask > 0.0 then ask else mid,
               mids, s.twaps + [Stamped(mid, later)],
               s.spikeActive || spike, if spike then now + c.spikeCooldown else s.spikeUntil)
  }

  /** Reading `spike_protection_active` ends an expired protection. */
  function Expire(s: RefState, now: real): RefState {
    if s.spikeActive && now >= s.spikeUntil then s.(spikeActive := false) else s
  }

  function SpikeRemainingMs(s: RefState, now: real): nat {
    if s.spikeActive then WholeMs(s.spikeUntil - now) else 0
  }

  /** The remaining milliseconds are the whole ones of what is left of an active protection, so they are
      none exactly when it is inactive or less than 1 ms is left, up to 1 ms before the flag expires. */
  lemma RemainingMsMeans(s: RefState, now: real)
    ensures SpikeRemainingMs(s, now) == 0 <==> !s.spikeActive || s.spikeUntil < now + 0.001
    ensures var ms := SpikeRemainingMs(s, now);
      s.spikeActive && now < s.spikeUntil ==>
        now + ms as real / 1000.0 <= s.spikeUntil < now + (ms + 1) as real / 1000.0
    ensures Expire(s, now).spikeActive <==> s.spikeActive && now < s.spikeUntil
  {
    var ms, left := WholeMs(s.spikeUntil - now), (s.spikeUntil - now) * 1000.0;
    if now < s.spikeUntil {
      assert ms as real <= left < (ms + 1) as real;
    }
  }

  function Twap(s: RefState, now: real): real {
    var w := InWindow(s.twaps, now - TWAP_SECONDS);
    if w == [] then s.ref else Mean(Items(w))
  }

  ghost predicate Before(history: seq<Stamped<real>>, now: real) {
    InTimeOrder(history) && forall e :: e in history ==> e.at <= now
  }

  /** A positive best price that is not an own one. */
  ghost predicate Seen(price: real, own: set<real>) {
    0.0 < price && price !in own
  }

  /** The reference is halfway between the best prices when both are seen, and else the one that is; it is
      recorded twice, at the two readings. With neither nothing changes. */
  lemma ReferenceMeans(c: Config, s: RefState, bestBid: real, bestAsk: real, ownBids: set<real>, ownAsks: set<real>,
                       now: real, later: real)
    ensures var t := Update(c, s, bestBid, bestAsk, ownBids, ownAsks, now, later);
      var bid, ask := Seen(bestBid, ownBids), Seen(bestAsk, ownAsks);
      && (bid && ask ==> t.ref - bestBid == bestAsk - t.ref)
      && (bid && !ask ==> t.ref == bestBid) && (!bid && ask ==> t.ref == bestAsk)
      && (bid || ask ==> t.refBid == if bid then bestBid else bestAsk)
      && (bid || ask ==> t.refAsk == if ask then bestAsk else bestBid)
      && (bid || ask ==> t.mids == s.mids + [Stamped(t.ref, now)] && t.twaps == s.twaps + [Stamped(t.ref, later)])
      && (!bid && !ask ==> t == s)
  {
    hide Spikes;
  }

  // ── The reference as documented ──

  /** The best of some prices, best first, that is not an own one; 0 without any. */
  function NextBest(prices: seq<real>, own: set<real>): real {
    if prices == [] then 0.0 else if prices[0] in own then NextBest(prices[1..], own) else prices[0]
  }

  function Best(prices: seq<real>): real {
    if prices == [] then 0.0 else prices[0]
  }

  /** The mid with the next best level in place of an own best one. */
  function DocumentedMid(bids: seq<real>, asks: seq<real>, ownBids: set<real>, ownAsks: set<real>): real {
    TopMid(NextBest(bids, ownBids), NextBest(asks, ownAsks))
  }

  /** The mid that the code computes, from the best prices alone. */
  function ComputedMid(bids: seq<real>, asks: seq<real>, ownBids: set<real>, ownAsks: set<real>): real {
    TopMid(Excluding(Best(bids), ownBids), Excluding(Best(asks), ownAsks))
  }

  /** Prices are positive, and every bid is below every ask. */
  ghost predicate Uncrossed(bids: seq<real>, asks: seq<real>) {
    && (forall b :: b in bids ==> 0.0 < b) && (forall a :: a in asks ==> 0.0 < a)
    && forall b, a :: b in bids && a in asks ==> b < a
  }

  /** The best price is not an own one, or all are. */
  predicate NothingToSkip(prices: seq<real>, own: set<real>) {
    prices == [] || prices[0] !in own || forall p :: p in prices ==> p in own
  }

  lemma {:induction false} NextBestIs(prices: seq<real>, own: set<real>)
    requires forall p :: p in prices ==> 0.0 < p
    ensures NextBest(prices, own) == 0.0 <==> forall p :: p in prices ==> p in own
    ensures NextBest(prices, own) == 0.0 || (NextBest(prices, own) in prices && NextBest(prices, own) !in own)
  {
    if prices != [] {
      assert prices == [prices[0]] + prices[1..];
      assert forall p :: p in prices <==> p == prices[0] || p in prices[1..];
      NextBestIs(prices[1..], own);
    }
  }

  /** The computed mid is the documented one if and only if on neither side a better price of others lies
      behind an own best one. */
  lemma MidIsDocumentedWhen(bids: seq<real>, asks: seq<real>, ownBids: set<real>, ownAsks: set<real>)
    requires Uncrossed(bids, asks)
    ensures ComputedMid(bids, asks, ownBids, ownAsks) == DocumentedMid(bids, asks, ownBids, ownAsks)
            <==> NothingToSkip(bids, ownBids) && NothingToSkip(asks, ownAsks)
  {
    NextBestIs(bids, ownBids);
    NextBestIs(asks, ownAsks);
    SideSkips(bids, ownBids);
    SideSkips(asks, ownAsks);
    var nb, na := NextBest(bids, ownBids), NextBest(asks, ownAsks);
    assert nb != 0.0 && na != 0.0 ==> nb < na;
    hide NextBest, Excluding, Best;
  }

  // What the code takes of a side is the next best price, or nothing where that is behind an own one.
  lemma SideSkips(prices: seq<real>, own: set<real>)
    requires forall p :: p in prices ==> 0.0 < p
    ensures 0.0 <= NextBest(prices, own)
    ensures Excluding(Best(prices), own) == if NothingToSkip(prices, own) then NextBest(prices, own) else 0.0
    ensures !NothingToSkip(prices, own) ==> 0.0 < NextBest(prices, own)
  {
    NextBestIs(prices, own);
  }

  /** With an own best bid at 99 above another one at 98 the reference is the ask of 101, not the mid of 99.5. */
  lemma OwnBidIsNotReplaced(c: Config)
    ensures Update(c, InitialRef, 99.0, 101.0, {99.0}, {}, 1.0, 1.0).ref == 101.0
    ensures DocumentedMid([99.0, 98.0], [101.0], {99.0}, {}) == 99.5
  {
    assert NextBest([99.0, 98.0], {99.0}) == 98.0;
  }

  // ── Spikes ──

  // The rule for spikes, with the change as it is computed.
  lemma SpikeByBps(c: Config, s: RefState, bestBid: real, bestAsk: real, ownBids: set<real>, ownAsks: set<real>,
                   now: real, later: real)
    requires 0.0 <= c.spikeWindow && Before(s.mids, now)
    ensures var t := Update(c, s, bestBid, bestAsk, ownBids, ownAsks, now, later);
      var mid := TopMid(Excluding(bestBid, ownBids), Excluding(bestAsk, ownAsks));
      var earlier := InWindow(s.mids, now - c.spikeWindow);
      var spike := 0.0 < mid && FarInBps(c, earlier, mid);
      && (t.spikeActive <==> s.spikeActive || spike)
      && t.spikeUntil == (if spike && !s.spikeActive then now + c.spikeCooldown else s.spikeUntil)
      && (earlier != [] ==> IsOldest(earlier[0], s.mids, now - c.spikeWindow))
  {
    hide ChangeBps, TopMid, Excluding;
    var mid := TopMid(Excluding(bestBid, ownBids), Excluding(bestAsk, ownAsks));
    WindowWithCurrent(s.mids, Stamped(mid, now), now - c.spikeWindow);
    var earlier := InWindow(s.mids, now - c.spikeWindow);
    if earlier != [] {
      WindowStartsWithOldest(s.mids, now - c.spikeWindow);
    }
  }

  /** A spike is a mid that differs by the threshold from the oldest earlier one in the window. It starts a
      protection for the cooldown exactly when the flag is not set; a set flag, expired or not, stays as it
      is, with its deadline. */
  lemma SpikeRule(c: Config, s: RefState, bestBid: real, bestAsk: real, ownBids: set<real>, ownAsks: set<real>,
                  now: real, later: real)
    requires 0.0 <= c.spikeWindow && Before(s.mids, now)
    ensures var t := Update(c, s, bestBid, bestAsk, ownBids, ownAsks, now, later);
      var mid := TopMid(Excluding(bestBid, ownBids), Excluding(bestAsk, ownAsks));
      var earlier := InWindow(s.mids, now - c.spikeWindow);
      var spike := 0.0 < mid && FarFromFirst(c, earlier, mid);
      && (t.spikeActive <==> s.spikeActive || spike)
      && t.spikeUntil == (if spike && !s.spikeActive then now + c.spikeCooldown else s.spikeUntil)
      && (earlier != [] ==> IsOldest(earlier[0], s.mids, now - c.spikeWindow))
  {
    SpikeByBps(c, s, bestBid, bestAsk, ownBids, ownAsks, now, later);
    FarMeans(c, InWindow(s.mids, now - c.spikeWindow),
             TopMid(Excluding(bestBid, ownBids), Excluding(bestAsk, ownAsks)));
    hide *;
  }

  ghost predicate FarFromFirst(c: Config, earlier: seq<Stamped<real>>, mid: real) {
    && earlier != [] && 0.0 < earlier[0].item
    && Abs(mid - earlier[0].item) * 10000.0 >= Times(c.spikeThresholdBps, earlier[0].item)
  }

  ghost predicate FarInBps(c: Config, earlier: seq<Stamped<real>>, mid: real) {
    earlier != [] && 0.0 < earlier[0].item && ChangeBps(mid, earlier[0].item) >= c.spikeThresholdBps
  }

  lemma FarMeans(c: Config, earlier: seq<Stamped<real>>, mid: real)
    ensures FarInBps(c, earlier, mid) <==> FarFromFirst(c, earlier, mid)
  {
    if earlier != [] && 0.0 < earlier[0].item {
      BpsMean(c, mid, earlier[0].item);
    }
    hide ChangeBps, Times;
  }

  lemma BpsMean(c: Config, mid: real, was: real)
    requires 0.0 < was
    ensures ChangeBps(mid, was) >= c.spikeThresholdBps
            <==> Abs(mid - was) * 10000.0 >= Times(c.spikeThresholdBps, was)
  {
    var x := ChangeBps(mid, was);
    assert x * was == Abs(mid - was) * 10000.0;
    if x >= c.spikeThresholdBps {
      assert 0.0 <= (x - c.spikeThresholdBps) * was;
    } else {
      assert 0.0 < (c.spikeThresholdBps - x) * was;
    }
  }

  /** e is in the history and not older than the cutoff, and nothing else that young is older. */
  ghost predicate IsOldest(e: Stamped<real>, history: seq<Stamped<real>>, cutoff: real) {
    && e in history && e.at >= cutoff
    && forall x :: x in history && x.at >= cutoff ==> e.at <= x.at
  }

  lemma WindowWithCurrent(mids: seq<Stamped<real>>, e: Stamped<real>, cutoff: real)
    requires cutoff <= e.at
    ensures InWindow(mids + [e], cutoff) == InWindow(mids, cutoff) + [e]
  {
    InWindowConcat(mids, [e], cutoff);
    assert [e][..0] == [];
  }

  /** The TWAP times the number of mids of the last 30 seconds is their total; without any it is the reference. */
  lemma TwapMeans(s: RefState, now: real)
    ensures var w := InWindow(s.twaps, now - 30.0);
      && (w == [] ==> Twap(s, now) == s.ref)
      && (w != [] ==> Twap(s, now) * |w| as real == Sum(seq(|w|, i requires 0 <= i < |w| => w[i].item)))
  {
    var w := InWindow(s.twaps, now - 30.0);
    if w != [] {
      assert Items(w) == seq(|w|, i requires 0 <= i < |w| => w[i].item);
      MeanTimesCount(Items(w));
    }
  }

  /** The TWAP is the mean of the mids of the last 30 seconds, so it lies between any bounds of them. */
  lemma TwapWithin(s: RefState, now: real, lo: real, hi: real)
    requires exists e :: e in s.twaps && e.at >= now - TWAP_SECONDS
    requires forall e :: e in s.twaps && e.at >= now - TWAP_SECONDS ==> lo <= e.item <= hi
    ensures lo <= Twap(s, now) <= hi
  {
    var w := InWindow(s.twaps, now - TWAP_SECONDS);
    InWindowMembers(s.twaps, now - TWAP_SECONDS);
    var e :| e in s.twaps && e.at >= now - TWAP_SECONDS;
    assert e in w;
    forall i | 0 <= i < |Items(w)|
      ensures lo <= Items(w)[i] <= hi
    {
      assert w[i] in w;
    }
    MeanWithin(Items(w), lo, hi);
  }
}

module RefPriceEngine {
  import opened Types
  import opened Rounding
  import opened Windows
  import opened Averages
  import opened RefPricing

  class LiveRefPriceEngine {
    const config: Config
    var ref: real
    var refBid: real
    var refAsk: real
    var twapWindow: seq<Stamped<real>>
    var midHistory: seq<Stamped<real>>
    var spikeActive: bool
    var spikeUntil: real

    // The full histories, where the deques were last cut, and the latest clock reading.
    ghost var mids: seq<Stamped<real>>
    ghost var twaps: seq<Stamped<real>>
    ghost var midCut: real
    ghost var twapCut: real
    ghost var lastRead: real

    ghost function State(): RefState
      reads this
    {
      RefState(ref, refBid, refAsk, mids, twaps, spikeActive, spikeUntil)
    }

    ghost predicate Valid()
      reads this
    {
      && midHistory == InWindow(mids, midCut) && midCut <= lastRead - config.spikeWindow
      && twapWindow == InWindow(twaps, twapCut) && twapCut <= lastRead - TWAP_SECONDS
      && Before(mids, lastRead) && Before(twaps, lastRead)
    }

    constructor (c: Config, ghost now: real)
      ensures Valid() && config == c && State() == InitialRef && lastRead == now
    {
      config := c;
      ref, refBid, refAsk, twapWindow, midHistory := 0.0, 0.0, 0.0, [], [];
      spikeActive, spikeUntil := false, 0.0;
      mids, twaps, midCut, twapCut, lastRead := [], [], now - c.spikeWindow, now - TWAP_SECONDS, now;
    }

    // Appends a mid and cuts what is too old.
    method RecordMid(mid: real, now: real)
      requires midHistory == InWindow(mids, midCut) && midCut <= now - config.spikeWindow && Before(mids, now)
      modifies this`midHistory, this`mids, this`midCut
      ensures mids == old(mids) + [Stamped(mid, now)] && Before(mids, now)
      ensures midCut == now - config.spikeWindow && midHistory == InWindow(mids, midCut)
    {
      var e := Stamped(mid, now);
      OrderSnoc(mids, e);
      NextInWindow(mids, midCut, e, now - config.spikeWindow);
      midHistory := Trim(midHistory + [e], now - config.spikeWindow);
      mids, midCut := mids + [e], now - config.spikeWindow;
    }

    // Records a mid, and flags a spike against the oldest mid left.
    method CheckSpike(mid: real, now: real)
      requires midHistory == InWindow(mids, midCut) && midCut <= now - config.spikeWindow && Before(mids, now)
      modifies this`midHistory, this`mids, this`midCut, this`spikeActive, this`spikeUntil
      ensures mids == old(mids) + [Stamped(mid, now)] && Before(mids, now)
      ensures midCut == now - config.spikeWindow && midHistory == InWindow(mids, midCut)
      ensures var spike := Spikes(config, midHistory, mid) && !old(spikeActive);
        && spikeActive == (old(spikeActive) || spike)
        && spikeUntil == if spike then now + config.spikeCooldown else old(spikeUntil)
    {
      hide InWindow, Before, ChangeBps;
      RecordMid(mid, now);
      if |midHistory| < 2 {
        return;
      }
      var oldMid := midHistory[0].item;
      if oldMid <= 0.0 {
        return;
      }
      var changeBps := ChangeBps(mid, oldMid);
      if changeBps >= config.spikeThresholdBps && !spikeActive {
        spikeActive, spikeUntil := true, now + config.spikeCooldown;
      }
    }

    // Appends a mid to the TWAP window and cuts what is too old.
    method RecordTwap(mid: real, now: real)
      requires twapWindow == InWindow(twaps, twapCut) && twapCut <= now - TWAP_SECONDS && Before(twaps, now)
      modifies this`twapWindow, this`twaps, this`twapCut
      ensures twaps == old(twaps) + [Stamped(mid, now)] && Before(twaps, now)
      ensures twapCut == now - TWAP_SECONDS && twapWindow == InWindow(twaps, twapCut)
    {
      var e := Stamped(mid, now);
      OrderSnoc(twaps, e);
      NextInWindow(twaps, twapCut, e, now - TWAP_SECONDS);
      twapWindow := Trim(twapWindow + [e], now - TWAP_SECONDS);
      twaps, twapCut := twaps + [e], now - TWAP_SECONDS;
    }

    /** Keeping trimmed deques amounts to keeping the full history. */
    method UpdatePrice(bestBid: real, bestAsk: real, ownBids: set<real>, ownAsks: set<real>, now: real, later: real)
      requires Valid() && lastRead <= now <= later
      modifies this
      ensures Valid() && lastRead == later
      ensures State() == Update(config, old(State()), bestBid, bestAsk, ownBids, ownAsks, now, later)
    {
      hide InWindow, Before, Spikes;
      BeforeLater(mids, lastRead, later);
      BeforeLater(twaps, lastRead, later);
      lastRead := later;
      var bid, ask := Excluding(bestBid, ownBids), Excluding(bestAsk, ownAsks);
      var mid: real;
      if bid > 0.0 && ask > 0.0 {
        mid := (bid + ask) / 2.0;
      } else if ask > 0.0 {
        mid := ask;
      } else if bid > 0.0 {
        mid := bid;
      } else {
        return;
      }
      ref := mid;
      refBid := if bid > 0.0 then bid else ref;
      refAsk := if ask > 0.0 then ask else ref;
      BeforeLater(mids, old(lastRead), now);
      BeforeLater(twaps, old(lastRead), later);
      CheckSpike(mid, now);
      BeforeLater(mids, now, later);
      RecordTwap(mid, later);
    }

    method SpikeProtectionActive(now: real) returns (active: bool)
      requires Valid() && lastRead <= now
      modifies this`spikeActive, this`lastRead
      ensures Valid() && lastRead == now && State() == Expire(old(State()), now) && active == spikeActive
    {
      if spikeActive && now >= spikeUntil {
        spikeActive := false;
      }
      lastRead := now;
      active := spikeActive;
    }

    /** Waiting for the remaining milliseconds never outlasts the protection, and ends less than 1 ms
        before it. */
    method SpikeCooldownRemainingMs(now: real) returns (ms: nat)
      ensures ms == SpikeRemainingMs(State(), now)
      ensures ms == 0 <==> !spikeActive || spikeUntil < now + 0.001
      ensures spikeActive && now < spikeUntil ==>
        now + ms as real / 1000.0 <= spikeUntil < now + (ms + 1) as real / 1000.0
    {
      RemainingMsMeans(State(), now);
      hide WholeMs;
      if !spikeActive {
        return 0;
      }
      ms := WholeMs(spikeUntil - now);
    }

    method TwapPrice(now: real) returns (price: real)
      requires Valid() && lastRead <= now
      modifies this`twapWindow, this`twapCut, this`lastRead
      ensures Valid() && lastRead == now && State() == old(State()) && price == Twap(State(), now)
    {
      hide InWindow, InTimeOrder, Before, Mean;
      CutAgain(twaps, lastRead, twapCut, now - TWAP_SECONDS);
      BeforeLater(mids, lastRead, now);
      BeforeLater(twaps, lastRead, now);
      twapWindow := Trim(twapWindow, now - TWAP_SECONDS);
      twapCut, lastRead := now - TWAP_SECONDS, now;
      price := if twapWindow == [] then ref else Mean(Items(twapWindow));
    }
  }

  lemma CutAgain(history: seq<Stamped<real>>, now: real, cut: real, later: real)
    requires Before(history, now) && cut <= later
    ensures InTimeOrder(InWindow(history, cut)) && InWindow(InWindow(history, cut), later) == InWindow(history, later)
  {
    hide InWindow;
    InWindowInOrder(history, cut);
    InWindowTwice(history, cut, later);
  }

  lemma BeforeLater(history: seq<Stamped<real>>, now: real, later: real)
    requires Before(history, now) && now <= later
    ensures Before(history, later)
  {
  }
}

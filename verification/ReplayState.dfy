// replay/engine.py: the market that a replay feeds, the fills that it simulates, and what waits in the
// recorder from one snapshot to the next.

module ReplayStates {
  import opened Types
  import opened MarkoutLog
  import opened Metrics

  datatype MarketSnapshot = MarketSnapshot(timestamp: real, bestBid: real, bestAsk: real, lastPrice: real)

  function Mid(snap: MarketSnapshot): real {
    if snap.bestBid <= 0.0 || snap.bestAsk <= 0.0 then snap.lastPrice else (snap.bestBid + snap.bestAsk) / 2.0
  }

  /** The price at which an order would fill at once, if it crosses the market. */
  function CrossesMarket(req: OrderRequest, snap: MarketSnapshot): Option<real> {
    if req.side == Buy && req.price >= snap.bestAsk > 0.0 then Some(snap.bestAsk)
    else if req.side == Sell && req.price <= snap.bestBid && snap.bestBid > 0.0 then Some(snap.bestBid)
    else None
  }

  /** The best price of the other side, which an order fills at. */
  ghost function OtherBest(req: OrderRequest, snap: MarketSnapshot): real {
    if req.side == Buy then snap.bestAsk else snap.bestBid
  }

  /** The other side has a price that is no worse than the limit. */
  ghost predicate Reaches(req: OrderRequest, snap: MarketSnapshot) {
    0.0 < OtherBest(req, snap)
    && if req.side == Buy then snap.bestAsk <= req.price else req.price <= snap.bestBid
  }

  /** An order fills exactly when it reaches the other side, at the best price there. */
  lemma FillsRespectLimits(req: OrderRequest, snap: MarketSnapshot)
    ensures CrossesMarket(req, snap) == if Reaches(req, snap) then Some(OtherBest(req, snap)) else None
  {
  }

  /** Halfway between the best prices, or the last price when a side is empty. */
  ghost predicate IsMid(snap: MarketSnapshot, mid: real) {
    if 0.0 < snap.bestBid && 0.0 < snap.bestAsk then mid - snap.bestBid == snap.bestAsk - mid
    else mid == snap.lastPrice
  }

  lemma MidMeans(snap: MarketSnapshot)
    ensures IsMid(snap, Mid(snap))
  {
  }

  function OrderFill(req: OrderRequest, snap: MarketSnapshot): seq<FillRecord> {
    match CrossesMarket(req, snap)
    case Some(p) => [FillRecord(snap.timestamp, req.side, p, req.size)]
    case None => []
  }

  /** The fills of a snapshot, in the order of the strategy's orders. */
  function FillsOf(desired: seq<OrderRequest>, snap: MarketSnapshot): seq<FillRecord> {
    if desired == [] then []
    else FillsOf(desired[..|desired| - 1], snap) + OrderFill(desired[|desired| - 1], snap)
  }

  /** One snapshot of the feed, and what the strategy wants at it. */
  datatype Frame = Frame(snap: MarketSnapshot, desired: seq<OrderRequest>)

  function AllFills(frames: seq<Frame>): seq<FillRecord> {
    if frames == [] then []
    else AllFills(frames[..|frames| - 1]) + FillsOf(frames[|frames| - 1].desired, frames[|frames| - 1].snap)
  }

  ghost predicate InTime(frames: seq<Frame>) {
    forall i, j :: 0 <= i < j < |frames| ==> frames[i].snap.timestamp <= frames[j].snap.timestamp
  }

  lemma FillsOfStep(desired: seq<OrderRequest>, i: nat, snap: MarketSnapshot)
    requires i < |desired|
    ensures FillsOf(desired[..i + 1], snap) == FillsOf(desired[..i], snap) + OrderFill(desired[i], snap)
    ensures FillsOf(desired[..0], snap) == [] && FillsOf(desired[..|desired|], snap) == FillsOf(desired, snap)
  {
    assert desired[..i + 1][..i] == desired[..i];
    assert desired[..|desired|] == desired;
  }

  lemma NoFrames()
    ensures AllFills([]) == []
  {
  }

  lemma AllFillsStep(frames: seq<Frame>, i: nat)
    requires i < |frames|
    ensures AllFills(frames[..i + 1]) == AllFills(frames[..i]) + FillsOf(frames[i].desired, frames[i].snap)
  {
    assert frames[..i + 1][..i] == frames[..i];
  }

  // ── What waits ──

  /** The records judged so far, those completed but not judged, and those that still miss a mark. */
  datatype Wait = Wait(judged: seq<Record>, finished: seq<Record>, pending: seq<Record>)

  /** The record of an order's fill. */
  function OrderRecord(req: OrderRequest, snap: MarketSnapshot): seq<Record> {
    match CrossesMarket(req, snap)
    case Some(p) => [Record("replay", req.side, p, req.size, Mid(snap), map[], snap.timestamp)]
    case None => []
  }

  function RecordsOf(desired: seq<OrderRequest>, snap: MarketSnapshot): seq<Record> {
    if desired == [] then []
    else RecordsOf(desired[..|desired| - 1], snap) + OrderRecord(desired[|desired| - 1], snap)
  }

  lemma {:induction false} RecordsAreFills(desired: seq<OrderRequest>, snap: MarketSnapshot)
    ensures |RecordsOf(desired, snap)| == |FillsOf(desired, snap)|
    ensures forall r :: r in RecordsOf(desired, snap) ==> r.midsAfter == map[] && r.fillTime == snap.timestamp
  {
    if desired != [] {
      RecordsAreFills(desired[..|desired| - 1], snap);
    }
  }

  lemma RecordsOfStep(desired: seq<OrderRequest>, i: nat, snap: MarketSnapshot)
    requires i < |desired|
    ensures RecordsOf(desired[..i + 1], snap) == RecordsOf(desired[..i], snap) + OrderRecord(desired[i], snap)
    ensures RecordsOf(desired[..0], snap) == [] && RecordsOf(desired[..|desired|], snap) == RecordsOf(desired, snap)
  {
    assert desired[..i + 1][..i] == desired[..i];
    assert desired[..|desired|] == desired;
  }

  // ── What is logged ──

  function Logged(rs: seq<Record>): seq<Event> {
    seq(|rs|, i requires 0 <= i < |rs| => Filled(rs[i]))
  }

  /** A snapshot is logged as one update, and then its fills. */
  function FrameLog(frame: Frame): seq<Event> {
    [MidUpdate(Mid(frame.snap), frame.snap.timestamp)] + Logged(RecordsOf(frame.desired, frame.snap))
  }

  function FeedLog(frames: seq<Frame>): seq<Event> {
    if frames == [] then [] else FeedLog(frames[..|frames| - 1]) + FrameLog(frames[|frames| - 1])
  }

  lemma LoggedConcat(a: seq<Record>, b: seq<Record>)
    ensures Logged(a + b) == Logged(a) + Logged(b) && Logged([]) == []
  {
  }

  lemma FeedLogStep(frames: seq<Frame>, i: nat)
    requires i < |frames|
    ensures FeedLog(frames[..i + 1]) == FeedLog(frames[..i]) + FrameLog(frames[i])
  {
    assert frames[..i + 1][..i] == frames[..i];
  }

  // ── What waits in turn ──

  /** One snapshot: mark the pending records, add the fills, judge the complete records. */
  function Step(w: Wait, frame: Frame): Wait {
    var rs := ApplyAll(w.pending, MidUpdate(Mid(frame.snap), frame.snap.timestamp));
    Wait(w.judged + (w.finished + Done(rs)), [], Open(rs) + RecordsOf(frame.desired, frame.snap))
  }

  function Fed(w: Wait, frames: seq<Frame>): Wait {
    if frames == [] then w else Step(Fed(w, frames[..|frames| - 1]), frames[|frames| - 1])
  }

  lemma FedStep(w: Wait, frames: seq<Frame>, i: nat)
    requires i < |frames|
    ensures Fed(w, frames[..i + 1]) == Step(Fed(w, frames[..i]), frames[i])
    ensures Fed(w, frames[..0]) == w && Fed(w, frames[..|frames|]) == Fed(w, frames)
  {
    assert frames[..i + 1][..i] == frames[..i];
    assert frames[..|frames|] == frames;
  }

  lemma NothingFed(w: Wait)
    ensures Fed(w, []) == w
  {
  }

  // Once a snapshot is processed, nothing completed is left unjudged.
  lemma NoneFinished(w: Wait, frames: seq<Frame>)
    requires w.finished == []
    ensures Fed(w, frames).finished == []
  {
  }

  function Waiting(w: Wait): nat {
    |w.finished| + |w.pending|
  }

  /** Whatever the feed, no record is lost: those judged and those waiting are the earlier ones and one
      for every fill. */
  lemma {:induction false} FedBalances(w: Wait, frames: seq<Frame>)
    ensures |Fed(w, frames).judged| + Waiting(Fed(w, frames)) == |w.judged| + Waiting(w) + |AllFills(frames)|
    ensures |w.judged| <= |Fed(w, frames).judged| && Fed(w, frames).judged[..|w.judged|] == w.judged
  {
    if frames != [] {
      var front, frame := frames[..|frames| - 1], frames[|frames| - 1];
      FedBalances(w, front);
      var m := Fed(w, front);
      var rs := ApplyAll(m.pending, MidUpdate(Mid(frame.snap), frame.snap.timestamp));
      Partition(rs);
      assert |multiset(rs)| == |multiset(Done(rs))| + |multiset(Open(rs))|;
      RecordsAreFills(frame.desired, frame.snap);
    }
  }
}

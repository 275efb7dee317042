// replay/engine.py: where the fills of a feed come from, and what they are marked with.

module ReplayMarks {
  import opened Types
  import opened MarkoutLog
  import opened MarkoutRecording
  import opened Metrics
  import opened ReplayStates

  /** An order of the feed: the frame, and its number among that frame's orders. */
  datatype Place = Place(frame: nat, order: nat)

  ghost predicate Crossing(frames: seq<Frame>, p: Place) {
    && p.frame < |frames| && p.order < |frames[p.frame].desired|
    && Reaches(frames[p.frame].desired[p.order], frames[p.frame].snap)
  }

  ghost function OrderAt(frames: seq<Frame>, p: Place): OrderRequest
    requires Crossing(frames, p)
  {
    frames[p.frame].desired[p.order]
  }

  ghost function SnapAt(frames: seq<Frame>, p: Place): MarketSnapshot
    requires Crossing(frames, p)
  {
    frames[p.frame].snap
  }

  /** The fill of an order that crosses: all of it, at the best price of the other side, at the snapshot's time. */
  ghost predicate IsFillOf(f: FillRecord, frames: seq<Frame>, p: Place) {
    && Crossing(frames, p)
    && var req, snap := OrderAt(frames, p), SnapAt(frames, p);
    f == FillRecord(snap.timestamp, req.side, OtherBest(req, snap), req.size)
  }

  ghost predicate InSequence(at: seq<Place>) {
    forall i, j :: 0 <= i < j < |at| ==>
      at[i].frame < at[j].frame || (at[i].frame == at[j].frame && at[i].order < at[j].order)
  }

  /** The places are those of all orders that cross, each once, in the order of the feed. */
  ghost predicate ListsCrossings(frames: seq<Frame>, at: seq<Place>) {
    && InSequence(at)
    && (forall p :: p in at <==> Crossing(frames, p))
  }

  // The orders of the last frame that cross, among the first n.
  ghost function CrossingsIn(frames: seq<Frame>, n: nat): (at: seq<Place>)
    requires frames != [] && n <= |frames[|frames| - 1].desired|
  {
    if n == 0 then []
    else
      var p := Place(|frames| - 1, n - 1);
      CrossingsIn(frames, n - 1) + if Crossing(frames, p) then [p] else []
  }

  ghost function Crossings(frames: seq<Frame>): seq<Place> {
    if frames == [] then []
    else Crossings(frames[..|frames| - 1]) + CrossingsIn(frames, |frames[|frames| - 1].desired|)
  }

  lemma {:induction false} LastCrossings(frames: seq<Frame>, n: nat)
    requires frames != [] && n <= |frames[|frames| - 1].desired|
    ensures InSequence(CrossingsIn(frames, n))
    ensures forall p :: p in CrossingsIn(frames, n) <==>
      Crossing(frames, p) && p.frame == |frames| - 1 && p.order < n
  {
    hide Crossing;
    if n > 0 {
      LastCrossings(frames, n - 1);
      var before, p := CrossingsIn(frames, n - 1), Place(|frames| - 1, n - 1);
      assert CrossingsIn(frames, n) == before + if Crossing(frames, p) then [p] else [];
      hide CrossingsIn;
      forall i | 0 <= i < |before|
        ensures before[i].frame == |frames| - 1 && before[i].order < n - 1
      {
        assert before[i] in before;
      }
      forall q: Place | q.frame == |frames| - 1 && q.order < n
        ensures q.order < n - 1 || q == p
      {
      }
    }
  }

  lemma {:induction false} CrossingsAreAll(frames: seq<Frame>)
    ensures ListsCrossings(frames, Crossings(frames))
  {
    if frames != [] {
      var n := |frames| - 1;
      CrossingsAreAll(frames[..n]);
      LastCrossings(frames, |frames[n].desired|);
      var a, b := Crossings(frames[..n]), CrossingsIn(frames, |frames[n].desired|);
      hide Crossings, CrossingsIn;
      forall i, j | 0 <= i < |a| && 0 <= j < |b|
        ensures a[i].frame < b[j].frame
      {
        assert a[i] in a && b[j] in b;
      }
      forall p
        ensures p in a + b <==> Crossing(frames, p)
      {
        assert p in a <==> Crossing(frames[..n], p);
      }
      InSequenceConcat(a, b);
    }
  }

  lemma InSequenceConcat(a: seq<Place>, b: seq<Place>)
    requires InSequence(a) && InSequence(b)
    requires forall i, j :: 0 <= i < |a| && 0 <= j < |b| ==> a[i].frame < b[j].frame
    ensures InSequence(a + b)
  {
  }

  // ── Fills and records ──

  /** The record of such a fill, still without marks. */
  ghost predicate IsRecordOf(r: Record, frames: seq<Frame>, p: Place) {
    && Crossing(frames, p)
    && var req, snap := OrderAt(frames, p), SnapAt(frames, p);
    && r.side == req.side && r.fillPrice == OtherBest(req, snap) && r.fillSize == req.size
    && r.fillTime == snap.timestamp && IsMid(snap, r.midAtFill)
  }

  /** In turn the fills, and the unmarked records, of these orders. */
  ghost predicate AreOf(fills: seq<FillRecord>, records: seq<Record>, frames: seq<Frame>, at: seq<Place>) {
    && |fills| == |records| == |at|
    && (forall i :: 0 <= i < |at| ==> IsFillOf(fills[i], frames, at[i]))
    && (forall i :: 0 <= i < |at| ==> IsRecordOf(records[i], frames, at[i]) && records[i].midsAfter == map[])
  }

  lemma OneOrder(frames: seq<Frame>, k: nat)
    requires frames != [] && k < |frames[|frames| - 1].desired|
    ensures var last, p := frames[|frames| - 1], Place(|frames| - 1, k);
      var fills, records := OrderFill(last.desired[k], last.snap), OrderRecord(last.desired[k], last.snap);
      AreOf(fills, records, frames, if Crossing(frames, p) then [p] else [])
  {
    var last := frames[|frames| - 1];
    FillsRespectLimits(last.desired[k], last.snap);
    MidMeans(last.snap);
    hide CrossesMarket, Mid, IsMid;
  }

  lemma AreOfBoth(fills: seq<FillRecord>, records: seq<Record>, moreFills: seq<FillRecord>, moreRecords: seq<Record>,
                  frames: seq<Frame>, at: seq<Place>, more: seq<Place>)
    requires AreOf(fills, records, frames, at) && AreOf(moreFills, moreRecords, frames, more)
    ensures AreOf(fills + moreFills, records + moreRecords, frames, at + more)
  {
    hide IsFillOf, IsRecordOf;
  }

  lemma {:induction false} LastFills(frames: seq<Frame>, n: nat)
    requires frames != [] && n <= |frames[|frames| - 1].desired|
    ensures var last := frames[|frames| - 1];
      var fills, records := FillsOf(last.desired[..n], last.snap), RecordsOf(last.desired[..n], last.snap);
      AreOf(fills, records, frames, CrossingsIn(frames, n))
  {
    if n > 0 {
      var last, p := frames[|frames| - 1], Place(|frames| - 1, n - 1);
      var fill, record := OrderFill(last.desired[n - 1], last.snap), OrderRecord(last.desired[n - 1], last.snap);
      LastFills(frames, n - 1);
      OneOrder(frames, n - 1);
      hide AreOf, OrderFill, OrderRecord, Crossing;
      AreOfBoth(FillsOf(last.desired[..n - 1], last.snap), RecordsOf(last.desired[..n - 1], last.snap), fill, record,
        frames, CrossingsIn(frames, n - 1), if Crossing(frames, p) then [p] else []);
      FillsOfStep(last.desired, n - 1, last.snap);
      RecordsOfStep(last.desired, n - 1, last.snap);
      hide FillsOf, RecordsOf;
    }
  }

  lemma LaterFrame(frames: seq<Frame>, frame: Frame, p: Place)
    requires Crossing(frames, p)
    ensures Crossing(frames + [frame], p)
    ensures OrderAt(frames + [frame], p) == OrderAt(frames, p) && SnapAt(frames + [frame], p) == SnapAt(frames, p)
  {
  }

  lemma CrossingsWithin(frames: seq<Frame>)
    ensures forall i :: 0 <= i < |Crossings(frames)| ==> Crossing(frames, Crossings(frames)[i])
  {
    CrossingsAreAll(frames);
    hide Crossings, Crossing;
    forall i | 0 <= i < |Crossings(frames)|
      ensures Crossing(frames, Crossings(frames)[i])
    {
      assert Crossings(frames)[i] in Crossings(frames);
    }
  }

  /** The fills of a feed are those of its orders that cross. */
  lemma {:induction false} FillsOfFeed(frames: seq<Frame>)
    ensures |AllFills(frames)| == |Crossings(frames)|
    ensures forall i :: 0 <= i < |AllFills(frames)| ==> IsFillOf(AllFills(frames)[i], frames, Crossings(frames)[i])
  {
    if frames != [] {
      var front, last := frames[..|frames| - 1], frames[|frames| - 1];
      FillsOfFeed(front);
      CrossingsWithin(front);
      LastFills(frames, |last.desired|);
      assert last.desired[..|last.desired|] == last.desired && front + [last] == frames;
      var before := Crossings(front);
      hide Crossing, CrossingsIn, FillsOf;
      forall i | 0 <= i < |before|
        ensures IsFillOf(AllFills(front)[i], frames, before[i])
      {
        LaterFrame(front, last, before[i]);
      }
      hide IsFillOf;
    }
  }

  // ── Marks ──

  /** Frame j is the first one after `from` that is at least k seconds later than t. */
  ghost predicate FirstLate(frames: seq<Frame>, from: nat, t: real, k: int, j: nat) {
    && from < j < |frames| && frames[j].snap.timestamp - t >= k as real
    && forall l :: from < l < j ==> frames[l].snap.timestamp - t < k as real
  }

  /** A fill has a mark for 1, 5 or 30 seconds once a later frame is late enough: the mid of the first one. */
  ghost predicate MarkedAs(r: Record, frames: seq<Frame>, p: Place, k: int) {
    && (k in r.midsAfter <==> exists j: nat :: FirstLate(frames, p.frame, r.fillTime, k, j))
    && (k in r.midsAfter ==>
          forall j: nat :: FirstLate(frames, p.frame, r.fillTime, k, j) ==> IsMid(frames[j].snap, r.midsAfter[k]))
  }

  ghost predicate MarkedIn(r: Record, frames: seq<Frame>, p: Place) {
    IsRecordOf(r, frames, p) && MarkedAs(r, frames, p, 1) && MarkedAs(r, frames, p, 5) && MarkedAs(r, frames, p, 30)
  }

  lemma FirstLateNext(frames: seq<Frame>, frame: Frame, from: nat, t: real, k: int)
    requires from < |frames|
    ensures forall j: nat :: j < |frames| ==>
      (FirstLate(frames + [frame], from, t, k, j) <==> FirstLate(frames, from, t, k, j))
    ensures FirstLate(frames + [frame], from, t, k, |frames|) <==>
      frame.snap.timestamp - t >= k as real && forall j: nat :: !FirstLate(frames, from, t, k, j)
  {
    var all := frames + [frame];
    assert forall l :: 0 <= l < |frames| ==> all[l] == frames[l];
    forall j: nat | j < |frames|
      ensures FirstLate(all, from, t, k, j) <==> FirstLate(frames, from, t, k, j)
    {
      assert all[j] == frames[j];
    }
    if FirstLate(all, from, t, k, |frames|) {
      forall j: nat
        ensures !FirstLate(frames, from, t, k, j)
      {
        assert j < |frames| ==> all[j] == frames[j];
      }
    }
    if frame.snap.timestamp - t >= k as real && forall j: nat :: !FirstLate(frames, from, t, k, j) {
      NoneLate(frames, from, t, k, |frames|);
    }
  }

  lemma {:induction false} NoneLate(frames: seq<Frame>, from: nat, t: real, k: int, n: nat)
    requires from < n <= |frames| && forall j: nat :: !FirstLate(frames, from, t, k, j)
    ensures forall l :: from < l < n ==> frames[l].snap.timestamp - t < k as real
  {
    if from + 1 < n {
      NoneLate(frames, from, t, k, n - 1);
      assert !FirstLate(frames, from, t, k, n - 1);
    }
  }

  lemma MarkStep(r: Record, frames: seq<Frame>, frame: Frame, p: Place, k: int)
    requires Crossing(frames, p) && MarkedAs(r, frames, p, k) && k in {1, 5, 30}
    ensures MarkedAs(Apply(r, MidUpdate(Mid(frame.snap), frame.snap.timestamp)), frames + [frame], p, k)
  {
    var e := MidUpdate(Mid(frame.snap), frame.snap.timestamp);
    ApplyMarks(r, e);
    MidMeans(frame.snap);
    FirstLateNext(frames, frame, p.frame, r.fillTime, k);
    assert k in INTERVALS && (FirstAfter([e], r.fillTime, k).Some? <==> e.at - r.fillTime >= k as real);
    hide Apply, Mid, IsMid, FirstLate, Crossing;
  }

  lemma NewIsMarkedIn(r: Record, frames: seq<Frame>, p: Place)
    requires IsRecordOf(r, frames, p) && r.midsAfter == map[] && p.frame == |frames| - 1
    ensures MarkedIn(r, frames, p)
  {
    hide IsRecordOf;
  }

  lemma MarkedNext(r: Record, frames: seq<Frame>, frame: Frame, p: Place)
    requires MarkedIn(r, frames, p)
    ensures MarkedIn(Apply(r, MidUpdate(Mid(frame.snap), frame.snap.timestamp)), frames + [frame], p)
  {
    MarkStep(r, frames, frame, p, 1);
    MarkStep(r, frames, frame, p, 5);
    MarkStep(r, frames, frame, p, 30);
    ApplyMarks(r, MidUpdate(Mid(frame.snap), frame.snap.timestamp));
    LaterFrame(frames, frame, p);
    hide Apply, MarkedAs, Mid, IsMid, Crossing;
  }

  // A frame marks what was logged before and adds its own records.
  lemma EvolvedFrame(log: seq<Event>, frame: Frame)
    ensures Evolved(log + FrameLog(frame))
            == ApplyAll(Evolved(log), MidUpdate(Mid(frame.snap), frame.snap.timestamp))
               + RecordsOf(frame.desired, frame.snap)
  {
    var e := MidUpdate(Mid(frame.snap), frame.snap.timestamp);
    var rs := RecordsOf(frame.desired, frame.snap);
    hide Mid, RecordsOf, ApplyAll;
    EvolvedSnoc(log, e);
    EvolvedLogged(log + [e], rs);
    hide Evolved;
    assert log + FrameLog(frame) == log + [e] + Logged(rs);
  }

  lemma {:induction false} EvolvedLogged(log: seq<Event>, rs: seq<Record>)
    ensures Evolved(log + Logged(rs)) == Evolved(log) + rs
  {
    if rs == [] {
      assert log + Logged(rs) == log;
    } else {
      var n := |rs| - 1;
      EvolvedLogged(log, rs[..n]);
      LoggedSnoc(log, rs);
      EvolvedSnoc(log + Logged(rs[..n]), Filled(rs[n]));
      hide Evolved, Logged;
      Appended(Evolved(log), rs);
    }
  }

  lemma Appended(before: seq<Record>, rs: seq<Record>)
    requires rs != []
    ensures before + rs == before + rs[..|rs| - 1] + [rs[|rs| - 1]]
  {
  }

  lemma LoggedSnoc(log: seq<Event>, rs: seq<Record>)
    requires rs != []
    ensures var n := |rs| - 1;
      log + Logged(rs) == log + Logged(rs[..n]) + [Filled(rs[n])]
  {
  }

  /** The records that a feed leaves in an empty recorder are those of its fills, with the marks that the later
      frames give them. */
  lemma {:induction false} RecordsOfFeed(frames: seq<Frame>)
    ensures var rs, at := Evolved(FeedLog(frames)), Crossings(frames);
      |rs| == |at| && forall i :: 0 <= i < |rs| ==> MarkedIn(rs[i], frames, at[i])
  {
    if frames != [] {
      var front, last := frames[..|frames| - 1], frames[|frames| - 1];
      RecordsOfFeed(front);
      LastRecords(frames);
      EvolvedFrame(FeedLog(front), last);
      EarlierRecords(frames, Evolved(FeedLog(front)), Crossings(front));
      hide CrossingsIn, RecordsOf, Evolved, MarkedIn, Mid, Apply, ApplyAll, FrameLog;
    }
  }

  lemma EarlierRecords(frames: seq<Frame>, before: seq<Record>, at: seq<Place>)
    requires frames != [] && |before| == |at|
    requires forall i :: 0 <= i < |at| ==> MarkedIn(before[i], frames[..|frames| - 1], at[i])
    ensures var snap := frames[|frames| - 1].snap;
      var rs := ApplyAll(before, MidUpdate(Mid(snap), snap.timestamp));
      |rs| == |at| && forall i :: 0 <= i < |at| ==> MarkedIn(rs[i], frames, at[i])
  {
    var front, last := frames[..|frames| - 1], frames[|frames| - 1];
    assert front + [last] == frames;
    hide MarkedIn, Mid, Apply;
    forall i | 0 <= i < |at|
      ensures MarkedIn(Apply(before[i], MidUpdate(Mid(last.snap), last.snap.timestamp)), frames, at[i])
    {
      MarkedNext(before[i], front, last, at[i]);
    }
  }

  lemma LastRecords(frames: seq<Frame>)
    requires frames != []
    ensures var last, at := frames[|frames| - 1], CrossingsIn(frames, |frames[|frames| - 1].desired|);
      var records := RecordsOf(last.desired, last.snap);
      |records| == |at| && forall i :: 0 <= i < |at| ==> MarkedIn(records[i], frames, at[i])
  {
    var last, at := frames[|frames| - 1], CrossingsIn(frames, |frames[|frames| - 1].desired|);
    LastFills(frames, |last.desired|);
    LastCrossings(frames, |last.desired|);
    assert last.desired[..|last.desired|] == last.desired;
    var records := RecordsOf(last.desired, last.snap);
    hide Crossing, CrossingsIn, RecordsOf, MarkedIn, IsRecordOf;
    forall i | 0 <= i < |at|
      ensures MarkedIn(records[i], frames, at[i])
    {
      assert at[i] in at;
      NewIsMarkedIn(records[i], frames, at[i]);
    }
  }

  // ── Samples ──

  /** x is what the mid of frame j gained on the fill, in hundredths of a percent of the mid at the fill. */
  ghost predicate IsMarkout(x: real, frames: seq<Frame>, p: Place, j: nat, mid: real, after: real) {
    && Crossing(frames, p) && FirstLate(frames, p.frame, SnapAt(frames, p).timestamp, 30, j)
    && IsMid(SnapAt(frames, p), mid) && IsMid(frames[j].snap, after)
    && var req, price := OrderAt(frames, p), OtherBest(OrderAt(frames, p), SnapAt(frames, p));
    if mid <= 0.0 then x == 0.0 else x * mid == 10000.0 * if req.side == Buy then price - after else after - price
  }

  ghost predicate HasMarkout(x: real, frames: seq<Frame>, p: Place) {
    exists j: nat, mid, after :: IsMarkout(x, frames, p, j, mid, after)
  }

  lemma MarkoutOf(r: Record, frames: seq<Frame>, p: Place)
    requires MarkedIn(r, frames, p) && 30 in r.midsAfter
    ensures HasMarkout(MarkoutBps(r), frames, p)
  {
    BpsMeans(r);
    var j: nat :| FirstLate(frames, p.frame, r.fillTime, 30, j);
    hide MarkoutBps, FirstLate, IsMid;
    assert IsMarkout(MarkoutBps(r), frames, p, j, r.midAtFill, r.midsAfter[30]);
  }

  /** The samples of a feed: in turn the markouts, after 30 seconds, of the orders that cross, for as long as there
      is a late enough frame. */
  ghost predicate AreSamples(samples: seq<real>, frames: seq<Frame>) {
    && |samples| <= |Crossings(frames)|
    && (forall i :: 0 <= i < |samples| ==> HasMarkout(samples[i], frames, Crossings(frames)[i]))
    && forall i :: |samples| <= i < |Crossings(frames)| ==> NoneLateEnough(frames, Crossings(frames)[i])
  }

  ghost predicate NoneLateEnough(frames: seq<Frame>, p: Place) {
    Crossing(frames, p) && forall j :: p.frame < j < |frames| ==>
      frames[j].snap.timestamp - SnapAt(frames, p).timestamp < 30.0
  }

  lemma NoMarkYet(r: Record, frames: seq<Frame>, p: Place)
    requires MarkedIn(r, frames, p) && 30 !in r.midsAfter
    ensures NoneLateEnough(frames, p)
  {
    NoneLate(frames, p.frame, r.fillTime, 30, |frames|);
  }

  lemma SamplesAreMarkouts(frames: seq<Frame>, samples: seq<real>)
    requires var rs := Evolved(FeedLog(frames));
      && |samples| <= |rs|
      && (forall i :: 0 <= i < |rs| ==> (30 in rs[i].midsAfter <==> i < |samples|))
      && forall i :: 0 <= i < |samples| ==> samples[i] == MarkoutBps(rs[i])
    ensures AreSamples(samples, frames)
  {
    RecordsOfFeed(frames);
    var rs, at := Evolved(FeedLog(frames)), Crossings(frames);
    hide MarkedIn, HasMarkout, MarkoutBps, Evolved, FeedLog, Crossings, NoneLateEnough;
    forall i | 0 <= i < |at|
      ensures if i < |samples| then HasMarkout(samples[i], frames, at[i]) else NoneLateEnough(frames, at[i])
    {
      if i < |samples| {
        MarkoutOf(rs[i], frames, at[i]);
      } else {
        NoMarkYet(rs[i], frames, at[i]);
      }
    }
  }
}

// replay/engine.py, replay/metrics.py: when the toxic ratio that a replay reports is a share of its fills.
//
// A replay counts the toxic verdicts that fall into it, also on fills of an earlier one. Which of the
// records that wait from before can still turn out toxic decides.

module ReplayShares {
  import opened Types
  import opened Averages
  import opened MarkoutLog
  import opened MarkoutRecording
  import opened Toxicity
  import opened Metrics
  import opened ReplayStates

  /** The toxic verdicts of a run are no more than its fills, or it has no fills and the ratio is zero. */
  predicate InShare(t: Thresholds, w: Wait, frames: seq<Frame>) {
    AllFills(frames) == [] || ToxicCount(t, Fed(w, frames).judged) - ToxicCount(t, w.judged) <= |AllFills(frames)|
  }

  /** Judging more records counts at most them. */
  lemma {:induction false} CountGrows(t: Thresholds, h: seq<Record>, n: nat)
    requires n <= |h|
    ensures ToxicCount(t, h[..n]) <= ToxicCount(t, h) <= ToxicCount(t, h[..n]) + |h| - n
  {
    assert h[..|h|] == h;
    if n < |h| {
      var front := h[..|h| - 1];
      CountGrows(t, front, n);
      assert front[..n] == h[..n];
    }
  }

  /** With nothing waiting the ratio is a share, whatever the feed. */
  lemma NothingWaitsShares(t: Thresholds, w: Wait, frames: seq<Frame>)
    ensures Waiting(w) == 0 ==> InShare(t, w, frames)
  {
    FedBalances(w, frames);
    CountGrows(t, Fed(w, frames).judged, |w.judged|);
  }

  // ── The order of judgement ──

  /** All records in the order in which they are judged. */
  function Line(w: Wait): seq<Record> {
    w.judged + (w.finished + w.pending)
  }

  /** Every interval that has passed by a time is marked. */
  ghost predicate MarkedBy(r: Record, at: real) {
    forall k :: k in INTERVALS && at - r.fillTime >= k as real ==> k in r.midsAfter
  }

  /** No record misses a mark that was due before the last fill. */
  ghost predicate Punctual(rs: seq<Record>) {
    forall i :: 0 <= i < |rs| ==> MarkedBy(rs[i], rs[|rs| - 1].fillTime)
  }

  /** What waits is as a replay leaves it when snapshots come in order of time. */
  ghost predicate Orderly(w: Wait) {
    && (forall r :: r in w.finished ==> Complete(r)) && (forall r :: r in w.pending ==> !Complete(r))
    && AllPrefix(w.pending) && Staggered(w.pending) && Punctual(w.pending)
  }

  ghost predicate PendingUntil(w: Wait, at: real) {
    forall r :: r in w.pending ==> r.fillTime <= at
  }

  ghost predicate PositiveMids(frames: seq<Frame>) {
    forall k :: 0 <= k < |frames| ==> 0.0 < Mid(frames[k].snap)
  }

  /** The feed is in order of time, after the fills that wait, and its mids are positive. */
  ghost predicate ProperFeed(w: Wait, frames: seq<Frame>) {
    InTime(frames) && PositiveMids(frames) && (frames != [] ==> PendingUntil(w, frames[0].snap.timestamp))
  }

  /** r is the record q with more marks, all of positive mids. */
  ghost predicate Later(r: Record, q: Record) {
    && r == q.(midsAfter := r.midsAfter) && (Complete(q) ==> r == q)
    && (forall k :: k in q.midsAfter ==> k in r.midsAfter && r.midsAfter[k] == q.midsAfter[k])
    && forall k :: k in r.midsAfter && k !in q.midsAfter ==> 0.0 < r.midsAfter[k]
  }

  ghost predicate LineLater(l': seq<Record>, l: seq<Record>) {
    |l| <= |l'| && forall i :: 0 <= i < |l| ==> Later(l'[i], l[i])
  }

  lemma LineLaterTwice(a: seq<Record>, b: seq<Record>, c: seq<Record>)
    requires LineLater(a, b) && LineLater(b, c)
    ensures LineLater(a, c)
  {
    forall i | 0 <= i < |c|
      ensures Later(a[i], c[i])
    {
      assert Later(a[i], b[i]) && Later(b[i], c[i]);
    }
  }

  lemma MarkedLater(r: Record, mid: real, at: real)
    requires PrefixKeys(r) && 0.0 < mid
    ensures var q := Apply(r, MidUpdate(mid, at)); PrefixKeys(q) && Later(q, r) && MarkedBy(q, at)
  {
    ApplyKeepsPrefix(r, MidUpdate(mid, at));
    ApplyMarks(r, MidUpdate(mid, at));
    MarkedAt(r, mid, at);
    var e := MidUpdate(mid, at);
    var q := Apply(r, e);
    hide PrefixKeys, Complete, Apply, MarkedBy;
    forall k | k in q.midsAfter && k !in r.midsAfter
      ensures q.midsAfter[k] == mid
    {
      assert FirstAfter([e][1..], r.fillTime, k) == None;
    }
  }

  lemma MarkedAt(r: Record, mid: real, at: real)
    ensures MarkedBy(Apply(r, MidUpdate(mid, at)), at)
  {
    ApplyKeys(r, MidUpdate(mid, at));
    hide Apply;
    assert forall k :: k in INTERVALS <==> k in {1, 5, 30};
  }

  // The pending records after an update: complete ones first, each the same with more marks.
  lemma MarkedInOrder(rs: seq<Record>, mid: real, at: real)
    requires AllPrefix(rs) && Staggered(rs) && (forall r :: r in rs ==> !Complete(r)) && 0.0 < mid
    ensures var q := ApplyAll(rs, MidUpdate(mid, at));
      && q == Done(q) + Open(q) && AllPrefix(Open(q)) && Staggered(Open(q))
      && (forall r :: r in Open(q) ==> !Complete(r) && MarkedBy(r, at)) && LineLater(q, rs)
  {
    var e := MidUpdate(mid, at);
    var q := ApplyAll(rs, e);
    hide Done, Open, Complete, PrefixKeys, Staggered, Later, Apply, MarkedBy;
    forall i | 0 <= i < |rs|
      ensures PrefixKeys(q[i]) && Later(q[i], rs[i]) && MarkedBy(q[i], at)
    {
      MarkedLater(rs[i], mid, at);
    }
    MarkedStaggers(rs, e);
    StaggeredLead(q);
    DoneFirst(q);
    Partition(q);
    StaggeredTail(q, |Done(q)|);
    assert Open(q) == q[|Done(q)|..];
  }

  lemma StaggeredTail(rs: seq<Record>, n: nat)
    requires n <= |rs| && Staggered(rs)
    ensures Staggered(rs[n..])
  {
  }

  lemma MarkedStaggers(rs: seq<Record>, e: Event)
    requires Staggered(rs)
    ensures Staggered(ApplyAll(rs, e))
  {
    forall i, j | 0 <= i < j < |rs|
      ensures Apply(rs[i], e).fillTime <= Apply(rs[j], e).fillTime
      ensures Apply(rs[j], e).midsAfter.Keys <= Apply(rs[i], e).midsAfter.Keys
    {
      ApplyStaggers(rs[i], rs[j], e);
    }
  }

  lemma StepOrderly(w: Wait, frame: Frame)
    requires Orderly(w) && PendingUntil(w, frame.snap.timestamp) && 0.0 < Mid(frame.snap)
    ensures Orderly(Step(w, frame)) && PendingUntil(Step(w, frame), frame.snap.timestamp)
  {
    var at := frame.snap.timestamp;
    var open, new' := Open(ApplyAll(w.pending, MidUpdate(Mid(frame.snap), at))), RecordsOf(frame.desired, frame.snap);
    MarkedInOrder(w.pending, Mid(frame.snap), at);
    RecordsAreFills(frame.desired, frame.snap);
    OpenUntil(w.pending, MidUpdate(Mid(frame.snap), at), at);
    hide ApplyAll, Done, Open, RecordsOf, PrefixKeys, Staggered, Complete, AllPrefix, MarkedBy, Punctual, Mid;
    AppendedInOrder(open, new', at);
    AppendedPunctual(open, new', at);
  }

  lemma AppendedPunctual(open: seq<Record>, new': seq<Record>, at: real)
    requires forall r :: r in open ==> r.fillTime <= at && MarkedBy(r, at)
    requires forall r :: r in new' ==> r.midsAfter == map[] && r.fillTime == at
    ensures Punctual(open + new')
  {
    var all := open + new';
    forall i | 0 <= i < |all|
      ensures all[i].fillTime <= at && MarkedBy(all[i], at)
    {
      if i < |open| {
        assert all[i] in open;
      } else {
        assert all[i] in new';
      }
    }
    forall i | 0 <= i < |all|
      ensures MarkedBy(all[i], all[|all| - 1].fillTime)
    {
      MarkedEarlier(all[i], all[|all| - 1].fillTime, at);
    }
  }

  lemma MarkedEarlier(r: Record, early: real, late: real)
    requires MarkedBy(r, late) && early <= late
    ensures MarkedBy(r, early)
  {
  }

  lemma StepLine(w: Wait, frame: Frame)
    requires Orderly(w) && 0.0 < Mid(frame.snap)
    ensures LineLater(Line(Step(w, frame)), Line(w))
  {
    var e := MidUpdate(Mid(frame.snap), frame.snap.timestamp);
    var q, new' := ApplyAll(w.pending, e), RecordsOf(frame.desired, frame.snap);
    MarkedInOrder(w.pending, Mid(frame.snap), frame.snap.timestamp);
    hide ApplyAll, Done, Open, RecordsOf, Staggered, AllPrefix, Complete, Later, LineLater, Mid, Punctual;
    Regroup(w.judged, w.finished, Done(q), Open(q), new');
    LaterAppended(w.judged + w.finished, q, new', w.pending);
    Regroup(w.judged, w.finished, w.pending, [], []);
  }

  lemma Regroup(a: seq<Record>, b: seq<Record>, c: seq<Record>, d: seq<Record>, e: seq<Record>)
    ensures (a + (b + c)) + ([] + (d + e)) == (a + b) + ((c + d) + e)
    ensures a + (b + c) == (a + b) + c
  {
  }

  lemma LaterAppended(before: seq<Record>, q: seq<Record>, new': seq<Record>, rs: seq<Record>)
    requires LineLater(q, rs)
    ensures LineLater(before + (q + new'), before + rs)
  {
    var l', l := before + (q + new'), before + rs;
    hide Later;
    forall i | 0 <= i < |l|
      ensures Later(l'[i], l[i])
    {
      var k := i - |before|;
      if 0 <= k {
        assert l'[i] == q[k] && l[i] == rs[k];
      } else {
        SameIsLater(l[i]);
      }
    }
  }

  lemma SameIsLater(r: Record)
    ensures Later(r, r)
  {
  }

  lemma OpenUntil(rs: seq<Record>, e: Event, at: real)
    requires forall r :: r in rs ==> r.fillTime <= at
    ensures forall r :: r in Open(ApplyAll(rs, e)) ==> r.fillTime <= at
  {
    Partition(ApplyAll(rs, e));
    forall i | 0 <= i < |rs|
      ensures Apply(rs[i], e).fillTime <= at
    {
      ApplyKeys(rs[i], e);
      assert rs[i] in rs;
    }
  }

  lemma AppendedInOrder(open: seq<Record>, new': seq<Record>, at: real)
    requires AllPrefix(open) && Staggered(open) && (forall r :: r in open ==> !Complete(r) && r.fillTime <= at)
    requires forall r :: r in new' ==> r.midsAfter == map[] && r.fillTime == at
    ensures AllPrefix(open + new') && Staggered(open + new')
    ensures forall r :: r in open + new' ==> !Complete(r) && r.fillTime <= at
  {
    var all := open + new';
    forall i | 0 <= i < |all|
      ensures PrefixKeys(all[i])
      ensures i >= |open| ==> all[i].midsAfter == map[] && all[i].fillTime == at
      ensures i < |open| ==> all[i].fillTime <= at
    {
      if i >= |open| {
        assert all[i] == new'[i - |open|];
      } else {
        assert all[i] in open;
      }
    }
    forall r | r in all
      ensures !Complete(r) && r.fillTime <= at
    {
      if r in new' {
        EmptyIsIncomplete(r);
      }
    }
  }

  lemma {:induction false} FedLine(w: Wait, frames: seq<Frame>)
    requires Orderly(w) && ProperFeed(w, frames)
    ensures Orderly(Fed(w, frames)) && LineLater(Line(Fed(w, frames)), Line(w))
    ensures frames != [] ==> PendingUntil(Fed(w, frames), frames[|frames| - 1].snap.timestamp)
  {
    hide Orderly, Step, Line, Mid;
    if frames != [] {
      var n := |frames| - 1;
      var front, m := frames[..n], Fed(w, frames[..n]);
      assert n > 0 ==> front[0] == frames[0] && front[n - 1] == frames[n - 1];
      FedLine(w, front);
      StepOrderly(m, frames[n]);
      StepLine(m, frames[n]);
      LineLaterTwice(Line(Step(m, frames[n])), Line(m), Line(w));
    } else {
      AlwaysLater(Line(w));
    }
  }

  lemma AlwaysLater(l: seq<Record>)
    ensures LineLater(l, l)
  {
  }

  // ── Which waiting records can turn out toxic ──

  /** The highest mid after half a minute that is adverse to a sell. */
  function Reach(t: Thresholds, r: Record): real {
    r.fillPrice + t.adverseBps * r.midAtFill / 10000.0
  }

  /** The record at place p of a line is large in its window, and the marks it has do not exclude that it
      is found toxic once it has them all. A buy can always turn adverse, a sell only if that is reached at
      some positive mid. */
  predicate CouldTurnToxic(t: Thresholds, line: seq<Record>, p: nat)
    requires p < |line|
  {
    var r := line[p];
    && LargeSize(t, WindowSizes(line[..p + 1], t.window), r) && r.midAtFill > 0.0
    && if Complete(r) then AdverseMarkout(t, r) && FastReversal(t, r)
       else (1 in r.midsAfter ==> FastReversal(t, r)) && (r.side == Sell ==> 0.0 < Reach(t, r))
  }

  ghost predicate NoneCouldTurnToxic(t: Thresholds, w: Wait) {
    forall p :: |w.judged| <= p < |Line(w)| ==> !CouldTurnToxic(t, Line(w), p)
  }

  lemma {:induction false} SameWindow(a: seq<Record>, b: seq<Record>, window: nat)
    requires |a| == |b| && forall i :: 0 <= i < |a| ==> a[i].fillSize == b[i].fillSize
    ensures WindowSizes(a, window) == WindowSizes(b, window)
  {
    if a != [] && window > 0 {
      SameWindow(a[..|a| - 1], b[..|b| - 1], window - 1);
    }
  }

  // A sell is adverse at exactly the mids up to its reach.
  lemma AdverseAt(fillPrice: real, midAtFill: real, bps: real, mid: real)
    requires 0.0 < midAtFill
    ensures (mid - fillPrice) / midAtFill * 10000.0 <= bps <==> mid <= fillPrice + bps * midAtFill / 10000.0
  {
    var k := (mid - fillPrice) / midAtFill;
    assert k * midAtFill == mid - fillPrice;
    assert (bps - k * 10000.0) * midAtFill == bps * midAtFill - (mid - fillPrice) * 10000.0;
    SameSigns(bps - k * 10000.0, midAtFill);
  }

  lemma SameSigns(a: real, b: real)
    requires 0.0 < b
    ensures 0.0 <= a <==> 0.0 <= a * b
  {
    if a < 0.0 {
      assert 0.0 < -a * b;
    }
  }

  lemma AdverseSellReaches(t: Thresholds, r: Record)
    requires r.side == Sell && r.midAtFill > 0.0 && AdverseMarkout(t, r)
             && (30 in r.midsAfter ==> 0.0 < r.midsAfter[30])
    ensures 0.0 < Reach(t, r)
  {
    var mid := if 30 in r.midsAfter then r.midsAfter[30] else r.midAtFill;
    AdverseAt(r.fillPrice, r.midAtFill, t.adverseBps, mid);
  }

  lemma ToxicWasPossible(t: Thresholds, line: seq<Record>, h: seq<Record>, p: nat)
    requires p < |h| && p < |line| && LineLater(h[..p + 1], line[..p + 1])
    requires !Complete(line[p]) ==> 30 !in line[p].midsAfter
    requires LastIsToxic(t, h[..p + 1])
    ensures CouldTurnToxic(t, line, p)
  {
    var a, b := h[..p + 1], line[..p + 1];
    forall i | 0 <= i < |a|
      ensures a[i].fillSize == b[i].fillSize
    {
      assert Later(a[i], b[i]);
    }
    SameWindow(a, b, t.window);
    assert a[p] == h[p] && b[p] == line[p];
    assert Later(a[p], b[p]);
    hide WindowSizes, Mean, LineLater;
    if !Complete(line[p]) && line[p].side == Sell {
      AdverseSellReaches(t, h[p]);
    }
  }

  /** The record at place p of a history was found toxic. */
  ghost predicate ToxicAt(t: Thresholds, h: seq<Record>, p: nat) {
    p < |h| && LastIsToxic(t, h[..p + 1])
  }

  // Toxic verdicts from place n on are only on records from place b on.
  lemma {:induction false} CountOutside(t: Thresholds, h: seq<Record>, n: nat, b: nat)
    requires n <= |h| && n <= b
    requires forall p: nat :: n <= p < b ==> !ToxicAt(t, h, p)
    ensures ToxicCount(t, h) <= ToxicCount(t, h[..n]) + if |h| > b then |h| - b else 0
  {
    assert h[..|h|] == h;
    if n < |h| {
      var m := |h| - 1;
      var front := h[..m];
      assert front[..n] == h[..n] && h[..m + 1] == h;
      assert ToxicAt(t, h, m) <==> LastIsToxic(t, h);
      forall p: nat | n <= p < b
        ensures !ToxicAt(t, front, p)
      {
        if p < m {
          assert front[..p + 1] == h[..p + 1];
        }
        assert !ToxicAt(t, h, p);
      }
      hide LastIsToxic, ToxicAt;
      CountOutside(t, front, n, b);
    }
  }

  lemma NoneTurnsToxic(t: Thresholds, w: Wait, frames: seq<Frame>)
    requires Orderly(w) && ProperFeed(w, frames) && NoneCouldTurnToxic(t, w)
    ensures InShare(t, w, frames)
  {
    FedLine(w, frames);
    FedBalances(w, frames);
    var h := Fed(w, frames).judged;
    hide *;
    forall p: nat | |w.judged| <= p < |Line(w)|
      ensures !ToxicAt(t, h, p)
    {
      if ToxicAt(t, h, p) {
        WasPossible(t, w, Fed(w, frames), p);
        IsNone(t, w, p);
        assert false;
      }
    }
    CountOutside(t, h, |w.judged|, |Line(w)|);
    FewVerdicts(t, w, frames);
  }

  lemma IsNone(t: Thresholds, w: Wait, p: nat)
    requires NoneCouldTurnToxic(t, w) && |w.judged| <= p < |Line(w)|
    ensures !CouldTurnToxic(t, Line(w), p)
  {
    hide CouldTurnToxic, Line;
  }

  lemma WasPossible(t: Thresholds, w: Wait, later: Wait, p: nat)
    requires Orderly(w) && LineLater(Line(later), Line(w)) && |w.judged| <= p < |Line(w)|
    requires ToxicAt(t, later.judged, p)
    ensures CouldTurnToxic(t, Line(w), p)
  {
    MissesLast(w, p);
    hide LastIsToxic, CouldTurnToxic, Orderly, LineLater;
    assert later.judged[..p + 1] == Line(later)[..p + 1];
    PrefixLater(Line(later), Line(w), p + 1);
    hide Line;
    ToxicWasPossible(t, Line(w), later.judged, p);
  }

  lemma FewVerdicts(t: Thresholds, w: Wait, frames: seq<Frame>)
    requires var h := Fed(w, frames).judged;
      && |w.judged| <= |h| && h[..|w.judged|] == w.judged
      && ToxicCount(t, h) <= ToxicCount(t, h[..|w.judged|]) + (if |h| > |Line(w)| then |h| - |Line(w)| else 0)
      && |h| + Waiting(Fed(w, frames)) == |w.judged| + Waiting(w) + |AllFills(frames)|
    ensures InShare(t, w, frames)
  {
    hide ToxicCount, Fed, AllFills;
  }

  // A waiting record that is not complete misses its last mark.
  lemma MissesLast(w: Wait, p: nat)
    requires Orderly(w) && |w.judged| <= p < |Line(w)|
    ensures !Complete(Line(w)[p]) ==> 30 !in Line(w)[p].midsAfter
    ensures !Complete(Line(w)[p]) ==> p >= |w.judged| + |w.finished|
  {
    var k := p - |w.judged| - |w.finished|;
    hide Complete, Staggered, Punctual;
    if k < 0 {
      assert Line(w)[p] == w.finished[p - |w.judged|] && Line(w)[p] in w.finished;
    } else {
      assert Line(w)[p] == w.pending[k];
      CountKeys(w.pending[k]);
      assert 30 in w.pending[k].midsAfter ==> w.pending[k].midsAfter.Keys == {1, 5, 30};
    }
  }

  lemma PrefixLater(l': seq<Record>, l: seq<Record>, n: nat)
    requires LineLater(l', l) && n <= |l|
    ensures LineLater(l'[..n], l[..n])
  {
  }
}

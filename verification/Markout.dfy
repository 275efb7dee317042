// markout/recorder.py: the mids seen 1, 5 and 30 seconds after each fill.
//
// MarkoutLog is the specification: what a log of fills, mid updates and flushes says each
// fill's marks should be. MarkoutRecording is the class that keeps them incrementally.

module MarkoutLog {
  import opened Types

  const INTERVALS: seq<int> := [1, 5, 30]

  datatype Record = Record(
    orderId: string, side: Side, fillPrice: real, fillSize: real,
    midAtFill: real, midsAfter: map<int, real>, fillTime: real)

  datatype Event =
    | Filled(record: Record)
    | MidUpdate(mid: real, at: real)
    | Flushed(lastMid: real)

  /** Records the mid for the first n intervals that have passed and are not marked yet. */
  function MarkUpTo(r: Record, n: nat, mid: real, at: real): Record
    requires n <= |INTERVALS|
  {
    if n == 0 then r
    else
      var q := MarkUpTo(r, n - 1, mid, at);
      var k := INTERVALS[n - 1];
      if k !in q.midsAfter && at - q.fillTime >= k as real then q.(midsAfter := q.midsAfter[k := mid]) else q
  }

  function Mark(r: Record, mid: real, at: real): Record {
    MarkUpTo(r, 3, mid, at)
  }

  /** Marks the first n intervals that are still missing, passed or not. */
  function ForceUpTo(r: Record, n: nat, mid: real): Record
    requires n <= |INTERVALS|
  {
    if n == 0 then r
    else
      var q := ForceUpTo(r, n - 1, mid);
      var k := INTERVALS[n - 1];
      if k !in q.midsAfter then q.(midsAfter := q.midsAfter[k := mid]) else q
  }

  predicate Complete(r: Record) {
    |r.midsAfter| == |INTERVALS|
  }

  /** The marks that a record has are those of the shortest intervals. */
  ghost predicate PrefixKeys(r: Record) {
    IsPrefix(r.midsAfter.Keys)
  }

  ghost predicate WellFormed(log: seq<Event>) {
    forall i :: 0 <= i < |log| && log[i].Filled? ==> log[i].record.midsAfter == map[]
  }

  // ── One record over time ──

  function Apply(r: Record, e: Event): Record {
    match e
    case Filled(_) => r
    case MidUpdate(mid, at) => Mark(r, mid, at)
    case Flushed(mid) => ForceUpTo(r, 3, mid)
  }

  function Evolve(r: Record, later: seq<Event>): Record {
    if later == [] then r else Apply(Evolve(r, later[..|later| - 1]), later[|later| - 1])
  }

  /** The mid of the first update at least k seconds after time t; a flush counts for every interval. */
  function FirstAfter(later: seq<Event>, t: real, k: int): Option<real> {
    if later == [] then None
    else if later[0].MidUpdate? && later[0].at - t >= k as real then Some(later[0].mid)
    else if later[0].Flushed? then Some(later[0].lastMid)
    else FirstAfter(later[1..], t, k)
  }

  function Get(m: map<int, real>, k: int): Option<real> {
    if k in m then Some(m[k]) else None
  }

  // A mark that is there stays; a missing one is set by the first event that qualifies.
  lemma ApplyMarks(r: Record, e: Event)
    ensures var q := Apply(r, e);
      && q == r.(midsAfter := q.midsAfter)
      && (forall k :: k in r.midsAfter ==> k in q.midsAfter && q.midsAfter[k] == r.midsAfter[k])
      && (forall k :: k in q.midsAfter && k !in r.midsAfter ==>
            k in INTERVALS && Some(q.midsAfter[k]) == FirstAfter([e], r.fillTime, k))
      && (forall k :: k in INTERVALS && FirstAfter([e], r.fillTime, k).Some? ==> k in q.midsAfter)
  {
    match e {
      case Filled(_) =>
      case MidUpdate(mid, at) =>
        var a, b, c := MarkUpTo(r, 1, mid, at), MarkUpTo(r, 2, mid, at), MarkUpTo(r, 3, mid, at);
        assert MarkUpTo(r, 0, mid, at) == r;
      case Flushed(mid) =>
        var a, b, c := ForceUpTo(r, 1, mid), ForceUpTo(r, 2, mid), ForceUpTo(r, 3, mid);
        assert ForceUpTo(r, 0, mid) == r;
    }
  }

  lemma {:induction false} FirstAfterSnoc(later: seq<Event>, e: Event, t: real, k: int)
    ensures FirstAfter(later + [e], t, k) ==
      if FirstAfter(later, t, k).Some? then FirstAfter(later, t, k) else FirstAfter([e], t, k)
  {
    if later == [] {
      assert later + [e] == [e];
    } else {
      assert (later + [e])[1..] == later[1..] + [e];
      FirstAfterSnoc(later[1..], e, t, k);
    }
  }

  /** Every mark is the right one: the mid of the first update that is late enough. */
  lemma {:induction false} MarksAreFirst(r: Record, later: seq<Event>)
    requires r.midsAfter == map[]
    ensures forall k :: k in INTERVALS ==> Get(Evolve(r, later).midsAfter, k) == FirstAfter(later, r.fillTime, k)
    ensures Evolve(r, later) == r.(midsAfter := Evolve(r, later).midsAfter)
  {
    if later != [] {
      var n := |later| - 1;
      MarksAreFirst(r, later[..n]);
      ApplyMarks(Evolve(r, later[..n]), later[n]);
      assert later == later[..n] + [later[n]];
      forall k | k in INTERVALS
        ensures Get(Evolve(r, later).midsAfter, k) == FirstAfter(later, r.fillTime, k)
      {
        FirstAfterSnoc(later[..n], later[n], r.fillTime, k);
      }
    }
  }

  // The intervals that an event marks, if they are not marked yet.
  ghost function Reached(e: Event, t: real): set<int> {
    match e
    case Filled(_) => {}
    case MidUpdate(_, at) =>
      if at - t >= 30.0 then {1, 5, 30} else if at - t >= 5.0 then {1, 5} else if at - t >= 1.0 then {1} else {}
    case Flushed(_) => {1, 5, 30}
  }

  lemma ApplyKeys(r: Record, e: Event)
    ensures Apply(r, e).midsAfter.Keys == r.midsAfter.Keys + Reached(e, r.fillTime)
    ensures Apply(r, e).fillTime == r.fillTime
  {
    ApplyMarks(r, e);
    assert forall k :: k in INTERVALS <==> k in {1, 5, 30};
    forall k
      ensures k in Apply(r, e).midsAfter <==> k in r.midsAfter || k in Reached(e, r.fillTime)
    {
      assert k in INTERVALS ==> (FirstAfter([e], r.fillTime, k).Some? <==> k in Reached(e, r.fillTime));
    }
  }

  /** The marked intervals are always a prefix of 1, 5, 30. */
  lemma ApplyKeepsPrefix(r: Record, e: Event)
    requires PrefixKeys(r)
    ensures PrefixKeys(Apply(r, e))
    ensures Complete(r) ==> Apply(r, e) == r
    ensures e.Flushed? ==> Complete(Apply(r, e))
  {
    ApplyKeys(r, e);
    PrefixUnion(r.midsAfter.Keys, Reached(e, r.fillTime));
    CountKeys(r);
    CountKeys(Apply(r, e));
    ApplyMarks(r, e);
    if Complete(r) {
      assert Apply(r, e).midsAfter == r.midsAfter;
    }
  }

  ghost predicate IsPrefix(s: set<int>) {
    s == {} || s == {1} || s == {1, 5} || s == {1, 5, 30}
  }

  lemma PrefixUnion(a: set<int>, b: set<int>)
    requires IsPrefix(a) && IsPrefix(b)
    ensures a + b == a || a + b == b
  {
  }

  lemma CountKeys(r: Record)
    requires PrefixKeys(r)
    ensures Complete(r) <==> r.midsAfter.Keys == {1, 5, 30}
  {
    assert |r.midsAfter| == |r.midsAfter.Keys|;
    assert |{1, 5, 30}| == 3 && |{1, 5}| == 2 && |{1}| == 1;
  }

  // ── All records ──

  function ApplyAll(rs: seq<Record>, e: Event): (r: seq<Record>)
  {
    seq(|rs|, i requires 0 <= i < |rs| => Apply(rs[i], e))
  }

  /** Every fill of the log, in order, with the marks that it has by the end. */
  function Evolved(log: seq<Event>): seq<Record> {
    if log == [] then []
    else
      var n := |log| - 1;
      var before := Evolved(log[..n]);
      if log[n].Filled? then before + [log[n].record] else ApplyAll(before, log[n])
  }

  /** The p-th event, a fill, is one of the evolved records, and the later events made it so. */
  lemma {:induction false} EvolvedAt(log: seq<Event>, p: nat)
    requires p < |log| && log[p].Filled?
    ensures var i := |Evolved(log[..p])|;
      i < |Evolved(log)| && Evolved(log)[i] == Evolve(log[p].record, log[p + 1..])
    decreases |log|
  {
    var n := |log| - 1;
    if p == n {
      assert log[p + 1..] == [];
    } else {
      EvolvedAt(log[..n], p);
      assert log[..n][..p] == log[..p];
      assert log[..n][p + 1..] == log[p + 1..][..n - p - 1];
      assert log[p + 1..][n - p - 1] == log[n];
    }
  }

  /** The mid known at the end of the log; 0 before the first update. */
  function LastMid(log: seq<Event>): real {
    if log == [] then 0.0
    else if log[|log| - 1].MidUpdate? then log[|log| - 1].mid
    else LastMid(log[..|log| - 1])
  }

  function Done(rs: seq<Record>): seq<Record> {
    if rs == [] then []
    else Done(rs[..|rs| - 1]) + if Complete(rs[|rs| - 1]) then [rs[|rs| - 1]] else []
  }

  function Open(rs: seq<Record>): seq<Record> {
    if rs == [] then []
    else Open(rs[..|rs| - 1]) + if Complete(rs[|rs| - 1]) then [] else [rs[|rs| - 1]]
  }

  ghost predicate AllPrefix(rs: seq<Record>) {
    forall i :: 0 <= i < |rs| ==> PrefixKeys(rs[i])
  }

  lemma {:induction false} Partition(rs: seq<Record>)
    ensures multiset(rs) == multiset(Done(rs)) + multiset(Open(rs))
    ensures forall r :: r in Open(rs) ==> r in rs && !Complete(r)
    ensures forall r :: r in Done(rs) ==> r in rs && Complete(r)
  {
    if rs != [] {
      var n := |rs| - 1;
      Partition(rs[..n]);
      assert rs == rs[..n] + [rs[n]];
    }
  }

  lemma {:induction false} DoneOpenConcat(a: seq<Record>, b: seq<Record>)
    ensures Done(a + b) == Done(a) + Done(b) && Open(a + b) == Open(a) + Open(b)
  {
    if b == [] {
      assert a + b == a;
    } else {
      var n := |b| - 1;
      assert (a + b)[..|a + b| - 1] == a + b[..n];
      DoneOpenConcat(a, b[..n]);
    }
  }

  lemma ApplyAllSnoc(rs: seq<Record>, r: Record, e: Event)
    ensures ApplyAll(rs + [r], e) == ApplyAll(rs, e) + [Apply(r, e)]
  {
  }

  // An event touches only the records that are still open.
  lemma {:induction false} ApplyTouchesOpen(rs: seq<Record>, e: Event)
    requires AllPrefix(rs)
    ensures Open(ApplyAll(rs, e)) == Open(ApplyAll(Open(rs), e))
    ensures multiset(Done(ApplyAll(rs, e))) == multiset(Done(rs)) + multiset(Done(ApplyAll(Open(rs), e)))
  {
    if rs != [] {
      var n := |rs| - 1;
      var front, r := rs[..n], rs[n];
      assert rs == front + [r];
      assert PrefixKeys(r);
      ApplyTouchesOpen(front, e);
      ApplyOneMore(front, r, e);
    }
  }

  lemma ApplyOneMore(front: seq<Record>, r: Record, e: Event)
    requires PrefixKeys(r)
    requires Open(ApplyAll(front, e)) == Open(ApplyAll(Open(front), e))
    requires multiset(Done(ApplyAll(front, e))) == multiset(Done(front)) + multiset(Done(ApplyAll(Open(front), e)))
    ensures var rs := front + [r];
      && Open(ApplyAll(rs, e)) == Open(ApplyAll(Open(rs), e))
      && multiset(Done(ApplyAll(rs, e))) == multiset(Done(rs)) + multiset(Done(ApplyAll(Open(rs), e)))
  {
    hide *;
    ApplyKeepsPrefix(r, e);
    ApplyAllSnoc(front, r, e);
    ApplyAllSnoc(Open(front), r, e);
    DoneOpenConcat(front, [r]);
    DoneOpenConcat(ApplyAll(front, e), [Apply(r, e)]);
    DoneOpenConcat(ApplyAll(Open(front), e), [Apply(r, e)]);
    OneRecord(r);
    OneRecord(Apply(r, e));
    if Complete(r) {
      assert Open(front) + [] == Open(front);
    }
  }

  lemma OneRecord(r: Record)
    ensures Done([r]) == (if Complete(r) then [r] else []) && Open([r]) == if Complete(r) then [] else [r]
  {
    assert [r][..0] == [];
  }

  lemma {:induction false} EvolvedPrefix(log: seq<Event>)
    requires WellFormed(log)
    ensures AllPrefix(Evolved(log))
  {
    if log != [] {
      var n := |log| - 1;
      EvolvedPrefix(log[..n]);
      var before := Evolved(log[..n]);
      forall i | 0 <= i < |before|
        ensures PrefixKeys(Apply(before[i], log[n]))
      {
        ApplyKeepsPrefix(before[i], log[n]);
      }
    }
  }

  // ── Fills in time order ──

  /** Fill times do not decrease along the log. */
  ghost predicate FillsInOrder(log: seq<Event>) {
    forall i, j :: 0 <= i < j < |log| && log[i].Filled? && log[j].Filled? ==>
      log[i].record.fillTime <= log[j].record.fillTime
  }

  // Earlier fills have at least the marks of later ones.
  ghost predicate Staggered(rs: seq<Record>) {
    forall i, j :: 0 <= i < j < |rs| ==>
      rs[i].fillTime <= rs[j].fillTime && rs[j].midsAfter.Keys <= rs[i].midsAfter.Keys
  }

  lemma {:induction false} EvolvedTimes(log: seq<Event>, t: real)
    requires forall i :: 0 <= i < |log| && log[i].Filled? ==> log[i].record.fillTime <= t
    ensures forall i :: 0 <= i < |Evolved(log)| ==> Evolved(log)[i].fillTime <= t
  {
    if log != [] {
      var n := |log| - 1;
      EvolvedTimes(log[..n], t);
      var before := Evolved(log[..n]);
      forall i | 0 <= i < |before|
        ensures Apply(before[i], log[n]).fillTime <= t
      {
        ApplyMarks(before[i], log[n]);
      }
    }
  }

  lemma ApplyStaggers(a: Record, b: Record, e: Event)
    requires a.fillTime <= b.fillTime && b.midsAfter.Keys <= a.midsAfter.Keys
    ensures Apply(a, e).fillTime <= Apply(b, e).fillTime
    ensures Apply(b, e).midsAfter.Keys <= Apply(a, e).midsAfter.Keys
  {
    ApplyMarks(a, e);
    ApplyMarks(b, e);
    ApplyKeys(a, e);
    ApplyKeys(b, e);
  }

  lemma {:induction false} EvolvedStaggered(log: seq<Event>)
    requires WellFormed(log) && FillsInOrder(log)
    ensures Staggered(Evolved(log))
  {
    if log != [] {
      var n := |log| - 1;
      EvolvedStaggered(log[..n]);
      var before := Evolved(log[..n]);
      if log[n].Filled? {
        EvolvedTimes(log[..n], log[n].record.fillTime);
      } else {
        forall i, j | 0 <= i < j < |before|
          ensures Apply(before[i], log[n]).fillTime <= Apply(before[j], log[n]).fillTime
          ensures Apply(before[j], log[n]).midsAfter.Keys <= Apply(before[i], log[n]).midsAfter.Keys
        {
          ApplyStaggers(before[i], before[j], log[n]);
        }
      }
    }
  }

  // The complete records come first.
  ghost predicate DoneLead(rs: seq<Record>) {
    forall i, j :: 0 <= i < j < |rs| && Complete(rs[j]) ==> Complete(rs[i])
  }

  lemma StaggeredLead(rs: seq<Record>)
    requires AllPrefix(rs) && Staggered(rs)
    ensures DoneLead(rs)
  {
    forall i, j | 0 <= i < j < |rs| && Complete(rs[j])
      ensures Complete(rs[i])
    {
      CountKeys(rs[i]);
      CountKeys(rs[j]);
    }
  }

  lemma {:induction false} DoneFirst(rs: seq<Record>)
    requires DoneLead(rs)
    ensures rs == Done(rs) + Open(rs)
  {
    if rs != [] {
      var n := |rs| - 1;
      DoneFirst(rs[..n]);
      if Complete(rs[n]) {
        NoneOpen(rs[..n]);
      }
      LastPart(rs);
    }
  }

  lemma LastPart(rs: seq<Record>)
    requires rs != []
    requires rs[..|rs| - 1] == Done(rs[..|rs| - 1]) + Open(rs[..|rs| - 1])
    requires Complete(rs[|rs| - 1]) ==> Open(rs[..|rs| - 1]) == []
    ensures rs == Done(rs) + Open(rs)
  {
    var front, r := rs[..|rs| - 1], rs[|rs| - 1];
    DoneOpenStep(rs);
    Rejoin(rs, front, r, Done(front), Open(front));
  }

  lemma Rejoin<T>(rs: seq<T>, front: seq<T>, r: T, d: seq<T>, o: seq<T>)
    requires rs != [] && front == rs[..|rs| - 1] && r == rs[|rs| - 1] && front == d + o
    ensures rs == d + (o + [r])
    ensures o == [] ==> rs == (d + [r]) + o
  {
    assert |rs| == |d| + |o| + 1;
    assert forall i :: 0 <= i < |front| ==> rs[i] == front[i];
  }

  lemma DoneOpenStep(rs: seq<Record>)
    requires rs != []
    ensures var front, r := rs[..|rs| - 1], rs[|rs| - 1];
      && Done(rs) == (if Complete(r) then Done(front) + [r] else Done(front))
      && Open(rs) == (if Complete(r) then Open(front) else Open(front) + [r])
  {
  }

  lemma {:induction false} NoneOpen(rs: seq<Record>)
    requires forall i :: 0 <= i < |rs| ==> Complete(rs[i])
    ensures Open(rs) == []
  {
    if rs != [] {
      NoneOpen(rs[..|rs| - 1]);
    }
  }

  // Complete records stay as they are.
  lemma {:induction false} ApplyToDone(rs: seq<Record>, e: Event)
    requires AllPrefix(rs) && Staggered(rs)
    ensures Done(ApplyAll(rs, e)) == Done(rs) + Done(ApplyAll(Open(rs), e))
  {
    StaggeredLead(rs);
    DoneFirst(rs);
    Partition(rs);
    UnchangedByApply(rs, Done(rs), e);
    AllDone(Done(rs));
    hide *;
    ApplyAllConcat(Done(rs), Open(rs), e);
    DoneOpenConcat(Done(rs), ApplyAll(Open(rs), e));
  }

  lemma ApplyAllConcat(a: seq<Record>, b: seq<Record>, e: Event)
    ensures ApplyAll(a + b, e) == ApplyAll(a, e) + ApplyAll(b, e)
  {
  }

  lemma UnchangedByApply(rs: seq<Record>, done: seq<Record>, e: Event)
    requires AllPrefix(rs) && forall r :: r in done ==> r in rs && Complete(r)
    ensures ApplyAll(done, e) == done
  {
    forall i | 0 <= i < |done|
      ensures Apply(done[i], e) == done[i]
    {
      assert done[i] in rs;
      ApplyKeepsPrefix(done[i], e);
    }
  }

  lemma {:induction false} AllDone(rs: seq<Record>)
    requires forall r :: r in rs ==> Complete(r)
    ensures Done(rs) == rs
  {
    if rs != [] {
      AllDone(rs[..|rs| - 1]);
      assert rs[|rs| - 1] in rs;
    }
  }
}

module MarkoutRecording {
  import opened Types
  import opened MarkoutLog

  function MarkoutBps(r: Record): real {
    if r.midAtFill <= 0.0 then 0.0
    else
      var midAfter := if 30 in r.midsAfter then r.midsAfter[30] else r.midAtFill;
      var change := if r.side == Buy then r.fillPrice - midAfter else midAfter - r.fillPrice;
      change / r.midAtFill * 10000.0
  }

  /** A markout is what the mid gained on a fill, seen as an accumulator, in hundredths of a percent of the mid at
      the fill: down after a buy is good, and up after a sell. */
  lemma BpsMeans(r: Record)
    ensures r.midAtFill <= 0.0 ==> MarkoutBps(r) == 0.0
    ensures r.midAtFill > 0.0 ==>
      var after := if 30 in r.midsAfter then r.midsAfter[30] else r.midAtFill;
      MarkoutBps(r) * r.midAtFill == 10000.0 * if r.side == Buy then r.fillPrice - after else after - r.fillPrice
  {
  }

  /** `done` holds the completed fills of the log, each once; in the order of the fills when
      their times do not decrease. */
  ghost predicate Accounted(log: seq<Event>, done: seq<Record>) {
    && multiset(done) == multiset(Done(Evolved(log)))
    && (FillsInOrder(log) ==> done == Done(Evolved(log)))
  }

  class MarkoutRecorder {
    var pending: seq<Record>
    var finished: seq<Record>
    var lastMid: real

    // Everything since construction or the last reset, and the records already handed out.
    ghost var log: seq<Event>
    ghost var drained: seq<Record>

    /** Each fill is exactly once among the drained, the completed and the pending; the pending
        are those that still miss a mark; and in order of time, no record overtakes another. */
    ghost predicate Valid()
      reads this
    {
      && WellFormed(log)
      && pending == Open(Evolved(log))
      && Accounted(log, drained + finished)
      && lastMid == LastMid(log)
    }

    constructor ()
      ensures Valid() && log == [] && drained == [] && finished == []
    {
      pending, finished, lastMid := [], [], 0.0;
      log, drained := [], [];
    }

    method OnFill(order: Order, filledSize: real, midPrice: real, timestamp: real)
      requires Valid()
      modifies this
      ensures Valid() && drained == old(drained) && finished == old(finished)
      ensures log == old(log)
              + [Filled(Record(order.orderId, order.side, order.price, filledSize, midPrice, map[], timestamp))]
      ensures pending == old(pending)
              + [Record(order.orderId, order.side, order.price, filledSize, midPrice, map[], timestamp)]
    {
      var r := Record(order.orderId, order.side, order.price, filledSize, midPrice, map[], timestamp);
      LogFill(log, r);
      pending := pending + [r];
      log := log + [Filled(r)];
    }

    // Marks one record at a mid update.
    static method MarkRecord(record: Record, mid: real, at: real) returns (r: Record)
      ensures r == Mark(record, mid, at)
    {
      r := record;
      for n := 0 to 3
        invariant r == MarkUpTo(record, n, mid, at)
      {
        if INTERVALS[n] !in r.midsAfter && at - r.fillTime >= INTERVALS[n] as real {
          r := r.(midsAfter := r.midsAfter[INTERVALS[n] := mid]);
        }
      }
    }

    static method ForceRecord(record: Record, mid: real) returns (r: Record)
      ensures r == ForceUpTo(record, 3, mid)
    {
      r := record;
      for n := 0 to 3
        invariant r == ForceUpTo(record, n, mid)
      {
        if INTERVALS[n] !in r.midsAfter {
          r := r.(midsAfter := r.midsAfter[INTERVALS[n] := mid]);
        }
      }
    }

    // Marks all the given records, and separates the full ones from the rest.
    static method MarkAll(records: seq<Record>, mid: real, at: real)
      returns (completedNow: seq<Record>, stillPending: seq<Record>)
      ensures completedNow == Done(ApplyAll(records, MidUpdate(mid, at)))
      ensures stillPending == Open(ApplyAll(records, MidUpdate(mid, at)))
    {
      completedNow, stillPending := [], [];
      ghost var e := MidUpdate(mid, at);
      for i := 0 to |records|
        invariant completedNow == Done(ApplyAll(records[..i], e)) && stillPending == Open(ApplyAll(records[..i], e))
      {
        var r := MarkRecord(records[i], mid, at);
        assert records[..i + 1] == records[..i] + [records[i]];
        ApplyAllSnoc(records[..i], records[i], e);
        DoneOpenConcat(ApplyAll(records[..i], e), [r]);
        OneRecord(r);
        if Complete(r) {
          completedNow := completedNow + [r];
        } else {
          stillPending := stillPending + [r];
        }
      }
      assert records[..|records|] == records;
    }

    static method ForceAll(records: seq<Record>, mid: real) returns (flushed: seq<Record>)
      ensures flushed == ApplyAll(records, Flushed(mid))
    {
      flushed := [];
      for i := 0 to |records|
        invariant flushed == ApplyAll(records[..i], Flushed(mid))
      {
        var r := ForceRecord(records[i], mid);
        assert records[..i + 1] == records[..i] + [records[i]];
        ApplyAllSnoc(records[..i], records[i], Flushed(mid));
        flushed := flushed + [r];
      }
      assert records[..|records|] == records;
    }

    /** Marks every pending record whose intervals have passed, and completes the full ones. */
    method UpdateMid(midPrice: real, timestamp: real)
      requires Valid()
      modifies this
      ensures Valid() && log == old(log) + [MidUpdate(midPrice, timestamp)] && drained == old(drained)
      ensures var marked := ApplyAll(old(pending), MidUpdate(midPrice, timestamp));
        pending == Open(marked) && finished == old(finished) + Done(marked)
    {
      var completedNow, stillPending := MarkAll(pending, midPrice, timestamp);
      hide WellFormed, Evolved, Open, Done, LastMid, Accounted;
      LogEvent(log, drained + finished, MidUpdate(midPrice, timestamp), completedNow);
      hide ApplyAll;
      assert drained + finished + completedNow == drained + (finished + completedNow);
      lastMid := midPrice;
      pending := stillPending;
      finished := finished + completedNow;
      log := log + [MidUpdate(midPrice, timestamp)];
    }

    /** Hands out the completed records and clears the buffer. */
    method Completed() returns (result: seq<Record>)
      requires Valid()
      modifies this`finished, this`drained
      ensures Valid() && result == old(finished) && finished == [] && drained == old(drained) + result
    {
      result := finished;
      finished := [];
      drained := drained + result;
      assert drained + [] == drained;
    }

    /** Completes everything that is pending with the last known mid. */
    method Flush() returns (flushed: seq<Record>)
      requires Valid()
      modifies this
      ensures Valid() && log == old(log) + [Flushed(LastMid(old(log)))] && drained == old(drained)
      ensures pending == [] && finished == old(finished) + flushed
      ensures flushed == ApplyAll(old(pending), Flushed(LastMid(old(log))))
    {
      flushed := ForceAll(pending, lastMid);
      hide WellFormed, Evolved, Open, Done, LastMid, ApplyAll, Accounted;
      LogFlush(log, drained + finished, Flushed(lastMid), flushed);
      assert drained + finished + flushed == drained + (finished + flushed);
      log := log + [Flushed(lastMid)];
      pending := [];
      finished := finished + flushed;
    }

    method Reset()
      modifies this
      ensures Valid() && log == [] && drained == [] && finished == [] && pending == []
    {
      pending, finished, lastMid := [], [], 0.0;
      log, drained := [], [];
    }

    /** The p-th event of the log, a fill, is among the records, and its mark for 1, 5 or 30
        seconds is the mid of the first update at least that much later. */
    lemma EveryFillIsMarked(p: nat)
      requires Valid() && p < |log| && log[p].Filled?
      ensures exists r :: r in drained + finished + pending && RightlyMarked(r, log, p)
    {
      EvolvedAt(log, p);
      MarksAreFirst(log[p].record, log[p + 1..]);
      Conserved();
      var r := Evolve(log[p].record, log[p + 1..]);
      assert r in Evolved(log) && r in multiset(drained + finished + pending);
      assert r in drained + finished + pending;
    }

    /** Conservation: no fill is lost or counted twice, and in time order they come out in order. */
    lemma Conserved()
      requires Valid()
      ensures multiset(drained + finished + pending) == multiset(Evolved(log))
      ensures |drained| + |finished| + |pending| == |Evolved(log)|
      ensures FillsInOrder(log) ==> drained + finished + pending == Evolved(log)
    {
      Partition(Evolved(log));
      assert |multiset(drained + finished + pending)| == |multiset(Evolved(log))|;
      if FillsInOrder(log) {
        EvolvedPrefix(log);
        EvolvedStaggered(log);
        StaggeredLead(Evolved(log));
        DoneFirst(Evolved(log));
      }
    }
  }

  lemma EvolvedSnoc(log: seq<Event>, e: Event)
    ensures Evolved(log + [e]) == if e.Filled? then Evolved(log) + [e.record] else ApplyAll(Evolved(log), e)
    ensures LastMid(log + [e]) == if e.MidUpdate? then e.mid else LastMid(log)
  {
    assert (log + [e])[..|log|] == log;
  }

  lemma WellFormedSnoc(log: seq<Event>, e: Event)
    requires WellFormed(log) && (e.Filled? ==> e.record.midsAfter == map[])
    ensures WellFormed(log + [e])
  {
  }

  /** r is the p-th event's fill, each mark of it the mid of the first update that is late enough. */
  ghost predicate RightlyMarked(r: Record, log: seq<Event>, p: nat)
    requires p < |log| && log[p].Filled?
  {
    && r == log[p].record.(midsAfter := r.midsAfter)
    && (forall k :: k in INTERVALS ==> Get(r.midsAfter, k) == FirstAfter(log[p + 1..], log[p].record.fillTime, k))
  }

  lemma LogFill(log: seq<Event>, r: Record)
    requires WellFormed(log) && r.midsAfter == map[]
    ensures var log' := log + [Filled(r)];
      && WellFormed(log') && Evolved(log') == Evolved(log) + [r] && LastMid(log') == LastMid(log)
      && Open(Evolved(log')) == Open(Evolved(log)) + [r] && Done(Evolved(log')) == Done(Evolved(log))
      && (FillsInOrder(log') ==> FillsInOrder(log))
  {
    EvolvedSnoc(log, Filled(r));
    WellFormedSnoc(log, Filled(r));
    DoneOpenConcat(Evolved(log), [r]);
    OneRecord(r);
    EmptyIsIncomplete(r);
    hide *;
    assert Done(Evolved(log)) + [] == Done(Evolved(log));
    if FillsInOrder(log + [Filled(r)]) {
      OrderedFront(log, Filled(r));
    }
  }

  lemma EmptyIsIncomplete(r: Record)
    requires r.midsAfter == map[]
    ensures !Complete(r)
  {
  }

  lemma OrderedFront(log: seq<Event>, e: Event)
    requires FillsInOrder(log + [e])
    ensures FillsInOrder(log)
  {
    forall i, j | 0 <= i < j < |log| && log[i].Filled? && log[j].Filled?
      ensures log[i].record.fillTime <= log[j].record.fillTime
    {
      assert (log + [e])[i] == log[i] && (log + [e])[j] == log[j];
    }
  }

  // A mid update or flush, seen from the pending records alone.
  lemma LogEvent(log: seq<Event>, done: seq<Record>, e: Event, now: seq<Record>)
    requires WellFormed(log) && !e.Filled? && Accounted(log, done)
    requires now == Done(ApplyAll(Open(Evolved(log)), e))
    ensures WellFormed(log + [e]) && Accounted(log + [e], done + now)
    ensures Open(Evolved(log + [e])) == Open(ApplyAll(Open(Evolved(log)), e))
    ensures LastMid(log + [e]) == if e.MidUpdate? then e.mid else LastMid(log)
  {
    WellFormedSnoc(log, e);
    hide *;
    EvolvedSnoc(log, e);
    EvolvedPrefix(log);
    ApplyTouchesOpen(Evolved(log), e);
    AccountedMore(log, done, e, now);
  }

  lemma AccountedMore(log: seq<Event>, done: seq<Record>, e: Event, now: seq<Record>)
    requires WellFormed(log) && !e.Filled? && Accounted(log, done)
    requires now == Done(ApplyAll(Open(Evolved(log)), e))
    ensures Accounted(log + [e], done + now)
  {
    hide WellFormed, Evolved, Done, Open, ApplyAll, FillsInOrder, AllPrefix, Staggered;
    EvolvedSnoc(log, e);
    EvolvedPrefix(log);
    ApplyTouchesOpen(Evolved(log), e);
    if FillsInOrder(log + [e]) {
      OrderedFront(log, e);
      EvolvedStaggered(log);
      ApplyToDone(Evolved(log), e);
    }
  }

  lemma FlushCompletes(log: seq<Event>, e: Event)
    requires WellFormed(log) && e.Flushed?
    ensures var rs := ApplyAll(Open(Evolved(log)), e); Done(rs) == rs && Open(rs) == []
  {
    var open := Open(Evolved(log));
    EvolvedPrefix(log);
    Partition(Evolved(log));
    forall i | 0 <= i < |open|
      ensures Complete(ApplyAll(open, e)[i])
    {
      assert open[i] in open;
      ApplyKeepsPrefix(open[i], e);
    }
    AllDone(ApplyAll(open, e));
    NoneOpen(ApplyAll(open, e));
  }

  lemma LogFlush(log: seq<Event>, done: seq<Record>, e: Event, now: seq<Record>)
    requires WellFormed(log) && e.Flushed? && Accounted(log, done) && now == ApplyAll(Open(Evolved(log)), e)
    ensures WellFormed(log + [e]) && Accounted(log + [e], done + now)
    ensures Open(Evolved(log + [e])) == [] && LastMid(log + [e]) == LastMid(log)
  {
    hide *;
    FlushCompletes(log, e);
    LogEvent(log, done, e, now);
  }
}

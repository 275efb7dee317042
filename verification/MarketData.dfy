// market/market_data.py: the order book kept from snapshots and deltas, and its indicators.
//
// BookSides holds the specification: sorted levels, the plain price map they list, depth
// and execution walks, the history of mids. LiveBook is the class kept up to date in place.

module BookSides {
  import opened Types
  import opened Averages

  /** The order in which a side is kept: bids from the highest price, asks from the lowest. */
  function Rank(side: Side, price: real): real {
    if side == Buy then -price else price
  }

  ghost predicate Sorted(side: Side, levels: seq<Level>) {
    forall i, j :: 0 <= i < j < |levels| ==> Rank(side, levels[i].price) <= Rank(side, levels[j].price)
  }

  ghost predicate StrictlySorted(side: Side, levels: seq<Level>) {
    forall i, j :: 0 <= i < j < |levels| ==> Rank(side, levels[i].price) < Rank(side, levels[j].price)
  }

  ghost predicate DistinctPrices(levels: seq<Level>) {
    forall i, j :: 0 <= i < j < |levels| ==> levels[i].price != levels[j].price
  }

  ghost predicate HasPrice(levels: seq<Level>, price: real) {
    exists i :: 0 <= i < |levels| && levels[i].price == price
  }

  /** What holds even when a snapshot repeats a price: every mapped level is in the sorted list. */
  ghost predicate Covers(side: Side, levels: seq<Level>, lookup: map<real, real>) {
    && Sorted(side, levels)
    && (forall p :: p in lookup ==> Level(p, lookup[p]) in levels)
  }

  /** The sorted list and the price map of one side hold the same levels, each once. */
  ghost predicate Lists(side: Side, levels: seq<Level>, lookup: map<real, real>) {
    && Covers(side, levels, lookup) && StrictlySorted(side, levels)
    && (forall i :: 0 <= i < |levels| ==> levels[i].price in lookup && lookup[levels[i].price] == levels[i].size)
  }

  lemma RankInjective(side: Side, p: real, q: real)
    ensures Rank(side, p) == Rank(side, q) <==> p == q
  {
  }

  /** A price map has one sorted listing. */
  lemma {:induction false} ListingIsUnique(side: Side, a: seq<Level>, b: seq<Level>, lookup: map<real, real>)
    requires Lists(side, a, lookup) && Lists(side, b, lookup)
    ensures a == b
  {
    SameHead(side, a, b, lookup);
    SameHead(side, b, a, lookup);
    if a != [] {
      RankInjective(side, a[0].price, b[0].price);
      ListsTail(side, a, lookup);
      ListsTail(side, b, lookup);
      ListingIsUnique(side, a[1..], b[1..], lookup - {a[0].price});
      assert a == [a[0]] + a[1..] && b == [b[0]] + b[1..];
    }
  }

  lemma SameHead(side: Side, a: seq<Level>, b: seq<Level>, lookup: map<real, real>)
    requires Lists(side, a, lookup) && Lists(side, b, lookup)
    ensures a != [] ==> b != [] && Rank(side, b[0].price) <= Rank(side, a[0].price)
  {
    if a != [] {
      assert Level(a[0].price, a[0].size) in b;
    }
  }

  lemma ListsTail(side: Side, a: seq<Level>, lookup: map<real, real>)
    requires Lists(side, a, lookup) && a != []
    ensures Lists(side, a[1..], lookup - {a[0].price})
  {
    forall p | p in lookup && p != a[0].price
      ensures Level(p, lookup[p]) in a[1..]
    {
      assert Level(p, lookup[p]) in a && Level(p, lookup[p]) != a[0];
    }
    forall i | 0 <= i < |a[1..]|
      ensures a[1..][i].price in lookup - {a[0].price}
    {
      assert Rank(side, a[0].price) < Rank(side, a[i + 1].price);
    }
  }

  // ── One level in, one level out ──

  function InsertAt(levels: seq<Level>, k: nat, l: Level): seq<Level>
    requires k <= |levels|
  {
    levels[..k] + [l] + levels[k..]
  }

  lemma InsertAtShape(levels: seq<Level>, k: nat, l: Level)
    requires k <= |levels|
    ensures var r := InsertAt(levels, k, l);
      && |r| == |levels| + 1 && r[k] == l
      && (forall i :: 0 <= i < |levels| ==> r[if i < k then i else i + 1] == levels[i])
      && (forall i :: 0 <= i < |r| && i != k ==> r[i] == levels[if i < k then i else i - 1])
  {
  }

  ghost predicate Between(side: Side, levels: seq<Level>, k: nat, l: Level)
    requires k <= |levels|
  {
    && (forall i :: 0 <= i < k ==> Rank(side, levels[i].price) <= Rank(side, l.price))
    && (forall i :: k <= i < |levels| ==> Rank(side, l.price) <= Rank(side, levels[i].price))
  }

  lemma InsertAtSorts(side: Side, levels: seq<Level>, k: nat, l: Level)
    requires Sorted(side, levels) && k <= |levels| && Between(side, levels, k, l)
    ensures Sorted(side, InsertAt(levels, k, l))
    ensures StrictlySorted(side, levels) && !HasPrice(levels, l.price) ==> StrictlySorted(side, InsertAt(levels, k, l))
  {
    hide Rank, InsertAt;
    var r := InsertAt(levels, k, l);
    InsertAtShape(levels, k, l);
    forall i, j | 0 <= i < j < |r|
      ensures Rank(side, r[i].price) <= Rank(side, r[j].price)
      ensures StrictlySorted(side, levels) && !HasPrice(levels, l.price) ==>
        Rank(side, r[i].price) < Rank(side, r[j].price)
    {
      RankInjective(side, r[i].price, r[j].price);
      assert i < k ==> r[i] == levels[i];
      assert i > k ==> r[i] == levels[i - 1];
      assert j < k ==> r[j] == levels[j];
      assert j > k ==> r[j] == levels[j - 1];
    }
  }

  lemma InsertAtStrictly(side: Side, levels: seq<Level>, k: nat, l: Level)
    requires k <= |levels| && StrictlySorted(side, InsertAt(levels, k, l))
    ensures StrictlySorted(side, levels) && !HasPrice(levels, l.price)
  {
    hide Rank, InsertAt;
    var r := InsertAt(levels, k, l);
    InsertAtShape(levels, k, l);
    forall i, j | 0 <= i < j < |levels|
      ensures Rank(side, levels[i].price) < Rank(side, levels[j].price)
    {
      assert levels[i] == r[if i < k then i else i + 1];
      assert levels[j] == r[if j < k then j else j + 1];
    }
    forall i | 0 <= i < |levels|
      ensures levels[i].price != l.price
    {
      var m := if i < k then i else i + 1;
      assert levels[i] == r[m] && r[k] == l;
      assert if m < k then Rank(side, r[m].price) < Rank(side, l.price)
             else Rank(side, l.price) < Rank(side, r[m].price);
      RankInjective(side, levels[i].price, l.price);
    }
  }

  // ── Snapshots ──

  /** Where a new level goes: behind every level that it does not precede. */
  function SlotFor(side: Side, levels: seq<Level>, l: Level): (k: nat)
    ensures k <= |levels|
  {
    if levels == [] then 0
    else if Rank(side, l.price) < Rank(side, levels[|levels| - 1].price)
    then SlotFor(side, levels[..|levels| - 1], l)
    else |levels|
  }

  /** `sorted(...)` by price: stable. */
  function SortLevels(side: Side, levels: seq<Level>): seq<Level> {
    if levels == [] then []
    else
      var front := SortLevels(side, levels[..|levels| - 1]);
      var l := levels[|levels| - 1];
      InsertAt(front, SlotFor(side, front, l), l)
  }

  /** `{lv.price: lv.size for lv in levels}`: a later level replaces an earlier one. */
  function PriceMap(levels: seq<Level>): map<real, real> {
    if levels == [] then map[]
    else
      var l := levels[|levels| - 1];
      PriceMap(levels[..|levels| - 1])[l.price := l.size]
  }

  /** r holds the same levels, in order, and strictly so when no price is repeated. */
  ghost predicate IsSorting(side: Side, levels: seq<Level>, r: seq<Level>) {
    && Sorted(side, r)
    && multiset(r) == multiset(levels)
    && (StrictlySorted(side, r) <==> DistinctPrices(levels))
  }

  lemma {:induction false} SortLevelsSorts(side: Side, levels: seq<Level>)
    ensures IsSorting(side, levels, SortLevels(side, levels))
  {
    if levels == [] {
    } else {
      var n := |levels| - 1;
      SortLevelsSorts(side, levels[..n]);
      SortLevelsStep(side, levels);
    }
  }

  lemma SortLevelsStep(side: Side, levels: seq<Level>)
    requires levels != []
    requires IsSorting(side, levels[..|levels| - 1], SortLevels(side, levels[..|levels| - 1]))
    ensures IsSorting(side, levels, SortLevels(side, levels))
  {
    hide IsSorting, InsertAt, SlotFor;
    var n := |levels| - 1;
    SortOneMore(side, levels[..n], SortLevels(side, levels[..n]), levels[n]);
    assert levels == levels[..n] + [levels[n]];
  }

  lemma SortOneMore(side: Side, levels: seq<Level>, front: seq<Level>, l: Level)
    requires IsSorting(side, levels, front)
    ensures IsSorting(side, levels + [l], InsertAt(front, SlotFor(side, front, l), l))
  {
    hide Rank, StrictlySorted, DistinctPrices, HasPrice, InsertAt;
    var k := SlotFor(side, front, l);
    SlotIsBetween(side, front, l);
    InsertAtSorts(side, front, k, l);
    InsertAtMultiset(front, k, l);
    SamePrices(front, levels, l.price);
    DistinctFront(levels + [l]);
    assert (levels + [l])[..|levels|] == levels;
    if StrictlySorted(side, InsertAt(front, k, l)) {
      InsertAtStrictly(side, front, k, l);
    }
  }

  lemma {:induction false} SlotIsBetween(side: Side, levels: seq<Level>, l: Level)
    requires Sorted(side, levels)
    ensures Between(side, levels, SlotFor(side, levels, l), l)
  {
    if levels != [] {
      var n := |levels| - 1;
      if Rank(side, l.price) < Rank(side, levels[n].price) {
        SlotIsBetween(side, levels[..n], l);
        var k := SlotFor(side, levels, l);
        forall i | 0 <= i < n
          ensures levels[..n][i] == levels[i]
        {
        }
      }
    }
  }

  lemma InsertAtMultiset(levels: seq<Level>, k: nat, l: Level)
    requires k <= |levels|
    ensures multiset(InsertAt(levels, k, l)) == multiset(levels) + multiset{l}
  {
    assert levels == levels[..k] + levels[k..];
  }

  lemma SamePrices(a: seq<Level>, b: seq<Level>, price: real)
    requires multiset(a) == multiset(b)
    ensures HasPrice(a, price) <==> HasPrice(b, price)
  {
    if HasPrice(a, price) {
      var i :| 0 <= i < |a| && a[i].price == price;
      assert a[i] in multiset(b);
    }
    if HasPrice(b, price) {
      var i :| 0 <= i < |b| && b[i].price == price;
      assert b[i] in multiset(a);
    }
  }

  lemma DistinctFront(levels: seq<Level>)
    requires levels != []
    ensures DistinctPrices(levels) <==>
      DistinctPrices(levels[..|levels| - 1]) && !HasPrice(levels[..|levels| - 1], levels[|levels| - 1].price)
  {
    var front := levels[..|levels| - 1];
    if DistinctPrices(front) && !HasPrice(front, levels[|levels| - 1].price) {
      forall i, j | 0 <= i < j < |levels|
        ensures levels[i].price != levels[j].price
      {
        assert levels[i] == front[i];
        assert j < |front| ==> levels[j] == front[j];
      }
    }
  }

  lemma {:induction false} PriceMapCovered(levels: seq<Level>)
    ensures forall p :: p in PriceMap(levels) ==> Level(p, PriceMap(levels)[p]) in levels
    ensures forall i :: 0 <= i < |levels| ==> levels[i].price in PriceMap(levels)
    ensures DistinctPrices(levels) ==> forall i :: 0 <= i < |levels| ==>
      PriceMap(levels)[levels[i].price] == levels[i].size
  {
    if levels != [] {
      var n := |levels| - 1;
      PriceMapCovered(levels[..n]);
      DistinctFront(levels);
      forall i | 0 <= i < n
        ensures levels[i].price in PriceMap(levels)
        ensures DistinctPrices(levels) ==> PriceMap(levels)[levels[i].price] == levels[i].size
      {
        assert levels[..n][i] == levels[i];
      }
    }
  }

  lemma StrictIsDistinct(side: Side, levels: seq<Level>)
    requires StrictlySorted(side, levels)
    ensures DistinctPrices(levels)
  {
    forall i, j | 0 <= i < j < |levels|
      ensures levels[i].price != levels[j].price
    {
      assert Rank(side, levels[i].price) < Rank(side, levels[j].price);
    }
  }

  /** A snapshot's list and map agree exactly when the snapshot does not repeat a price. */
  lemma SnapshotLists(side: Side, levels: seq<Level>)
    ensures Covers(side, SortLevels(side, levels), PriceMap(SortLevels(side, levels)))
    ensures Lists(side, SortLevels(side, levels), PriceMap(SortLevels(side, levels))) <==> DistinctPrices(levels)
  {
    var sorted := SortLevels(side, levels);
    SortLevelsSorts(side, levels);
    PriceMapCovered(sorted);
    hide Rank, PriceMap, SortLevels;
    if StrictlySorted(side, sorted) {
      StrictIsDistinct(side, sorted);
    }
  }

  /** A snapshot that repeats a price leaves two levels in the list and one in the map. */
  lemma RepeatedPriceSplits()
    ensures var levels := [Level(100.0, 1.0), Level(100.0, 2.0)];
      !Lists(Buy, SortLevels(Buy, levels), PriceMap(SortLevels(Buy, levels)))
  {
    var levels := [Level(100.0, 1.0), Level(100.0, 2.0)];
    assert levels[0].price == levels[1].price;
    SnapshotLists(Buy, levels);
  }

  // A level put in front of nothing of its price is the last word on that price.
  lemma {:induction false} PriceMapInsert(levels: seq<Level>, k: nat, l: Level)
    requires k <= |levels| && forall i :: k <= i < |levels| ==> levels[i].price != l.price
    ensures PriceMap(InsertAt(levels, k, l)) == PriceMap(levels)[l.price := l.size]
  {
    var n := |levels|;
    if k == n {
      assert InsertAt(levels, k, l)[..n] == levels;
    } else {
      var front := levels[..n - 1];
      InsertAtFront(levels, k, l);
      hide InsertAt;
      PriceMapInsert(front, k, l);
    }
  }

  lemma InsertAtFront(levels: seq<Level>, k: nat, l: Level)
    requires k < |levels|
    ensures var r := InsertAt(levels, k, l);
      && |r| == |levels| + 1 && r[|levels|] == levels[|levels| - 1]
      && r[..|levels|] == InsertAt(levels[..|levels| - 1], k, l)
  {
  }

  /** Sorting is stable: the map read off the sorted list is the one read off the snapshot. */
  lemma {:induction false} SortKeepsPriceMap(side: Side, levels: seq<Level>)
    ensures PriceMap(SortLevels(side, levels)) == PriceMap(levels)
  {
    if levels != [] {
      var n := |levels| - 1;
      var l := levels[n];
      var front := SortLevels(side, levels[..n]);
      SortKeepsPriceMap(side, levels[..n]);
      SlotIsPastEquals(side, front, l);
      PriceMapInsert(front, SlotFor(side, front, l), l);
    }
  }

  lemma {:induction false} SlotIsPastEquals(side: Side, levels: seq<Level>, l: Level)
    ensures forall i :: SlotFor(side, levels, l) <= i < |levels| ==> levels[i].price != l.price
  {
    if levels != [] && Rank(side, l.price) < Rank(side, levels[|levels| - 1].price) {
      var front := levels[..|levels| - 1];
      SlotIsPastEquals(side, front, l);
      forall i | SlotFor(side, levels, l) <= i < |levels|
        ensures levels[i].price != l.price
      {
        assert i < |front| ==> levels[i] == front[i];
      }
    }
  }

  /** The list is never shorter than the map it covers, and agrees with it exactly when it is no longer. */
  lemma ListsByCount(side: Side, levels: seq<Level>, lookup: map<real, real>)
    requires Covers(side, levels, lookup)
    ensures |lookup| <= |levels|
    ensures Lists(side, levels, lookup) <==> |lookup| == |levels|
  {
    CountCovered(levels, lookup);
    if Lists(side, levels, lookup) {
      StrictIsDistinct(side, levels);
      CountListed(levels, lookup);
    }
    if |lookup| == |levels| {
      forall i, j | 0 <= i < j < |levels|
        ensures Rank(side, levels[i].price) < Rank(side, levels[j].price)
      {
        RankInjective(side, levels[i].price, levels[j].price);
      }
    }
  }

  ghost predicate Mapped(levels: seq<Level>, lookup: map<real, real>) {
    forall i :: 0 <= i < |levels| ==> levels[i].price in lookup && lookup[levels[i].price] == levels[i].size
  }

  lemma {:induction false} CountCovered(levels: seq<Level>, lookup: map<real, real>)
    requires forall p :: p in lookup ==> Level(p, lookup[p]) in levels
    ensures |lookup| <= |levels|
    ensures |lookup| == |levels| ==> DistinctPrices(levels) && Mapped(levels, lookup)
  {
    if levels == [] {
      assert forall p :: p !in lookup;
      assert lookup == map[];
    } else {
      var l, tail := levels[0], levels[1..];
      if l.price in lookup && lookup[l.price] == l.size {
        var rest := lookup - {l.price};
        CoveredByTail(levels, lookup, rest);
        assert lookup.Keys == rest.Keys + {l.price};
        assert |lookup.Keys| == |rest.Keys| + 1;
        CountCovered(tail, rest);
        if |rest| == |tail| {
          DistinctCons(levels, rest);
          MappedCons(levels, lookup);
        }
      } else {
        CoveredByTail(levels, lookup, lookup);
        CountCovered(tail, lookup);
      }
    }
  }

  lemma CoveredByTail(levels: seq<Level>, lookup: map<real, real>, rest: map<real, real>)
    requires levels != [] && forall p :: p in lookup ==> Level(p, lookup[p]) in levels
    requires forall p :: p in rest ==> p in lookup && rest[p] == lookup[p] && Level(p, rest[p]) != levels[0]
    ensures forall p :: p in rest ==> Level(p, rest[p]) in levels[1..]
  {
    forall p | p in rest
      ensures Level(p, rest[p]) in levels[1..]
    {
      assert Level(p, lookup[p]) in levels;
    }
  }

  lemma MappedCons(levels: seq<Level>, lookup: map<real, real>)
    requires levels != [] && levels[0].price in lookup && lookup[levels[0].price] == levels[0].size
    requires Mapped(levels[1..], lookup - {levels[0].price})
    ensures Mapped(levels, lookup)
  {
    forall i | 0 <= i < |levels|
      ensures levels[i].price in lookup && lookup[levels[i].price] == levels[i].size
    {
      if i > 0 {
        assert levels[i] == levels[1..][i - 1];
      }
    }
  }

  lemma DistinctCons(levels: seq<Level>, rest: map<real, real>)
    requires levels != [] && DistinctPrices(levels[1..]) && Mapped(levels[1..], rest) && levels[0].price !in rest
    ensures DistinctPrices(levels)
  {
    forall i, j | 0 <= i < j < |levels|
      ensures levels[i].price != levels[j].price
    {
      assert levels[j] == levels[1..][j - 1];
      assert i > 0 ==> levels[i] == levels[1..][i - 1];
    }
  }

  lemma {:induction false} CountListed(levels: seq<Level>, lookup: map<real, real>)
    requires DistinctPrices(levels) && Mapped(levels, lookup)
    ensures |levels| <= |lookup|
  {
    if levels != [] {
      var p := levels[0].price;
      var rest := lookup - {p};
      forall i | 0 <= i < |levels[1..]|
        ensures levels[1..][i].price in rest
      {
        assert levels[0].price != levels[i + 1].price;
      }
      assert lookup.Keys == rest.Keys + {p};
      assert |lookup.Keys| == |rest.Keys| + 1;
      CountListed(levels[1..], rest);
    }
  }

  // ── Deltas ──

  /** What a delta means on a plain price map: set the level, or remove it. */
  function PlainDelta(m: map<real, real>, price: real, size: real): map<real, real> {
    if size > 0.0 then m[price := size] else m - {price}
  }

  /** `levels.remove(l)`: takes out the first occurrence. */
  function RemoveFirst(levels: seq<Level>, l: Level): (r: seq<Level>)
    requires l in levels
    ensures |r| == |levels| - 1
  {
    if levels[0] == l then levels[1..] else [levels[0]] + RemoveFirst(levels[1..], l)
  }

  // A removal undoes an insertion.
  lemma {:induction false} RemoveFirstShape(levels: seq<Level>, l: Level) returns (k: nat)
    requires l in levels
    ensures k < |levels| && levels == InsertAt(RemoveFirst(levels, l), k, l)
  {
    if levels[0] == l {
      k := 0;
    } else {
      var j := RemoveFirstShape(levels[1..], l);
      k := j + 1;
      assert levels == [levels[0]] + levels[1..];
    }
  }

  lemma RemovalCovers(side: Side, levels: seq<Level>, lookup: map<real, real>, price: real)
    requires price in lookup && Covers(side, levels, lookup)
    ensures Covers(side, RemoveFirst(levels, Level(price, lookup[price])), lookup - {price})
  {
    var l := Level(price, lookup[price]);
    var k := RemoveFirstShape(levels, l);
    var rest := RemoveFirst(levels, l);
    RestSorted(side, rest, k, l);
    forall p | p in lookup && p != price
      ensures Level(p, lookup[p]) in rest
    {
      StillThere(rest, k, l, Level(p, lookup[p]));
    }
  }

  lemma RestSorted(side: Side, rest: seq<Level>, k: nat, l: Level)
    requires k <= |rest| && Sorted(side, InsertAt(rest, k, l))
    ensures Sorted(side, rest)
  {
    hide Rank, InsertAt;
    var r := InsertAt(rest, k, l);
    InsertAtShape(rest, k, l);
    forall i, j | 0 <= i < j < |rest|
      ensures Rank(side, rest[i].price) <= Rank(side, rest[j].price)
    {
      assert rest[i] == r[if i < k then i else i + 1];
      assert rest[j] == r[if j < k then j else j + 1];
    }
  }

  lemma StillThere(rest: seq<Level>, k: nat, l: Level, x: Level)
    requires k <= |rest| && x in InsertAt(rest, k, l) && x != l
    ensures x in rest
  {
  }

  lemma InsertionCovers(side: Side, levels: seq<Level>, lookup: map<real, real>, k: nat, l: Level)
    requires Covers(side, levels, lookup) && l.price !in lookup && k <= |levels|
    requires Between(side, levels, k, l)
    ensures Covers(side, InsertAt(levels, k, l), lookup[l.price := l.size])
  {
    hide Rank, InsertAt;
    var r := InsertAt(levels, k, l);
    InsertAtShape(levels, k, l);
    InsertAtSorts(side, levels, k, l);
    forall p | p in lookup
      ensures Level(p, lookup[p]) in r
    {
      var i :| 0 <= i < |levels| && levels[i] == Level(p, lookup[p]);
      assert r[if i < k then i else i + 1] == levels[i];
    }
    assert r[k] == l;
  }

  // ── Whole runs ──

  datatype Event = Snapshot(book: OrderBook) | Delta(side: Side, price: real, size: real)

  function SideOf(book: OrderBook, side: Side): seq<Level> {
    if side == Buy then book.bids else book.asks
  }

  /** A side's content as a plain price map: snapshots replace it, deltas set or remove a price. */
  function Content(events: seq<Event>, side: Side): map<real, real> {
    if events == [] then map[]
    else
      var before := Content(events[..|events| - 1], side);
      match events[|events| - 1]
      case Snapshot(book) => PriceMap(SideOf(book, side))
      case Delta(s, price, size) => if s == side then PlainDelta(before, price, size) else before
  }

  /** The latest snapshot, if any, repeats no price on the side. */
  ghost predicate LastSnapshotDistinct(events: seq<Event>, side: Side) {
    events != [] ==>
      match events[|events| - 1]
      case Snapshot(book) => DistinctPrices(SideOf(book, side))
      case Delta(_, _, _) => LastSnapshotDistinct(events[..|events| - 1], side)
  }

  ghost function SizeAt(m: map<real, real>, price: real): Option<real> {
    if price in m then Some(m[price]) else None
  }

  /** A delta sets the size of its price on its side, or removes the price if the size is not positive; the other
      prices and the other side stay. */
  lemma DeltaMeans(events: seq<Event>, side: Side, s: Side, price: real, size: real, p: real)
    ensures SizeAt(Content(events + [Delta(s, price, size)], side), p)
            == if s == side && p == price then (if 0.0 < size then Some(size) else None)
               else SizeAt(Content(events, side), p)
  {
    assert (events + [Delta(s, price, size)])[..|events|] == events;
  }

  /** The last level of a list at its price. */
  ghost predicate LastAt(levels: seq<Level>, i: nat, p: real) {
    i < |levels| && levels[i].price == p && forall j :: i < j < |levels| ==> levels[j].price != p
  }

  /** A snapshot leaves at each price the size of its last level there, and nothing else. */
  lemma SnapshotMeans(events: seq<Event>, side: Side, book: OrderBook, p: real)
    ensures var levels := if side == Buy then book.bids else book.asks;
      var at := SizeAt(Content(events + [Snapshot(book)], side), p);
      && (at == None <==> forall i :: 0 <= i < |levels| ==> levels[i].price != p)
      && forall i: nat :: LastAt(levels, i, p) ==> at == Some(levels[i].size)
  {
    LastLevelCounts(if side == Buy then book.bids else book.asks, p);
  }

  lemma {:induction false} LastLevelCounts(levels: seq<Level>, p: real)
    ensures p in PriceMap(levels) <==> exists i :: 0 <= i < |levels| && levels[i].price == p
    ensures forall i: nat :: LastAt(levels, i, p) ==> SizeAt(PriceMap(levels), p) == Some(levels[i].size)
  {
    if levels != [] {
      var n := |levels| - 1;
      var front := levels[..n];
      LastLevelCounts(front, p);
      forall i: nat | LastAt(levels, i, p)
        ensures SizeAt(PriceMap(levels), p) == Some(levels[i].size)
      {
        if i < n {
          assert front[i] == levels[i] && LastAt(front, i, p);
        }
      }
      if p in PriceMap(front) {
        var i :| 0 <= i < n && front[i].price == p;
        assert levels[i].price == p;
      }
      assert levels[n].price == p || forall i :: 0 <= i < n ==> front[i] == levels[i];
    }
  }

  // ── Depth ──

  /** A level counts towards the depth at `price` when it is no worse. */
  predicate Within(side: Side, l: Level, price: real) {
    if side == Buy then l.price >= price else l.price <= price
  }

  /** The full scan of the side. */
  function FilteredDepth(side: Side, levels: seq<Level>, price: real): real {
    if levels == [] then 0.0
    else
      FilteredDepth(side, levels[..|levels| - 1], price)
      + if Within(side, levels[|levels| - 1], price) then levels[|levels| - 1].size else 0.0
  }

  /** Depth adds up over the levels: each counts with its size if its price is no worse than the given one. */
  lemma {:induction false} DepthAdds(side: Side, a: seq<Level>, b: seq<Level>, l: Level, price: real)
    ensures FilteredDepth(side, a + b, price) == FilteredDepth(side, a, price) + FilteredDepth(side, b, price)
    ensures FilteredDepth(Buy, [l], price) == if price <= l.price then l.size else 0.0
    ensures FilteredDepth(Sell, [l], price) == if l.price <= price then l.size else 0.0
  {
    assert [l][..0] == [];
    if b == [] {
      assert a + b == a;
    } else {
      var n := |b| - 1;
      assert (a + b)[..|a + b| - 1] == a + b[..n];
      DepthAdds(side, a, b[..n], l, price);
    }
  }

  // Past the first level that is worse than `price`, a sorted side adds nothing.
  lemma {:induction false} NothingDeeper(side: Side, levels: seq<Level>, price: real, i: nat)
    requires Sorted(side, levels) && i <= |levels|
    requires i < |levels| ==> !Within(side, levels[i], price)
    ensures FilteredDepth(side, levels, price) == FilteredDepth(side, levels[..i], price)
    decreases |levels|
  {
    if i < |levels| {
      var n := |levels| - 1;
      assert Rank(side, levels[i].price) <= Rank(side, levels[n].price);
      if i < n {
        NothingDeeper(side, levels[..n], price, i);
        assert levels[..n][..i] == levels[..i];
      }
    } else {
      assert levels[..i] == levels;
    }
  }

  // ── Execution walks ──

  ghost predicate Positive(levels: seq<Level>) {
    forall i :: 0 <= i < |levels| ==> 0.0 < levels[i].price && 0.0 < levels[i].size
  }

  function Worth(l: Level): real {
    l.size * l.price
  }

  function Notional(levels: seq<Level>): real {
    if levels == [] then 0.0 else Worth(levels[0]) + Notional(levels[1..])
  }

  /** What it costs to take `notional` from the side, level by level. */
  function Cost(levels: seq<Level>, notional: real): real {
    if levels == [] then 0.0
    else
      var available := Worth(levels[0]);
      if available >= notional then notional else available + Cost(levels[1..], notional - available)
  }

  /** How much base currency it buys. */
  function Bought(levels: seq<Level>, notional: real): real {
    if levels == [] then 0.0
    else
      var available := Worth(levels[0]);
      if available >= notional then (if levels[0].price == 0.0 then 0.0 else notional / levels[0].price)
      else levels[0].size + Bought(levels[1..], notional - available)
  }

  function Vwap(levels: seq<Level>, notional: real): real {
    if notional <= 0.0 || levels == [] then 0.0
    else if Bought(levels, notional) > 0.0 then Cost(levels, notional) / Bought(levels, notional) else 0.0
  }

  /** The VWAP times what is bought is what it costs; 0 if nothing is bought. */
  lemma VwapMeans(levels: seq<Level>, notional: real)
    requires 0.0 < notional
    ensures if 0.0 < Bought(levels, notional)
            then Times(Vwap(levels, notional), Bought(levels, notional)) == Cost(levels, notional)
            else Vwap(levels, notional) == 0.0
  {
    if levels != [] {
      hide Bought, Cost;
    }
  }

  /** The last level that the walk touches. */
  function LastTouched(levels: seq<Level>, notional: real): (k: nat)
    requires levels != []
    ensures k < |levels|
  {
    if |levels| == 1 || Worth(levels[0]) >= notional then 0
    else 1 + LastTouched(levels[1..], notional - Worth(levels[0]))
  }

  lemma WorthIsPositive(levels: seq<Level>)
    requires Positive(levels) && levels != []
    ensures 0.0 < Worth(levels[0]) && 0.0 < levels[0].price && 0.0 < levels[0].size
    ensures Worth(levels[0]) / levels[0].price == levels[0].size
    ensures Positive(levels[1..])
  {
    var size, price := levels[0].size, levels[0].price;
    assert size * price / price == size;
  }

  /** The walk spends the notional, or everything there is. */
  lemma {:induction false} CostIsCapped(levels: seq<Level>, n: real)
    requires Positive(levels) && 0.0 <= n
    ensures Cost(levels, n) == if n <= Notional(levels) then n else Notional(levels)
    ensures 0.0 <= Notional(levels)
  {
    if levels != [] {
      WorthIsPositive(levels);
      hide Worth;
      var a := Worth(levels[0]);
      CostIsCapped(levels[1..], if a >= n then 0.0 else n - a);
    }
  }

  /** Nothing more is bought once the side is exhausted. */
  lemma {:induction false} BoughtIsCapped(levels: seq<Level>, n: real)
    requires Positive(levels) && Notional(levels) <= n
    ensures Bought(levels, n) == Bought(levels, Notional(levels))
  {
    if levels != [] {
      WorthIsPositive(levels);
      hide Worth;
      var a, tail := Worth(levels[0]), levels[1..];
      if tail != [] {
        NotionalIsPositive(tail);
        BoughtIsCapped(tail, n - a);
        assert Notional(levels) - a == Notional(tail);
      } else {
        assert Bought(tail, n - a) == 0.0;
      }
    }
  }

  lemma {:induction false} NotionalIsPositive(levels: seq<Level>)
    requires Positive(levels) && levels != []
    ensures 0.0 < Notional(levels)
  {
    WorthIsPositive(levels);
    hide Worth;
    if levels[1..] != [] {
      NotionalIsPositive(levels[1..]);
    }
  }

  // ── Average prices ──

  // A quotient by name.
  ghost function Div(x: real, y: real): real
    requires y != 0.0
  {
    x / y
  }

  // Every level's price is p or worse.
  ghost predicate NoBetterThan(side: Side, levels: seq<Level>, p: real) {
    forall i :: 0 <= i < |levels| ==> Rank(side, p) <= Rank(side, levels[i].price)
  }

  // x <= y when buying from the asks, y <= x when selling to the bids.
  ghost predicate NoMore(side: Side, x: real, y: real) {
    if side == Sell then x <= y else y <= x
  }

  lemma HeadIsBest(side: Side, levels: seq<Level>)
    requires Sorted(side, levels) && Positive(levels) && levels != []
    ensures NoBetterThan(side, levels, levels[0].price) && Sorted(side, levels[1..])
    ensures NoBetterThan(side, levels[1..], levels[0].price)
    ensures Positive(levels[1..]) && 0.0 < levels[0].price && 0.0 < levels[0].size
  {
  }

  // How a walk within the first level goes, and one past it.
  lemma FirstLevel(levels: seq<Level>, n: real)
    requires Positive(levels) && levels != []
    ensures Positive(levels[1..]) && 0.0 < levels[0].price && 0.0 < levels[0].size && 0.0 < Worth(levels[0])
    ensures Worth(levels[0]) == Times(levels[0].size, levels[0].price)
    ensures Notional(levels) == Worth(levels[0]) + Notional(levels[1..])
    ensures n <= Worth(levels[0]) ==> Bought(levels, n) == Div(n, levels[0].price)
    ensures Worth(levels[0]) < n ==> Bought(levels, n) == levels[0].size + Bought(levels[1..], n - Worth(levels[0]))
    ensures Div(Worth(levels[0]), levels[0].price) == levels[0].size
  {
    WorthIsPositive(levels);
  }

  // At a price no better than p, an amount x buys no more than x / p (no less, on the bids).
  lemma AtWorsePrice(side: Side, p: real, price: real, x: real)
    requires 0.0 < p && 0.0 < price && Rank(side, p) <= Rank(side, price) && 0.0 <= x
    ensures NoMore(side, Times(p, Div(x, price)), x)
  {
    var q := x / price;
    assert q * price == x && 0.0 <= q;
    if side == Sell {
      assert p * q <= price * q;
    } else {
      assert price * q <= p * q;
    }
  }

  lemma BoughtNothing(levels: seq<Level>)
    requires Positive(levels)
    ensures Bought(levels, 0.0) == 0.0
  {
    if levels != [] {
      WorthIsPositive(levels);
    }
  }

  /** Between two notionals within the side, what is bought grows by no more than the price p allows. */
  lemma {:induction false} BoughtIsLipschitz(side: Side, levels: seq<Level>, p: real, n: real, m: real)
    requires Positive(levels) && 0.0 < p && NoBetterThan(side, levels, p)
    requires 0.0 <= n <= m <= Notional(levels)
    ensures NoMore(side, Times(p, Bought(levels, m) - Bought(levels, n)), m - n)
  {
    hide Times, Div, Bought, Rank, Worth;
    if levels == [] {
      MulZero(p);
      assert Bought(levels, m) == Bought(levels, n);
    } else {
      var price := levels[0].price;
      var a := Worth(levels[0]);
      var tail := levels[1..];
      FirstLevel(levels, n);
      FirstLevel(levels, m);
      assert Rank(side, p) <= Rank(side, levels[0].price);
      assert NoBetterThan(side, tail, p);
      if m <= a {
        DivMinus(m, n, price);
        AtWorsePrice(side, p, price, m - n);
      } else if n <= a {
        DivMinus(a, n, price);
        AtWorsePrice(side, p, price, a - n);
        BoughtIsLipschitz(side, tail, p, 0.0, m - a);
        BoughtNothing(tail);
        MulPlus(p, Div(a - n, price), Bought(tail, m - a));
      } else {
        BoughtIsLipschitz(side, tail, p, n - a, m - a);
      }
    }
  }

  lemma MulZero(p: real)
    ensures Times(p, 0.0) == 0.0
  {
  }

  lemma MulPlus(p: real, x: real, y: real)
    ensures Times(p, x + y) == Times(p, x) + Times(p, y)
  {
  }

  lemma DivMinus(x: real, y: real, d: real)
    requires d != 0.0
    ensures Div(x - y, d) == Div(x, d) - Div(y, d)
  {
  }

  /** Average price never improves with size, in cross-multiplied form. */
  lemma {:induction false} BoughtPerNotional(side: Side, levels: seq<Level>, n: real, m: real)
    requires Sorted(side, levels) && Positive(levels) && 0.0 <= n <= m <= Notional(levels)
    ensures NoMore(side, Times(Bought(levels, m), n), Times(Bought(levels, n), m))
  {
    hide Times, Div, Bought, Rank, Worth, NoBetterThan, NoMore, Sorted;
    if levels == [] {
      EqualIsNoMore(side, Times(Bought(levels, m), n));
      assert n == m;
    } else {
      var price, size := levels[0].price, levels[0].size;
      var a := Worth(levels[0]);
      var tail := levels[1..];
      HeadIsBest(side, levels);
      FirstLevel(levels, n);
      FirstLevel(levels, m);
      if m <= a {
        SameAverage(side, n, m, price);
      } else if n <= a {
        BoughtIsLipschitz(side, levels, price, 0.0, m);
        BoughtNothing(levels);
        FromFirst(side, price, Bought(levels, m), n, m);
      } else {
        BoughtPerNotional(side, tail, n - a, m - a);
        BoughtIsLipschitz(side, tail, price, n - a, m - a);
        PastFirst(side, price, size, Bought(tail, n - a), Bought(tail, m - a), n - a, m - a);
      }
    }
  }

  lemma EqualIsNoMore(side: Side, x: real)
    ensures NoMore(side, x, x)
  {
  }

  lemma SameAverage(side: Side, n: real, m: real, price: real)
    requires 0.0 < price
    ensures NoMore(side, Times(Div(m, price), n), Times(Div(n, price), m))
  {
    assert (m / price) * n == (n / price) * m;
  }

  lemma FromFirst(side: Side, price: real, bought: real, n: real, m: real)
    requires 0.0 < price && 0.0 <= n && NoMore(side, Times(price, bought), m)
    ensures NoMore(side, Times(bought, n), Times(Div(n, price), m))
  {
    var q := n / price;
    assert q * price == n && 0.0 <= q;
    assert bought * n == q * (price * bought);
    if side == Sell {
      assert q * (price * bought) <= q * m;
    } else {
      assert q * m <= q * (price * bought);
    }
  }

  lemma PastFirst(side: Side, price: real, size: real, s: real, t: real, x: real, y: real)
    requires 0.0 < size && 0.0 < price
    requires NoMore(side, Times(t, x), Times(s, y)) && NoMore(side, Times(price, t - s), y - x)
    ensures NoMore(side, Times(size + t, x + Times(size, price)), Times(size + s, y + Times(size, price)))
  {
    hide Times;
    var k, d := Times(size, price), Times(price, t - s);
    MulSums(size, t, x, k);
    MulSums(size, s, y, k);
    MulRegroup(size, price, t, s);
    MulPlus(size, y - x, x);
    MulNoMore(side, size, d, y - x);
  }

  lemma MulSums(a: real, b: real, c: real, d: real)
    ensures Times(a + b, c + d) == Times(a, c) + Times(a, d) + Times(b, c) + Times(b, d)
  {
  }

  lemma MulRegroup(size: real, price: real, t: real, s: real)
    ensures Times(t, Times(size, price)) - Times(s, Times(size, price)) == Times(size, Times(price, t - s))
  {
  }

  lemma MulNoMore(side: Side, size: real, d: real, e: real)
    requires 0.0 < size && NoMore(side, d, e)
    ensures NoMore(side, Times(size, d), Times(size, e))
  {
  }

  lemma {:induction false} BoughtIsPositive(levels: seq<Level>, n: real)
    requires Positive(levels) && levels != [] && 0.0 < n
    ensures 0.0 < Bought(levels, n)
  {
    FirstLevel(levels, n);
    hide Bought, Worth;
    if n <= Worth(levels[0]) {
      assert 0.0 < n / levels[0].price;
    } else if levels[1..] != [] {
      BoughtIsPositive(levels[1..], n - Worth(levels[0]));
    } else {
      BoughtFromNone(n - Worth(levels[0]));
    }
  }

  lemma BoughtFromNone(n: real)
    ensures Bought([], n) == 0.0
  {
  }

  function Capped(levels: seq<Level>, n: real): real {
    if n <= Notional(levels) then n else Notional(levels)
  }

  // Average price of a walk, as a quotient of the capped notional.
  lemma VwapQuotient(levels: seq<Level>, n: real)
    requires Positive(levels) && levels != [] && 0.0 < n
    ensures 0.0 < Capped(levels, n) && 0.0 < Bought(levels, Capped(levels, n))
    ensures Vwap(levels, n) == Div(Capped(levels, n), Bought(levels, Capped(levels, n)))
  {
    NotionalIsPositive(levels);
    CostIsCapped(levels, n);
    BoughtIsPositive(levels, Capped(levels, n));
    BoughtIsPositive(levels, n);
    if Notional(levels) <= n {
      BoughtIsCapped(levels, n);
    }
  }

  /** VWAP moves away from the best price as the notional grows: up on the asks, down on the bids. */
  lemma VwapIsMonotone(side: Side, levels: seq<Level>, n: real, m: real)
    requires Sorted(side, levels) && Positive(levels) && levels != [] && 0.0 < n <= m
    ensures Rank(side, Vwap(levels, n)) <= Rank(side, Vwap(levels, m))
  {
    hide Times, Div, Bought, Rank, Vwap, Sorted;
    var c, d := Capped(levels, n), Capped(levels, m);
    VwapQuotient(levels, n);
    VwapQuotient(levels, m);
    BoughtPerNotional(side, levels, c, d);
    CompareQuotients(side, c, Bought(levels, c), d, Bought(levels, d));
  }

  lemma CompareQuotients(side: Side, c: real, s: real, d: real, t: real)
    requires 0.0 < s && 0.0 < t && NoMore(side, Times(t, c), Times(s, d))
    ensures Rank(side, Div(c, s)) <= Rank(side, Div(d, t))
  {
    var x, y := c / s, d / t;
    assert x * s == c && y * t == d;
    assert t * c == (s * t) * x && s * d == (s * t) * y;
    if side == Sell && x > y {
      assert (s * t) * x > (s * t) * y;
    }
    if side == Buy && x < y {
      assert (s * t) * x < (s * t) * y;
    }
  }

  /** VWAP is constant once the side is exhausted. */
  lemma VwapIsCapped(levels: seq<Level>, n: real)
    requires Positive(levels) && levels != [] && Notional(levels) <= n
    ensures Vwap(levels, n) == Vwap(levels, Notional(levels))
  {
    NotionalIsPositive(levels);
    VwapQuotient(levels, n);
    VwapQuotient(levels, Notional(levels));
  }

  // The notional is at most the worst touched price times the size bought (at least, on the bids).
  lemma {:induction false} WorstTouched(side: Side, levels: seq<Level>, n: real)
    requires Sorted(side, levels) && Positive(levels) && levels != [] && 0.0 <= n <= Notional(levels)
    ensures NoMore(side, n, Times(levels[LastTouched(levels, n)].price, Bought(levels, n)))
  {
    hide Times, Div, Bought, Rank, NoBetterThan, NoMore, Sorted, Worth;
    var price, size := levels[0].price, levels[0].size;
    var a := Worth(levels[0]);
    var tail := levels[1..];
    HeadIsBest(side, levels);
    FirstLevel(levels, n);
    if n <= a {
      LastTouchedFirst(levels, n);
      MulDiv(n, price);
      EqualIsNoMore(side, n);
    } else {
      assert Notional([]) == 0.0;
      WorstTouched(side, tail, n - a);
      LastTouchedLater(levels, n);
      WorstIsWorse(side, price, size, tail, LastTouched(tail, n - a), Bought(tail, n - a), n - a);
    }
  }

  lemma LastTouchedFirst(levels: seq<Level>, n: real)
    requires levels != [] && n <= Worth(levels[0])
    ensures LastTouched(levels, n) == 0
  {
  }

  lemma LastTouchedLater(levels: seq<Level>, n: real)
    requires |levels| > 1 && Worth(levels[0]) < n
    ensures LastTouched(levels, n) == 1 + LastTouched(levels[1..], n - Worth(levels[0]))
  {
  }

  /** The size of the first k levels, and what it is worth. */
  ghost function SizeOfFirst(levels: seq<Level>, k: nat): real
    requires k <= |levels|
  {
    if k == 0 then 0.0 else levels[0].size + SizeOfFirst(levels[1..], k - 1)
  }

  ghost function MoneyOfFirst(levels: seq<Level>, k: nat): real
    requires k <= |levels|
  {
    if k == 0 then 0.0 else Times(levels[0].price, levels[0].size) + MoneyOfFirst(levels[1..], k - 1)
  }

  /** The walk takes the levels before the last touched one whole, for less than the notional, and of that one as
      much as the rest of the notional buys at its price, or all of it if the side ends there. */
  lemma {:induction false} WalkMeans(levels: seq<Level>, n: real)
    requires Positive(levels) && levels != [] && 0.0 < n
    ensures var k := LastTouched(levels, n);
      && MoneyOfFirst(levels, k) < n && (MoneyOfFirst(levels, k + 1) < n ==> k == |levels| - 1)
      && Cost(levels, n) == (if n <= MoneyOfFirst(levels, k + 1) then n else MoneyOfFirst(levels, k + 1))
      && Times(levels[k].price, Bought(levels, n) - SizeOfFirst(levels, k)) == Cost(levels, n) - MoneyOfFirst(levels, k)
  {
    var l, rest := levels[0], levels[1..];
    WorthIs(l);
    assert MoneyOfFirst(levels, 1) == Worth(l) + MoneyOfFirst(rest, 0);
    if n <= Worth(l) {
      LastTouchedFirst(levels, n);
      OneLevel(levels, n);
    } else if rest == [] {
      OneLevel(levels, n);
    } else {
      LastTouchedLater(levels, n);
      WalkMeans(rest, n - Worth(l));
      hide Times, Worth;
    }
  }

  lemma WorthIs(l: Level)
    ensures Worth(l) == Times(l.price, l.size)
  {
  }

  lemma OneLevel(levels: seq<Level>, n: real)
    requires Positive(levels) && levels != [] && 0.0 < n && (|levels| == 1 || n <= Worth(levels[0]))
    ensures Cost(levels, n) == if n <= Worth(levels[0]) then n else Worth(levels[0])
    ensures Times(levels[0].price, Bought(levels, n)) == Cost(levels, n)
  {
    if n <= Worth(levels[0]) {
      assert Bought(levels, n) == n / levels[0].price;
    }
  }

  lemma MulDiv(x: real, y: real)
    requires y != 0.0
    ensures Times(y, Div(x, y)) == x
  {
  }

  lemma WorstIsWorse(side: Side, price: real, size: real, tail: seq<Level>, k: nat, bought: real, x: real)
    requires 0.0 < size && k < |tail| && NoBetterThan(side, tail, price)
    requires NoMore(side, x, Times(tail[k].price, bought))
    ensures NoMore(side, x + Times(size, price), Times(tail[k].price, size + bought))
  {
    var worst := tail[k].price;
    assert Rank(side, price) <= Rank(side, worst);
    assert worst * (size + bought) == worst * size + worst * bought;
    if side == Sell {
      assert price * size <= worst * size;
    } else {
      assert worst * size <= price * size;
    }
  }

  lemma {:induction false} LastTouchedCapped(levels: seq<Level>, n: real)
    requires Positive(levels) && levels != [] && Notional(levels) <= n
    ensures LastTouched(levels, n) == LastTouched(levels, Notional(levels)) == |levels| - 1
  {
    if |levels| > 1 {
      FirstLevel(levels, n);
      NotionalIsPositive(levels[1..]);
      LastTouchedCapped(levels[1..], n - Worth(levels[0]));
      LastTouchedCapped(levels[1..], Notional(levels[1..]));
      LastTouchedLater(levels, n);
      LastTouchedLater(levels, Notional(levels));
    }
  }

  /** VWAP lies between the best price and the price of the last level that the walk touches. */
  lemma VwapIsBetween(side: Side, levels: seq<Level>, n: real)
    requires Sorted(side, levels) && Positive(levels) && levels != [] && 0.0 < n
    ensures Rank(side, levels[0].price) <= Rank(side, Vwap(levels, n))
    ensures Rank(side, Vwap(levels, n)) <= Rank(side, levels[LastTouched(levels, n)].price)
  {
    hide Times, Div, Bought, Rank, Vwap, Sorted, LastTouched;
    var c := Capped(levels, n);
    VwapQuotient(levels, n);
    HeadIsBest(side, levels);
    BoughtIsLipschitz(side, levels, levels[0].price, 0.0, c);
    BoughtNothing(levels);
    WorstTouched(side, levels, c);
    if Notional(levels) <= n {
      LastTouchedCapped(levels, n);
    }
    QuotientBounds(side, levels[0].price, c, Bought(levels, c), levels[LastTouched(levels, n)].price);
  }

  lemma QuotientBounds(side: Side, best: real, c: real, s: real, worst: real)
    requires 0.0 < s && NoMore(side, Times(best, s), c) && NoMore(side, c, Times(worst, s))
    ensures Rank(side, best) <= Rank(side, Div(c, s)) <= Rank(side, worst)
  {
    var x := c / s;
    assert x * s == c;
    if x < best { assert x * s < best * s; }
    if best < x { assert best * s < x * s; }
    if x < worst { assert x * s < worst * s; }
    if worst < x { assert worst * s < x * s; }
  }

  // ── Mids and signals ──

  const HISTORY_CAPACITY: nat := 128

  function BestPrice(levels: seq<Level>): real {
    if levels == [] then 0.0 else levels[0].price
  }

  function MidPrice(bids: seq<Level>, asks: seq<Level>): real {
    var bb, ba := BestPrice(bids), BestPrice(asks);
    if bb <= 0.0 || ba <= 0.0 then 0.0 else (bb + ba) / 2.0
  }

  function SpreadBps(bids: seq<Level>, asks: seq<Level>): real {
    var mid, spread := MidPrice(bids, asks), BestPrice(asks) - BestPrice(bids);
    if mid <= 0.0 || spread <= 0.0 then 0.0 else spread / mid * 10000.0
  }

  /** Both sides have a positive best price. */
  ghost predicate TwoSided(bids: seq<Level>, asks: seq<Level>) {
    bids != [] && asks != [] && 0.0 < bids[0].price && 0.0 < asks[0].price
  }

  /** The mid is as far above the best bid as below the best ask; without both there is none. */
  lemma MidMeans(bids: seq<Level>, asks: seq<Level>)
    ensures TwoSided(bids, asks) ==> MidPrice(bids, asks) - bids[0].price == asks[0].price - MidPrice(bids, asks)
    ensures !TwoSided(bids, asks) ==> MidPrice(bids, asks) == 0.0
  {
  }

  /** After an update of the book one more mid is recorded, halfway between the best prices; none without both. */
  ghost predicate RecordsMid(bids: seq<Level>, asks: seq<Level>, before: seq<real>, after: seq<real>) {
    if TwoSided(bids, asks)
    then && |after| == |before| + 1 && after[..|before|] == before
         && after[|before|] - bids[0].price == asks[0].price - after[|before|]
    else after == before
  }

  lemma OneMoreMid(bids: seq<Level>, asks: seq<Level>, before: seq<real>)
    ensures RecordsMid(bids, asks, before,
                       before + if 0.0 < MidPrice(bids, asks) then [MidPrice(bids, asks)] else [])
  {
    MidMeans(bids, asks);
  }

  /** The spread of a book that is not crossed, in hundredths of a percent of the mid; else it is 0. */
  ghost predicate IsSpread(bps: real, bids: seq<Level>, asks: seq<Level>) {
    if TwoSided(bids, asks) && bids[0].price < asks[0].price
    then bps * ((bids[0].price + asks[0].price) / 2.0) == (asks[0].price - bids[0].price) * 10000.0
    else bps == 0.0
  }

  lemma SpreadMeans(bids: seq<Level>, asks: seq<Level>)
    ensures IsSpread(SpreadBps(bids, asks), bids, asks)
  {
  }

  /** The last n entries of a history, newest first. */
  function Newest(history: seq<real>, n: nat): (r: seq<real>)
    requires n <= |history|
  {
    seq(n, i requires 0 <= i < n => history[|history| - 1 - i])
  }

  function Recent(history: seq<real>): seq<real> {
    Newest(history, if |history| <= HISTORY_CAPACITY then |history| else HISTORY_CAPACITY)
  }

  /** The recent entries are the last 128, or all if there are fewer, from the newest back. */
  lemma RecentMeans(history: seq<real>)
    ensures |Recent(history)| == if |history| <= 128 then |history| else 128
    ensures forall i :: 0 <= i < |Recent(history)| ==> Recent(history)[i] == history[|history| - 1 - i]
  {
  }

  function MaxOf(s: seq<real>): real
    requires s != []
  {
    if |s| == 1 then s[0]
    else
      var m := MaxOf(s[1..]);
      if s[0] < m then m else s[0]
  }

  function MinOf(s: seq<real>): real
    requires s != []
  {
    if |s| == 1 then s[0]
    else
      var m := MinOf(s[1..]);
      if m < s[0] then m else s[0]
  }

  function FlashCrash(history: seq<real>, threshold: real): bool {
    var recent := Recent(history);
    |history| >= 2 && recent != [] && MaxOf(recent) > 0.0
    && (MaxOf(recent) - MinOf(recent)) / MaxOf(recent) >= threshold
  }

  ghost predicate AllPositive(s: seq<real>) {
    forall i :: 0 <= i < |s| ==> 0.0 < s[i]
  }

  lemma {:induction false} Extremes(s: seq<real>)
    requires s != []
    ensures MaxOf(s) in s && MinOf(s) in s
    ensures forall x :: x in s ==> MinOf(s) <= x <= MaxOf(s)
  {
    if |s| > 1 {
      Extremes(s[1..]);
      forall x | x in s
        ensures MinOf(s) <= x <= MaxOf(s)
      {
        assert x == s[0] || x in s[1..];
      }
    }
  }

  /** How far y is below x, relative to x. */
  function Below(x: real, y: real): real {
    if x == 0.0 then 0.0 else (x - y) / x
  }

  /** A flash crash is two of the recent mids, in either order of time, that lie the threshold
      apart relative to the higher one. */
  lemma FlashCrashMeans(history: seq<real>, threshold: real)
    requires AllPositive(history)
    ensures FlashCrash(history, threshold) <==>
      |history| >= 2 && exists x, y :: x in Recent(history) && y in Recent(history) && Below(x, y) >= threshold
  {
    var recent := Recent(history);
    if |history| >= 2 {
      Extremes(recent);
      forall x | x in recent
        ensures 0.0 < x
      {
      }
      var high, low := MaxOf(recent), MinOf(recent);
      forall x, y | x in recent && y in recent
        ensures Below(x, y) <= Below(high, low)
      {
        RelativeDrop(x, y, high, low);
      }
    }
  }

  /** The documented flash crash: among mids listed newest first, a later one is the threshold below
      an earlier one. */
  ghost predicate Dropped(mids: seq<real>, threshold: real) {
    exists later, earlier :: 0 <= later < earlier < |mids| && Below(mids[earlier], mids[later]) >= threshold
  }

  /** An earlier mid is the threshold below a later one. */
  ghost predicate Rose(mids: seq<real>, threshold: real) {
    exists later, earlier :: 0 <= later < earlier < |mids| && Below(mids[later], mids[earlier]) >= threshold
  }

  /** The flag is set by a drop or by a rise. */
  lemma FlashCrashSplits(history: seq<real>, threshold: real)
    requires AllPositive(history)
    ensures FlashCrash(history, threshold) <==> Dropped(Recent(history), threshold) || Rose(Recent(history), threshold)
  {
    FlashCrashMeans(history, threshold);
    var recent := Recent(history);
    assert AllPositive(recent);
    hide FlashCrash, Below, Recent, AllPositive;
    if |recent| >= 2 {
      PairIsDropOrRise(recent, threshold);
    }
  }

  lemma PairIsDropOrRise(mids: seq<real>, threshold: real)
    requires AllPositive(mids) && |mids| >= 2
    ensures (exists x, y :: x in mids && y in mids && Below(x, y) >= threshold)
            <==> Dropped(mids, threshold) || Rose(mids, threshold)
  {
    hide Below;
    if x, y :| x in mids && y in mids && Below(x, y) >= threshold {
      var i :| 0 <= i < |mids| && mids[i] == x;
      var j :| 0 <= j < |mids| && mids[j] == y;
      if i == j {
        NotBelowItself(x);
        FlatIsBoth(mids, threshold);
      }
    }
    if Dropped(mids, threshold) {
      var i, j :| 0 <= i < j < |mids| && Below(mids[j], mids[i]) >= threshold;
      assert mids[i] in mids && mids[j] in mids;
    }
    if Rose(mids, threshold) {
      var i, j :| 0 <= i < j < |mids| && Below(mids[i], mids[j]) >= threshold;
      assert mids[i] in mids && mids[j] in mids;
    }
  }

  lemma NotBelowItself(x: real)
    ensures Below(x, x) == 0.0
  {
  }

  // A threshold of zero or less is met by any two mids.
  lemma FlatIsBoth(mids: seq<real>, threshold: real)
    requires AllPositive(mids) && |mids| >= 2 && threshold <= 0.0
    ensures Dropped(mids, threshold) || Rose(mids, threshold)
  {
    if mids[0] <= mids[1] {
      NotNegativeShare(mids[1] - mids[0], mids[1]);
      assert Below(mids[1], mids[0]) >= threshold;
    } else {
      NotNegativeShare(mids[0] - mids[1], mids[0]);
      assert Below(mids[0], mids[1]) >= threshold;
    }
  }

  lemma NotNegativeShare(d: real, x: real)
    requires 0.0 <= d && 0.0 < x
    ensures 0.0 <= d / x
  {
  }

  /** The flag means the documented drop if and only if a rise of that size is accompanied by a
      drop of that size; in particular it does while no mid of the ring is the threshold above
      an earlier one. */
  lemma FlagMeansDropWhen(history: seq<real>, threshold: real)
    requires AllPositive(history)
    ensures var recent := Recent(history);
      && ((FlashCrash(history, threshold) <==> Dropped(recent, threshold)) <==>
          (Rose(recent, threshold) ==> Dropped(recent, threshold)))
      && (!Rose(recent, threshold) ==> (FlashCrash(history, threshold) <==> Dropped(recent, threshold)))
  {
    FlashCrashSplits(history, threshold);
  }

  /** A rise from 100 to 106 is flagged as a crash of 5%. */
  lemma RiseIsFlagged()
    ensures var history := [100.0, 106.0];
      FlashCrash(history, 0.05) && !Dropped(Recent(history), 0.05)
  {
    var history := [100.0, 106.0];
    assert Recent(history) == [106.0, 100.0];
    assert Below(106.0, 100.0) >= 0.05 && Below(100.0, 106.0) < 0.05;
    assert Below(Recent(history)[0], Recent(history)[1]) >= 0.05;
    FlashCrashSplits(history, 0.05);
  }

  lemma RelativeDrop(x: real, y: real, high: real, low: real)
    requires 0.0 < x <= high && low <= y && 0.0 < low
    ensures (x - y) / x <= (high - low) / high
  {
    var u, v := (x - y) / x, (high - low) / high;
    assert u * x == x - y && v * high == high - low;
    if v < u {
      ProductGrows(1.0 - u, 1.0 - v, x);
      RestGrows(v, x, high);
    }
  }

  lemma RestGrows(v: real, x: real, high: real)
    requires 0.0 < x <= high && 0.0 < (1.0 - v) * high
    ensures x * (1.0 - v) <= high * (1.0 - v)
  {
    var w := 1.0 - v;
    assert w == (w * high) / high;
    assert x * w <= high * w;
  }

  lemma ProductGrows(a: real, b: real, x: real)
    requires a < b && 0.0 < x
    ensures a * x < b * x
  {
  }

  function Sizes(levels: seq<Level>): seq<real> {
    seq(|levels|, i requires 0 <= i < |levels| => levels[i].size)
  }

  function Top(levels: seq<Level>): seq<Level> {
    if |levels| <= 10 then levels else levels[..10]
  }

  function DepthWall(levels: seq<Level>): bool {
    if |levels| < 5 then false
    else
      var sizes := Sizes(Top(levels));
      var avg := Mean(sizes);
      if avg <= 0.0 then false else MaxOf(sizes) >= avg * 5.0
  }

  function Imbalance(bids: seq<Level>, asks: seq<Level>): real {
    var b, a := Sum(Sizes(Top(bids))), Sum(Sizes(Top(asks)));
    if b + a <= 0.0 then 0.0 else (b - a) / (b + a)
  }

  function Signals(bids: seq<Level>, asks: seq<Level>, history: seq<real>, threshold: real): MarketSignal {
    MarketSignal(FlashCrash(history, threshold), DepthWall(bids), DepthWall(asks),
                 SpreadBps(bids, asks), Imbalance(bids, asks))
  }

  /** The total size of the ten best levels. */
  ghost function TopSize(levels: seq<Level>): real {
    var n := if |levels| <= 10 then |levels| else 10;
    Sum(seq(n, i requires 0 <= i < n => levels[i].size))
  }

  lemma TopSizeIs(levels: seq<Level>)
    ensures Sum(Sizes(Top(levels))) == TopSize(levels)
  {
    var n := if |levels| <= 10 then |levels| else 10;
    assert Sizes(Top(levels)) == seq(n, i requires 0 <= i < n => levels[i].size);
  }

  /** A level among the ten best that has five times their mean size or more. */
  ghost predicate IsWall(levels: seq<Level>, k: nat) {
    var n := if |levels| <= 10 then |levels| else 10;
    k < n && Times(levels[k].size, n as real) >= 5.0 * TopSize(levels)
  }

  ghost predicate ShowsWall(levels: seq<Level>) {
    |levels| >= 5 && 0.0 < TopSize(levels) && exists k: nat :: IsWall(levels, k)
  }

  /** A side shows a wall exactly when it has five levels, some size, and a level that is a wall. */
  lemma DepthWallMeans(levels: seq<Level>)
    ensures DepthWall(levels) <==> ShowsWall(levels)
  {
    if |levels| >= 5 {
      var sizes, n := Sizes(Top(levels)), (if |levels| <= 10 then |levels| else 10) as real;
      TopSizeIs(levels);
      Extremes(sizes);
      MeanTimesCount(sizes);
      var high, mean := MaxOf(sizes), Mean(sizes);
      assert forall k: nat :: k < |sizes| ==> sizes[k] == levels[k].size;
      assert Times(mean, n) == TopSize(levels);
      hide Mean, Sum, MaxOf, Times, TopSize;
      FiveTimes(high, mean, n);
      if DepthWall(levels) {
        var k: nat :| k < |sizes| && sizes[k] == high;
        assert IsWall(levels, k);
      }
      if ShowsWall(levels) {
        var k: nat :| IsWall(levels, k);
        assert sizes[k] in sizes;
        FiveTimes(sizes[k], mean, n);
      }
    }
  }

  lemma FiveTimes(size: real, mean: real, n: real)
    requires 0.0 < n
    ensures size >= mean * 5.0 <==> Times(size, n) >= 5.0 * Times(mean, n)
    ensures 0.0 < mean <==> 0.0 < Times(mean, n)
  {
    if size >= mean * 5.0 {
      assert 0.0 <= (size - mean * 5.0) * n;
    } else {
      assert 0.0 < (mean * 5.0 - size) * n;
    }
  }

  /** A positive imbalance is more size to buy: it is the difference of the two sides, as a share of their sum. */
  ghost predicate IsImbalance(x: real, bids: seq<Level>, asks: seq<Level>) {
    var b, a := TopSize(bids), TopSize(asks);
    if 0.0 < b + a then x * (b + a) == b - a else x == 0.0
  }

  lemma ImbalanceMeans(bids: seq<Level>, asks: seq<Level>)
    ensures IsImbalance(Imbalance(bids, asks), bids, asks)
  {
    TopSizeIs(bids);
    TopSizeIs(asks);
    hide Sum, Sizes, Top, TopSize;
  }

  /** What signals say of a book and its mids. */
  ghost predicate SaysOf(sig: MarketSignal, bids: seq<Level>, asks: seq<Level>, history: seq<real>, threshold: real) {
    && (sig.flashCrash <==>
          |history| >= 2 && exists x, y :: x in Recent(history) && y in Recent(history) && Below(x, y) >= threshold)
    && (sig.depthWallBid <==> ShowsWall(bids)) && (sig.depthWallAsk <==> ShowsWall(asks))
    && IsSpread(sig.spreadBps, bids, asks) && IsImbalance(sig.imbalance, bids, asks)
  }

  lemma SignalsMean(bids: seq<Level>, asks: seq<Level>, history: seq<real>, threshold: real)
    requires AllPositive(history)
    ensures SaysOf(Signals(bids, asks, history, threshold), bids, asks, history, threshold)
  {
    FlashCrashMeans(history, threshold);
    DepthWallMeans(bids);
    DepthWallMeans(asks);
    SpreadMeans(bids, asks);
    ImbalanceMeans(bids, asks);
    hide FlashCrash, Recent, Below, DepthWall, ShowsWall, SpreadBps, IsSpread, Imbalance, IsImbalance;
  }

  lemma {:induction false} SumNotNegative(s: seq<real>)
    requires forall i :: 0 <= i < |s| ==> 0.0 <= s[i]
    ensures 0.0 <= Sum(s)
  {
    if s != [] {
      SumNotNegative(s[..|s| - 1]);
    }
  }

  /** The imbalance is a signed share, for books without negative sizes. */
  lemma ImbalanceInRange(bids: seq<Level>, asks: seq<Level>)
    requires forall l :: l in bids || l in asks ==> 0.0 <= l.size
    ensures -1.0 <= Imbalance(bids, asks) <= 1.0
  {
    SumNotNegative(Sizes(Top(bids)));
    SumNotNegative(Sizes(Top(asks)));
    var b, a := Sum(Sizes(Top(bids))), Sum(Sizes(Top(asks)));
    if b + a > 0.0 {
      ShareInRange(b - a, b + a);
    }
  }

  lemma ShareInRange(d: real, t: real)
    requires 0.0 < t && -t <= d <= t
    ensures -1.0 <= d / t <= 1.0
  {
    var r := d / t;
    assert r * t == d;
    if 1.0 < r {
      ProductGrows(1.0, r, t);
    }
    if r < -1.0 {
      ProductGrows(r, -1.0, t);
    }
  }
}

module LiveBook {
  import opened Types
  import opened BookSides

  /** What every run keeps of a side: the map is the plain content of the run, the list covers
      it in order, and the two agree exactly when the latest snapshot repeats no price. */
  ghost predicate SideHolds(events: seq<Event>, side: Side, levels: seq<Level>, lookup: map<real, real>) {
    && Covers(side, levels, lookup)
    && lookup == Content(events, side)
    && (Lists(side, levels, lookup) <==> LastSnapshotDistinct(events, side))
  }

  lemma SideHoldsCovers(events: seq<Event>, side: Side, levels: seq<Level>, lookup: map<real, real>)
    requires SideHolds(events, side, levels, lookup)
    ensures Covers(side, levels, lookup)
  {
  }

  lemma SnapshotHolds(events: seq<Event>, side: Side, book: OrderBook)
    ensures var levels := SortLevels(side, SideOf(book, side));
      SideHolds(events + [Snapshot(book)], side, levels, PriceMap(levels))
  {
    SnapshotLists(side, SideOf(book, side));
    SortKeepsPriceMap(side, SideOf(book, side));
  }

  lemma DeltaHolds(events: seq<Event>, side: Side, levels: seq<Level>, lookup: map<real, real>, delta: Event,
                   levels': seq<Level>, lookup': map<real, real>)
    requires delta.Delta? && SideHolds(events, side, levels, lookup)
    requires if delta.side == side
      then Covers(side, levels', lookup') && lookup' == PlainDelta(lookup, delta.price, delta.size)
           && |levels'| - |lookup'| == |levels| - |lookup|
      else levels' == levels && lookup' == lookup
    ensures SideHolds(events + [delta], side, levels', lookup')
  {
    assert (events + [delta])[..|events|] == events;
    ListsByCount(side, levels, lookup);
    ListsByCount(side, levels', lookup');
  }

  lemma OneKeyLess(m: map<real, real>, p: real)
    requires p in m
    ensures |m - {p}| == |m| - 1
  {
    assert m.Keys == (m - {p}).Keys + {p};
    assert |m.Keys| == |(m - {p}).Keys| + 1;
  }

  /** `bisect_left`: the first place where x can go in an ascending list. */
  method BisectLeft(keys: seq<real>, x: real) returns (idx: nat)
    requires forall i, j :: 0 <= i < j < |keys| ==> keys[i] <= keys[j]
    ensures idx <= |keys|
    ensures forall i :: 0 <= i < idx ==> keys[i] < x
    ensures forall i :: idx <= i < |keys| ==> x <= keys[i]
  {
    var lo, hi := 0, |keys|;
    while lo < hi
      invariant 0 <= lo <= hi <= |keys|
      invariant forall i :: 0 <= i < lo ==> keys[i] < x
      invariant forall i :: hi <= i < |keys| ==> x <= keys[i]
    {
      var mid := (lo + hi) / 2;
      if keys[mid] < x {
        lo := mid + 1;
      } else {
        hi := mid;
      }
    }
    idx := lo;
  }

  // The ring holds the last mids of the history, the k-th of all at slot k mod capacity.
  ghost predicate RingHolds(ring: seq<real>, idx: nat, count: nat, history: seq<real>) {
    && count == |history| && AllPositive(history)
    && |ring| == (if count <= HISTORY_CAPACITY then count else HISTORY_CAPACITY)
    && idx == count % HISTORY_CAPACITY
    && (forall k :: |history| - |ring| <= k < |history| ==>
          k % HISTORY_CAPACITY < |ring| && ring[k % HISTORY_CAPACITY] == history[k])
  }

  function Recorded(ring: seq<real>, idx: nat, mid: real): seq<real>
    requires idx < HISTORY_CAPACITY && (|ring| < HISTORY_CAPACITY || |ring| == HISTORY_CAPACITY)
  {
    if |ring| < HISTORY_CAPACITY then ring + [mid] else ring[idx := mid]
  }

  lemma RingRecords(ring: seq<real>, idx: nat, count: nat, history: seq<real>, mid: real)
    requires RingHolds(ring, idx, count, history) && 0.0 < mid
    ensures RingHolds(Recorded(ring, idx, mid), (idx + 1) % HISTORY_CAPACITY, count + 1, history + [mid])
  {
    var ring', history' := Recorded(ring, idx, mid), history + [mid];
    NextSlot(count);
    forall k | |history'| - |ring'| <= k < |history'|
      ensures k % HISTORY_CAPACITY < |ring'| && ring'[k % HISTORY_CAPACITY] == history'[k]
    {
      if k == count {
      } else if |ring| < HISTORY_CAPACITY {
        assert k % HISTORY_CAPACITY == k;
      } else {
        DistinctSlots(k, count);
      }
    }
  }

  lemma NextSlot(count: nat)
    ensures (count % HISTORY_CAPACITY + 1) % HISTORY_CAPACITY == (count + 1) % HISTORY_CAPACITY
  {
  }

  lemma DistinctSlots(k: nat, n: nat)
    requires n - HISTORY_CAPACITY < k < n
    ensures k % HISTORY_CAPACITY != n % HISTORY_CAPACITY
  {
  }

  lemma SlotBack(count: nat, i: nat)
    requires i < count
    ensures (count % HISTORY_CAPACITY - 1 - i) % HISTORY_CAPACITY == (count - 1 - i) % HISTORY_CAPACITY
  {
    var q := count / HISTORY_CAPACITY;
    assert count - 1 - i == q * HISTORY_CAPACITY + (count % HISTORY_CAPACITY - 1 - i);
  }

  class LiveMarketData {
    var bids: seq<Level>
    var asks: seq<Level>
    var bidsByPrice: map<real, real>
    var asksByPrice: map<real, real>
    var timestampMs: int
    var midHistory: seq<real>
    var historyIdx: nat
    var historyCount: nat
    var cachedSignals: Option<MarketSignal>
    var signalsStale: bool
    const flashThreshold: real

    // Every update since construction, and every positive mid recorded.
    ghost var events: seq<Event>
    ghost var mids: seq<real>

    ghost predicate Valid()
      reads this
    {
      && SideHolds(events, Buy, bids, bidsByPrice) && SideHolds(events, Sell, asks, asksByPrice)
      && RingHolds(midHistory, historyIdx, historyCount, mids)
      && (!signalsStale && cachedSignals.Some? ==> cachedSignals.value == FreshSignals())
    }

    ghost function FreshSignals(): MarketSignal
      reads this
    {
      Signals(bids, asks, mids, flashThreshold)
    }

    constructor (flashCrashThresholdPct: real)
      ensures Valid() && events == [] && bids == [] && asks == [] && mids == []
      ensures flashThreshold == flashCrashThresholdPct / 100.0
    {
      bids, asks, bidsByPrice, asksByPrice := [], [], map[], map[];
      timestampMs := 0;
      midHistory, historyIdx, historyCount := [], 0, 0;
      cachedSignals, signalsStale := None, true;
      flashThreshold := flashCrashThresholdPct / 100.0;
      events, mids := [], [];
    }

    method RecordMid()
      requires RingHolds(midHistory, historyIdx, historyCount, mids)
      modifies this`midHistory, this`historyIdx, this`historyCount, this`mids
      ensures RingHolds(midHistory, historyIdx, historyCount, mids)
      ensures mids == old(mids) + if 0.0 < MidPrice(bids, asks) then [MidPrice(bids, asks)] else []
      ensures RecordsMid(bids, asks, old(mids), mids)
    {
      OneMoreMid(bids, asks, mids);
      var mid := MidPrice(bids, asks);
      if mid <= 0.0 {
        return;
      }
      RingRecords(midHistory, historyIdx, historyCount, mids, mid);
      if |midHistory| < HISTORY_CAPACITY {
        midHistory := midHistory + [mid];
      } else {
        midHistory := midHistory[historyIdx := mid];
      }
      historyIdx := (historyIdx + 1) % HISTORY_CAPACITY;
      historyCount := historyCount + 1;
      mids := mids + [mid];
    }

    /** Replaces the book. */
    method ApplySnapshot(book: OrderBook)
      requires Valid()
      modifies this
      ensures Valid() && timestampMs == book.timestampMs
      ensures bids == SortLevels(Buy, book.bids) && asks == SortLevels(Sell, book.asks)
      ensures events == old(events) + [Snapshot(book)]
      ensures RecordsMid(bids, asks, old(mids), mids)
    {
      hide SideHolds, SortLevels, PriceMap, MidPrice, Signals, RingHolds, RecordsMid;
      bids, asks := SortLevels(Buy, book.bids), SortLevels(Sell, book.asks);
      bidsByPrice, asksByPrice := PriceMap(bids), PriceMap(asks);
      events := events + [Snapshot(book)];
      SnapshotHolds(old(events), Buy, book);
      SnapshotHolds(old(events), Sell, book);
      timestampMs := book.timestampMs;
      signalsStale := true;
      RecordMid();
    }

    static method RemoveLevel(side: Side, levels: seq<Level>, lookup: map<real, real>, price: real)
      returns (levels': seq<Level>, lookup': map<real, real>)
      requires Covers(side, levels, lookup)
      ensures Covers(side, levels', lookup') && lookup' == lookup - {price}
      ensures |levels'| - |lookup'| == |levels| - |lookup|
    {
      levels', lookup' := levels, lookup;
      if price in lookup {
        RemovalCovers(side, levels, lookup, price);
        OneKeyLess(lookup, price);
        levels' := RemoveFirst(levels, Level(price, lookup[price]));
        lookup' := lookup - {price};
      } else {
        assert lookup - {price} == lookup;
      }
    }

    static method InsertLevel(side: Side, levels: seq<Level>, lookup: map<real, real>, price: real, size: real)
      returns (levels': seq<Level>, lookup': map<real, real>)
      requires Covers(side, levels, lookup) && price !in lookup
      ensures Covers(side, levels', lookup') && lookup' == lookup[price := size]
      ensures |levels'| - |lookup'| == |levels| - |lookup|
    {
      var l := Level(price, size);
      var keys := seq(|levels|, i requires 0 <= i < |levels| => Rank(side, levels[i].price));
      KeysAscend(side, levels, keys);
      var idx := BisectLeft(keys, Rank(side, price));
      InsertionPoint(side, levels, keys, idx, l);
      hide Covers, Rank, InsertAt, Between;
      InsertionCovers(side, levels, lookup, idx, l);
      InsertAtShape(levels, idx, l);
      OneKeyLess(lookup[price := size], price);
      assert lookup[price := size] - {price} == lookup;
      lookup' := lookup[price := size];
      levels' := InsertAt(levels, idx, l);
    }

    // The update of one side: what `apply_delta` does to that side's list and map.
    static method UpdateSide(side: Side, levels: seq<Level>, lookup: map<real, real>, price: real, size: real)
      returns (levels': seq<Level>, lookup': map<real, real>)
      requires Covers(side, levels, lookup)
      ensures Covers(side, levels', lookup')
      ensures lookup' == PlainDelta(lookup, price, size)
      ensures |levels'| - |lookup'| == |levels| - |lookup|
    {
      hide Covers;
      levels', lookup' := RemoveLevel(side, levels, lookup, price);
      if size > 0.0 {
        levels', lookup' := InsertLevel(side, levels', lookup', price, size);
      }
    }

    /** Sets or removes one price level; the other side is left alone. */
    method ApplyDelta(side: Side, price: real, size: real)
      requires Valid()
      modifies this
      ensures Valid() && timestampMs == old(timestampMs)
      ensures events == old(events) + [Delta(side, price, size)]
      ensures side == Sell ==> bids == old(bids) && bidsByPrice == old(bidsByPrice)
      ensures side == Buy ==> asks == old(asks) && asksByPrice == old(asksByPrice)
      ensures RecordsMid(bids, asks, old(mids), mids)
    {
      hide SideHolds, MidPrice, Signals, RingHolds, PlainDelta, Content, RecordsMid;
      SideHoldsCovers(events, Buy, bids, bidsByPrice);
      SideHoldsCovers(events, Sell, asks, asksByPrice);
      if side == Buy {
        bids, bidsByPrice := UpdateSide(Buy, bids, bidsByPrice, price, size);
      } else {
        asks, asksByPrice := UpdateSide(Sell, asks, asksByPrice, price, size);
      }
      events := events + [Delta(side, price, size)];
      DeltaHolds(old(events), Buy, old(bids), old(bidsByPrice), Delta(side, price, size), bids, bidsByPrice);
      DeltaHolds(old(events), Sell, old(asks), old(asksByPrice), Delta(side, price, size), asks, asksByPrice);
      signalsStale := true;
      RecordMid();
    }

    /** The early-exit scan computes the full filtered sum. */
    method DepthAtPrice(side: Side, price: real) returns (total: real)
      requires Valid()
      ensures total == FilteredDepth(side, if side == Buy then bids else asks, price)
    {
      var levels := if side == Buy then bids else asks;
      total := 0.0;
      var i := 0;
      while i < |levels|
        invariant 0 <= i <= |levels|
        invariant total == FilteredDepth(side, levels[..i], price)
        invariant forall k :: 0 <= k < i ==> Within(side, levels[k], price)
      {
        if side == Buy {
          if levels[i].price < price {
            break;
          }
        } else {
          if levels[i].price > price {
            break;
          }
        }
        assert levels[..i + 1][..i] == levels[..i];
        total := total + levels[i].size;
        i := i + 1;
      }
      NothingDeeper(side, levels, price, i);
    }

    /** Walks the side until the notional is spent. */
    method VwapFor(side: Side, depthNotional: real) returns (price: real)
      ensures price == Vwap(if side == Buy then bids else asks, depthNotional)
    {
      var levels := if side == Buy then bids else asks;
      if depthNotional <= 0.0 || levels == [] {
        return 0.0;
      }
      assert levels[0..] == levels;
      hide Cost, Bought, Worth;
      var remaining, totalCost, totalSize := depthNotional, 0.0, 0.0;
      var i := 0;
      while i < |levels|
        invariant 0 <= i <= |levels| && 0.0 < remaining
        invariant totalCost + Cost(levels[i..], remaining) == Cost(levels, depthNotional)
        invariant totalSize + Bought(levels[i..], remaining) == Bought(levels, depthNotional)
      {
        var available := Worth(levels[i]);
        WalkStep(levels, i, remaining);
        if available >= remaining {
          totalCost := totalCost + remaining;
          totalSize := totalSize + remaining / levels[i].price;
          return if totalSize > 0.0 then totalCost / totalSize else 0.0;
        }
        totalCost := totalCost + available;
        totalSize := totalSize + levels[i].size;
        remaining := remaining - available;
        i := i + 1;
      }
      assert levels[i..] == [];
      WalkEnd(remaining);
      price := if totalSize > 0.0 then totalCost / totalSize else 0.0;
    }

    /** The ring buffer gives back the most recent mids, newest first. */
    method RecentMids() returns (recent: seq<real>)
      requires Valid()
      ensures recent == Recent(mids)
    {
      if historyCount == 0 {
        return [];
      }
      var count := if historyCount <= HISTORY_CAPACITY then historyCount else HISTORY_CAPACITY;
      recent := [];
      for i := 0 to count
        invariant recent == Newest(mids, i)
      {
        var idx := (historyIdx - 1 - i) % HISTORY_CAPACITY;
        SlotBack(historyCount, i);
        var val := if idx < |midHistory| then midHistory[idx] else 0.0;
        assert val == mids[|mids| - 1 - i];
        if val > 0.0 {
          recent := recent + [val];
        }
      }
    }

    method DetectFlashCrash() returns (crash: bool)
      requires Valid()
      ensures crash == FlashCrash(mids, flashThreshold)
    {
      if historyCount < 2 {
        return false;
      }
      var recent := RecentMids();
      if recent == [] {
        return false;
      }
      var high, low := MaxOf(recent), MinOf(recent);
      if high <= 0.0 {
        return false;
      }
      crash := (high - low) / high >= flashThreshold;
    }

    /** The cached answer is always what a fresh computation would give. */
    method ComputeSignals() returns (sig: MarketSignal)
      requires Valid()
      modifies this`cachedSignals, this`signalsStale
      ensures Valid() && sig == FreshSignals()
      ensures SaysOf(sig, bids, asks, mids, flashThreshold)
    {
      SignalsMean(bids, asks, mids, flashThreshold);
      hide SaysOf, DepthWall, SpreadBps, Imbalance, FlashCrash;
      if !signalsStale && cachedSignals.Some? {
        return cachedSignals.value;
      }
      var crash := DetectFlashCrash();
      sig := MarketSignal(crash, DepthWall(bids), DepthWall(asks), SpreadBps(bids, asks), Imbalance(bids, asks));
      cachedSignals := Some(sig);
      signalsStale := false;
    }
  }

  lemma KeysAscend(side: Side, levels: seq<Level>, keys: seq<real>)
    requires Sorted(side, levels) && |keys| == |levels|
    requires forall i :: 0 <= i < |levels| ==> keys[i] == Rank(side, levels[i].price)
    ensures forall i, j :: 0 <= i < j < |keys| ==> keys[i] <= keys[j]
  {
  }

  lemma InsertionPoint(side: Side, levels: seq<Level>, keys: seq<real>, idx: nat, l: Level)
    requires |keys| == |levels| && idx <= |levels|
    requires forall i :: 0 <= i < |levels| ==> keys[i] == Rank(side, levels[i].price)
    requires forall i :: 0 <= i < idx ==> keys[i] < Rank(side, l.price)
    requires forall i :: idx <= i < |keys| ==> Rank(side, l.price) <= keys[i]
    ensures Between(side, levels, idx, l)
  {
    forall i | 0 <= i < |levels|
      ensures i < idx ==> Rank(side, levels[i].price) <= Rank(side, l.price)
      ensures idx <= i ==> Rank(side, l.price) <= Rank(side, levels[i].price)
    {
      assert keys[i] == Rank(side, levels[i].price);
    }
  }

  // One step of the execution walk; a level that ends the walk has a price to divide by.
  lemma WalkStep(levels: seq<Level>, i: nat, remaining: real)
    requires i < |levels| && 0.0 < remaining
    ensures var l, rest, available := levels[i], levels[i + 1..], Worth(levels[i]);
      if available >= remaining then
        && l.price != 0.0
        && Cost(levels[i..], remaining) == remaining
        && Bought(levels[i..], remaining) == remaining / l.price
      else
        && Cost(levels[i..], remaining) == available + Cost(rest, remaining - available)
        && Bought(levels[i..], remaining) == l.size + Bought(rest, remaining - available)
  {
    var here := levels[i..];
    assert here[0] == levels[i] && here[1..] == levels[i + 1..];
    NonZeroPrice(levels[i]);
    hide Worth;
  }

  lemma NonZeroPrice(l: Level)
    ensures 0.0 < Worth(l) ==> l.price != 0.0
  {
  }

  lemma WalkEnd(remaining: real)
    ensures Cost([], remaining) == 0.0 && Bought([], remaining) == 0.0
  {
  }
}

// order/order_engine.py: open orders and their tags, kept in step with a remote exchange.
//
// Tracking is the specification of the two dictionaries; Exchanges is the remote side, which
// answers or fails as it likes; OrderEngines is the engine between them.

module Tracking {
  import opened Types

  /** `_open` and `_by_tag`. */
  datatype Tracked = Tracked(open: map<string, Order>, byTag: map<string, string>)

  /** What the exchange fixed when it issued an order id. */
  datatype Issue = Issue(pair: string, tag: string)

  ghost predicate Matches(o: Order, issued: map<string, Issue>) {
    o.orderId in issued && issued[o.orderId] == Issue(o.pair, o.clientOrderId)
  }

  /** Every tracked order and every indexed tag is as the exchange issued it. */
  ghost predicate Consistent(t: Tracked, issued: map<string, Issue>) {
    && (forall id :: id in t.open ==> t.open[id].orderId == id && Matches(t.open[id], issued))
    && (forall tag :: tag in t.byTag ==> t.byTag[tag] in issued && issued[t.byTag[tag]].tag == tag)
  }

  /** The index is the inverse of the tags of the open orders. */
  ghost predicate Exact(t: Tracked) {
    && (forall id :: id in t.open ==> t.open[id].clientOrderId in t.byTag && t.byTag[t.open[id].clientOrderId] == id)
    && (forall tag :: tag in t.byTag ==> t.byTag[tag] in t.open && t.open[t.byTag[tag]].clientOrderId == tag)
  }

  /** No two issued orders share a tag, and none is untagged. */
  ghost predicate DistinctTags(issued: map<string, Issue>) {
    && (forall id :: id in issued ==> issued[id].tag != "")
    && (forall a, b :: a in issued && b in issued && issued[a].tag == issued[b].tag ==> a == b)
  }

  function OrderByTag(t: Tracked, tag: string): Option<Order> {
    if tag in t.byTag && t.byTag[tag] in t.open then Some(t.open[t.byTag[tag]]) else None
  }

  /** Looking up a tag only ever finds an open order with that tag; it finds every one when the
      index is exact. */
  lemma LookupIsSound(t: Tracked, issued: map<string, Issue>, tag: string)
    requires Consistent(t, issued)
    ensures OrderByTag(t, tag).Some? ==>
      var o := OrderByTag(t, tag).value;
      o.clientOrderId == tag && o.orderId in t.open && t.open[o.orderId] == o
    ensures Exact(t) ==> (OrderByTag(t, tag).Some? <==> exists id :: id in t.open && t.open[id].clientOrderId == tag)
  {
  }

  /** A confirmed order: tracked and indexed, even with an empty tag. */
  function Track(t: Tracked, o: Order): Tracked {
    Tracked(t.open[o.orderId := o], t.byTag[o.clientOrderId := o.orderId])
  }

  /** The tags that the removal of some orders takes out of the index. */
  function TagsOf(t: Tracked, ids: set<string>): set<string> {
    set id | id in ids && id in t.open && t.open[id].clientOrderId != "" :: t.open[id].clientOrderId
  }

  function Untrack(t: Tracked, ids: set<string>): Tracked {
    Tracked(t.open - ids, t.byTag - TagsOf(t, ids))
  }

  /** An order without a tag is indexed when it is confirmed, and its entry stays when it is dropped. */
  lemma EmptyTagStays(o: Order)
    requires o.clientOrderId == ""
    ensures var t := Untrack(Track(Tracked(map[], map[]), o), {o.orderId});
      t.open == map[] && "" in t.byTag && !Exact(t)
  {
    var t := Untrack(Track(Tracked(map[], map[]), o), {o.orderId});
    assert TagsOf(Track(Tracked(map[], map[]), o), {o.orderId}) == {};
    assert "" in t.byTag;
  }

  /** Of two orders with one tag the index knows the later; once that is dropped, it knows neither. */
  lemma RepeatedTagLost(a: Order, b: Order)
    requires a.orderId != b.orderId && a.clientOrderId == b.clientOrderId != ""
    ensures var t := Untrack(Track(Track(Tracked(map[], map[]), a), b), {b.orderId});
      t.open == map[a.orderId := a] && OrderByTag(t, a.clientOrderId) == None && !Exact(t)
  {
    var both := Track(Track(Tracked(map[], map[]), a), b);
    var t := Untrack(both, {b.orderId});
    assert both.open[b.orderId] == b && b.clientOrderId in TagsOf(both, {b.orderId});
    assert a.orderId in t.open && a.clientOrderId !in t.byTag;
  }

  /** One order of the exchange's list: it replaces the local copy. */
  function AdoptOne(t: Tracked, o: Order): Tracked {
    Tracked(t.open[o.orderId := o],
            if o.clientOrderId != "" then t.byTag[o.clientOrderId := o.orderId] else t.byTag)
  }

  function Adopt(t: Tracked, orders: seq<Order>): Tracked {
    if orders == [] then t else AdoptOne(Adopt(t, orders[..|orders| - 1]), orders[|orders| - 1])
  }

  function LocalIds(t: Tracked, pair: string): set<string> {
    set id | id in t.open && t.open[id].pair == pair
  }

  function Ids(orders: seq<Order>): set<string> {
    set o | o in orders :: o.orderId
  }

  function Reconciled(t: Tracked, pair: string, orders: seq<Order>): Tracked {
    Adopt(Untrack(t, LocalIds(t, pair) - Ids(orders)), orders)
  }

  /** The tags that reconciliation reports: orders of the exchange that were not tracked. */
  function OrphanTags(t: Tracked, pair: string, orders: seq<Order>): set<string> {
    set o | o in orders && o.orderId !in LocalIds(t, pair) && o.clientOrderId != "" :: o.clientOrderId
  }

  /** The exchange's open orders of a pair, each once. */
  ghost predicate ListsPair(orders: seq<Order>, pair: string, live: map<string, Order>) {
    && (forall o :: o in orders ==> o.orderId in live && live[o.orderId] == o && o.pair == pair)
    && (forall id :: id in live && live[id].pair == pair ==> live[id] in orders)
    && (forall i, j :: 0 <= i < j < |orders| ==> orders[i].orderId != orders[j].orderId)
  }

  function OfPair(open: map<string, Order>, pair: string): map<string, Order> {
    map id | id in open && open[id].pair == pair :: open[id]
  }

  function NotOfPair(open: map<string, Order>, pair: string): map<string, Order> {
    map id | id in open && open[id].pair != pair :: open[id]
  }

  /** The tags of the exchange's orders of the pair that are not open locally. */
  ghost function UnknownTags(open: map<string, Order>, pair: string, live: map<string, Order>): set<string> {
    set id | id in live && live[id].pair == pair && id !in OfPair(open, pair) && live[id].clientOrderId != ""
      :: live[id].clientOrderId
  }

  lemma TrackKeeps(t: Tracked, issued: map<string, Issue>, o: Order)
    requires Consistent(t, issued) && o.orderId !in issued
    ensures var issued' := issued[o.orderId := Issue(o.pair, o.clientOrderId)];
      && Consistent(Track(t, o), issued')
      && (Exact(t) && DistinctTags(issued') ==> Exact(Track(t, o)))
  {
    var issued' := issued[o.orderId := Issue(o.pair, o.clientOrderId)];
    if Exact(t) && DistinctTags(issued') {
      forall id | id in t.open
        ensures t.open[id].clientOrderId != o.clientOrderId
      {
        assert issued'[id].tag == t.open[id].clientOrderId && issued'[o.orderId].tag == o.clientOrderId;
      }
    }
  }

  lemma UntrackKeeps(t: Tracked, issued: map<string, Issue>, ids: set<string>)
    requires Consistent(t, issued)
    ensures Consistent(Untrack(t, ids), issued)
    ensures Exact(t) && DistinctTags(issued) ==> Exact(Untrack(t, ids))
  {
    var u := Untrack(t, ids);
    if Exact(t) && DistinctTags(issued) {
      forall id | id in u.open
        ensures u.open[id].clientOrderId in u.byTag && u.byTag[u.open[id].clientOrderId] == id
      {
        forall other | other in ids && other in t.open
          ensures t.open[other].clientOrderId != t.open[id].clientOrderId
        {
          assert issued[other].tag == t.open[other].clientOrderId && issued[id].tag == t.open[id].clientOrderId;
        }
      }
      forall tag | tag in u.byTag
        ensures u.byTag[tag] in u.open
      {
        assert t.open[t.byTag[tag]].clientOrderId == tag && tag !in TagsOf(t, ids);
      }
    }
  }

  lemma AdoptOneKeeps(t: Tracked, issued: map<string, Issue>, o: Order)
    requires Consistent(t, issued) && Matches(o, issued)
    ensures Consistent(AdoptOne(t, o), issued)
    ensures Exact(t) && DistinctTags(issued) ==> Exact(AdoptOne(t, o))
  {
    var u := AdoptOne(t, o);
    if Exact(t) && DistinctTags(issued) {
      forall id | id in u.open
        ensures u.open[id].clientOrderId in u.byTag && u.byTag[u.open[id].clientOrderId] == id
      {
        if id != o.orderId {
          assert issued[id].tag != issued[o.orderId].tag;
        }
      }
    }
  }

  lemma {:induction false} AdoptKeeps(t: Tracked, issued: map<string, Issue>, orders: seq<Order>)
    requires Consistent(t, issued) && forall o :: o in orders ==> Matches(o, issued)
    ensures Consistent(Adopt(t, orders), issued)
    ensures Exact(t) && DistinctTags(issued) ==> Exact(Adopt(t, orders))
  {
    if orders != [] {
      var n := |orders| - 1;
      AdoptKeeps(t, issued, orders[..n]);
      AdoptOneKeeps(Adopt(t, orders[..n]), issued, orders[n]);
    }
  }

  /** Reconciliation keeps the index sound, and exact under distinct tags. */
  lemma ReconciledKeeps(t: Tracked, issued: map<string, Issue>, pair: string, orders: seq<Order>)
    requires Consistent(t, issued) && forall o :: o in orders ==> Matches(o, issued)
    ensures Consistent(Reconciled(t, pair, orders), issued)
    ensures Exact(t) && DistinctTags(issued) ==> Exact(Reconciled(t, pair, orders))
  {
    var stale := LocalIds(t, pair) - Ids(orders);
    UntrackKeeps(t, issued, stale);
    AdoptKeeps(Untrack(t, stale), issued, orders);
  }

  lemma {:induction false} AdoptOpens(t: Tracked, orders: seq<Order>)
    requires forall i, j :: 0 <= i < j < |orders| ==> orders[i].orderId != orders[j].orderId
    ensures Adopt(t, orders).open.Keys == t.open.Keys + Ids(orders)
    ensures forall o :: o in orders ==> Adopt(t, orders).open[o.orderId] == o
    ensures forall id :: id in t.open && id !in Ids(orders) ==> Adopt(t, orders).open[id] == t.open[id]
  {
    if orders != [] {
      var n := |orders| - 1;
      AdoptOpens(t, orders[..n]);
      IdsOfOneMore(orders);
      var before, after, last := Adopt(t, orders[..n]).open, Adopt(t, orders).open, orders[n];
      assert after == before[last.orderId := last];
      hide Adopt, Ids;
      forall o | o in orders
        ensures after[o.orderId] == o
      {
        if o != last {
          assert o in orders[..n];
          assert o.orderId != last.orderId && before[o.orderId] == o;
        }
      }
    }
  }

  lemma IdsOfOneMore(orders: seq<Order>)
    requires orders != []
    requires forall i, j :: 0 <= i < j < |orders| ==> orders[i].orderId != orders[j].orderId
    ensures var n := |orders| - 1;
      && Ids(orders) == Ids(orders[..n]) + {orders[n].orderId}
      && orders[n].orderId !in Ids(orders[..n])
      && forall o :: o in orders[..n] ==> o.orderId in Ids(orders[..n])
  {
    assert orders == orders[..|orders| - 1] + [orders[|orders| - 1]];
  }

  lemma ReconciledOpen(t: Tracked, pair: string, orders: seq<Order>)
    requires forall i, j :: 0 <= i < j < |orders| ==> orders[i].orderId != orders[j].orderId
    ensures forall id :: id in Reconciled(t, pair, orders).open <==>
      id in Ids(orders) || (id in t.open && t.open[id].pair != pair)
    ensures forall o :: o in orders ==> Reconciled(t, pair, orders).open[o.orderId] == o
    ensures forall id :: id in t.open && t.open[id].pair != pair && id !in Ids(orders) ==>
      Reconciled(t, pair, orders).open[id] == t.open[id]
  {
    AdoptOpens(Untrack(t, LocalIds(t, pair) - Ids(orders)), orders);
  }

  ghost predicate KeyedAsIssued(live: map<string, Order>, issued: map<string, Issue>) {
    forall id :: id in live ==> live[id].orderId == id && Matches(live[id], issued)
  }

  lemma ListedIds(orders: seq<Order>, pair: string, live: map<string, Order>, issued: map<string, Issue>)
    requires ListsPair(orders, pair, live) && KeyedAsIssued(live, issued)
    ensures forall id :: id in Ids(orders) <==> id in live && live[id].pair == pair
  {
    forall id | id in live && live[id].pair == pair
      ensures id in Ids(orders)
    {
      assert live[id] in orders && live[id].orderId == id;
    }
  }

  /** After a reconciliation the local orders of the pair are the exchange's, and the orders of
      other pairs are untouched. */
  lemma ReconcileConverges(t: Tracked, issued: map<string, Issue>, pair: string, orders: seq<Order>,
                           live: map<string, Order>)
    requires Consistent(t, issued) && ListsPair(orders, pair, live) && KeyedAsIssued(live, issued)
    ensures OfPair(Reconciled(t, pair, orders).open, pair) == OfPair(live, pair)
    ensures NotOfPair(Reconciled(t, pair, orders).open, pair) == NotOfPair(t.open, pair)
  {
    ReconciledOpen(t, pair, orders);
    ListedIds(orders, pair, live, issued);
    hide Reconciled, Ids;
    forall id | id in live && live[id].pair == pair
      ensures Reconciled(t, pair, orders).open[id] == live[id]
    {
      assert live[id] in orders;
    }
    forall id | id in t.open && t.open[id].pair != pair
      ensures !(id in live && live[id].pair == pair)
    {
      assert issued[id].pair == t.open[id].pair;
    }
    hide *;
    SplitByPair(Reconciled(t, pair, orders).open, t.open, live, pair);
  }

  lemma SplitByPair(r: map<string, Order>, t: map<string, Order>, live: map<string, Order>, pair: string)
    requires forall id :: id in r <==> (id in live && live[id].pair == pair) || (id in t && t[id].pair != pair)
    requires forall id :: id in live && live[id].pair == pair ==> r[id] == live[id]
    requires forall id :: id in t && t[id].pair != pair ==> !(id in live && live[id].pair == pair) && r[id] == t[id]
    ensures OfPair(r, pair) == OfPair(live, pair) && NotOfPair(r, pair) == NotOfPair(t, pair)
  {
  }

  /** A second reconciliation against the same exchange reports no orphan and changes no order. */
  lemma ReconcileTwice(t: Tracked, issued: map<string, Issue>, pair: string, orders: seq<Order>,
                       again: seq<Order>, live: map<string, Order>)
    requires Consistent(t, issued) && KeyedAsIssued(live, issued)
    requires ListsPair(orders, pair, live) && ListsPair(again, pair, live)
    ensures var once := Reconciled(t, pair, orders);
      && OrphanTags(once, pair, again) == {}
      && Reconciled(once, pair, again).open == once.open
      && (Exact(t) && DistinctTags(issued) ==> Reconciled(once, pair, again) == once)
  {
    var once := Reconciled(t, pair, orders);
    ReconcileConverges(t, issued, pair, orders, live);
    ReconciledKeeps(t, issued, pair, orders);
    var twice := Reconciled(once, pair, again);
    ReconcileConverges(once, issued, pair, again, live);
    ReconciledKeeps(once, issued, pair, again);
    ByPair(once.open, twice.open, pair);
    forall o | o in again
      ensures o.orderId in LocalIds(once, pair)
    {
      assert o.orderId in OfPair(live, pair);
      assert o.orderId in OfPair(once.open, pair);
    }
    if Exact(t) && DistinctTags(issued) {
      ExactIndexIsUnique(once, twice);
    }
  }

  lemma ByPair(a: map<string, Order>, b: map<string, Order>, pair: string)
    requires OfPair(a, pair) == OfPair(b, pair) && NotOfPair(a, pair) == NotOfPair(b, pair)
    ensures a == b
  {
    forall id
      ensures id in a <==> id in b
      ensures id in a ==> a[id] == b[id]
    {
      assert id in a <==> id in OfPair(a, pair) || id in NotOfPair(a, pair);
      assert id in b <==> id in OfPair(b, pair) || id in NotOfPair(b, pair);
    }
  }

  lemma ExactIndexIsUnique(a: Tracked, b: Tracked)
    requires a.open == b.open && Exact(a) && Exact(b)
    ensures a.byTag == b.byTag
  {
    forall tag
      ensures tag in a.byTag <==> tag in b.byTag
      ensures tag in a.byTag ==> a.byTag[tag] == b.byTag[tag]
    {
      if tag in a.byTag {
        assert a.open[a.byTag[tag]].clientOrderId == tag;
      }
      if tag in b.byTag {
        assert b.open[b.byTag[tag]].clientOrderId == tag;
      }
    }
  }
}

module Tags {

  const TAG_PREFIX := "gt"

  function Digit(n: nat): char
    requires n < 10
  {
    ['0', '1', '2', '3', '4', '5', '6', '7', '8', '9'][n]
  }

  function Decimal(n: nat): string {
    if n < 10 then [Digit(n)] else Decimal(n / 10) + [Digit(n % 10)]
  }

  /** `f"{prefix}:{pair}:{nonce}"`. */
  function TagFor(pair: string, nonce: nat): string {
    TAG_PREFIX + ":" + pair + ":" + Decimal(nonce)
  }

  lemma {:induction false} DecimalHasNoColon(n: nat)
    ensures ':' !in Decimal(n) && Decimal(n) != ""
  {
    if n >= 10 {
      DecimalHasNoColon(n / 10);
    }
  }

  lemma {:induction false} DecimalInjective(n: nat, m: nat)
    requires Decimal(n) == Decimal(m)
    ensures n == m
  {
    var a, b := Decimal(n), Decimal(m);
    assert a[|a| - 1] == Digit(n % 10) && b[|b| - 1] == Digit(m % 10);
    DigitInjective(n % 10, m % 10);
    DecimalLength(n);
    DecimalLength(m);
    if n >= 10 && m >= 10 {
      assert a[..|a| - 1] == Decimal(n / 10) && b[..|b| - 1] == Decimal(m / 10);
      DecimalInjective(n / 10, m / 10);
    }
  }

  lemma DecimalLength(n: nat)
    ensures |Decimal(n)| >= 2 <==> n >= 10
  {
    if n >= 10 {
      DecimalHasNoColon(n / 10);
    }
  }

  lemma DigitInjective(n: nat, m: nat)
    requires n < 10 && m < 10 && Digit(n) == Digit(m)
    ensures n == m
  {
  }

  /** The number that some digits stand for. */
  ghost function Worth(digits: string): int {
    if digits == "" then 0
    else Worth(digits[..|digits| - 1]) * 10 + (digits[|digits| - 1] as int - '0' as int)
  }

  ghost predicate IsNumeral(digits: string, n: nat) {
    && (forall i :: 0 <= i < |digits| ==> '0' <= digits[i] <= '9')
    && Worth(digits) == n && digits != "" && (digits[0] == '0' ==> n == 0)
  }

  lemma {:induction false} DecimalIsNumeral(n: nat)
    ensures IsNumeral(Decimal(n), n)
  {
    if n >= 10 {
      DecimalIsNumeral(n / 10);
      var front := Decimal(n / 10);
      assert Decimal(n)[..|front|] == front;
    } else {
      assert [Digit(n)][..0] == "";
    }
  }

  /** A generated tag is the prefix, the pair and the nonce in decimal, with colons between. */
  lemma TagReads(pair: string, nonce: nat)
    ensures exists digits :: IsNumeral(digits, nonce) && TagFor(pair, nonce) == "gt:" + pair + ":" + digits
  {
    DecimalIsNumeral(nonce);
    assert TAG_PREFIX + ":" == "gt:";
  }

  /** No two nonces, and no two pairs, give the same generated tag; none is empty. */
  lemma TagsAreDistinct(pair: string, n: nat, pair': string, m: nat)
    requires TagFor(pair, n) == TagFor(pair', m)
    ensures pair == pair' && n == m
    ensures TagFor(pair, n) != ""
  {
    DecimalHasNoColon(n);
    DecimalHasNoColon(m);
    var a, b := TAG_PREFIX + ":" + pair, TAG_PREFIX + ":" + pair';
    LastColon(a, Decimal(n), b, Decimal(m));
    assert a[|TAG_PREFIX + ":"|..] == pair && b[|TAG_PREFIX + ":"|..] == pair';
    DecimalInjective(n, m);
  }

  lemma LastColon(a: string, d: string, b: string, e: string)
    requires ':' !in d && ':' !in e && a + ":" + d == b + ":" + e
    ensures a == b && d == e
  {
    ColonAt(a, d);
    ColonAt(b, e);
    var s := a + ":" + d;
    assert s[|b|] == ':' && s[|a|] == ':';
    assert |a| == |b|;
    assert s[..|a|] == a && s[..|b|] == b && s[|a| + 1..] == d && s[|b| + 1..] == e;
  }

  lemma ColonAt(a: string, d: string)
    requires ':' !in d
    ensures var s := a + ":" + d; s[|a|] == ':' && forall k :: |a| < k < |s| ==> s[k] != ':'
  {
    var s := a + ":" + d;
    forall k | |a| < k < |s|
      ensures s[k] != ':'
    {
      assert s[k] == d[k - |a| - 1];
    }
  }
}

module Exchanges {
  import opened Types
  import opened Tracking

  /** The answer to a submission. A refusal or a broken connection may still have placed the order. */
  datatype Submission = Accepted(order: Order) | Refused | Broken

  /** A call of the exchange, and whether or how it was answered. */
  datatype Call =
    | SubmitCall(req: OrderRequest, answer: Submission)
    | CancelCall(id: string, ok: bool)
    | CancelAllCall(pair: string, ok: bool)
    | FetchCall(pair: string, ok: bool)

  /** Only orders of the pair are gone, and the rest are as they were. */
  ghost predicate SomeCancelled(before: map<string, Order>, after: map<string, Order>, pair: string) {
    && NotOfPair(after, pair) == NotOfPair(before, pair)
    && forall id :: id in after ==> id in before && after[id] == before[id]
  }

  class Exchange {
    var live: map<string, Order>
    ghost var issued: map<string, Issue>

    // Every call so far.
    ghost var calls: seq<Call>

    ghost predicate Valid()
      reads this
    {
      KeyedAsIssued(live, issued)
    }

    /** What a submission can lead to: nothing, or one more issued order, live or filled at once. */
    twostate predicate MayHavePlaced(req: OrderRequest, id: string)
      reads this
    {
      || (live == old(live) && issued == old(issued))
      || exists o: Order :: PlacedAs(o, req, id)
    }

    twostate predicate PlacedAs(o: Order, req: OrderRequest, id: string)
      reads this
    {
      && o.orderId == id && o.pair == req.pair && o.side == req.side && o.price == req.price && o.size == req.size
      && (live == old(live)[id := o] || live == old(live))
      && issued == old(issued)[id := Issue(o.pair, o.clientOrderId)]
    }

    method Submit(req: OrderRequest, id: string) returns (r: Submission)
      requires Valid() && id !in issued
      modifies this
      ensures Valid() && MayHavePlaced(req, id)
      ensures issued.Keys <= old(issued.Keys) + {id}
      ensures forall k :: k in old(issued) ==> k in issued && issued[k] == old(issued)[k]
      ensures r.Accepted? ==> PlacedAs(r.order, req, id)
      ensures calls == old(calls) + [SubmitCall(req, r)]
    {
      var echo: string, filled: real, placed: bool, atOnce: bool, answer: nat := *, *, *, *, *;
      if !placed {
        r := if answer == 0 then Refused else Broken;
        calls := calls + [SubmitCall(req, r)];
        return;
      }
      var o := Order(id, req.pair, req.side, req.price, req.size, filled, echo);
      if !atOnce {
        live := live[id := o];
      }
      issued := issued[id := Issue(o.pair, o.clientOrderId)];
      r := if answer == 0 then Refused else if answer == 1 then Broken else Accepted(o);
      calls := calls + [SubmitCall(req, r)];
      assert PlacedAs(o, req, id);
    }

    /** Trades happen: orders fill, in part or whole. Nothing is placed. */
    method Trades()
      requires Valid()
      modifies this`live
      ensures Valid() && live.Keys <= old(live.Keys)
      ensures forall id :: id in live ==> live[id].pair == old(live)[id].pair
    {
      var gone: set<string>, id: string, filled: real := *, *, *;
      live := live - gone;
      if id in live {
        live := live[id := live[id].(filledSize := filled)];
      }
    }

    /** Cancels an order. A refusal or a broken connection may still have cancelled it. */
    method CancelOrder(id: string) returns (ok: bool)
      requires Valid()
      modifies this`live, this`calls
      ensures Valid() && calls == old(calls) + [CancelCall(id, ok)]
      ensures live == old(live) - {id} || (!ok && live == old(live))
    {
      var cancelled: bool, answered: bool := *, *;
      if cancelled {
        live := live - {id};
      }
      ok := cancelled && answered;
      calls := calls + [CancelCall(id, ok)];
    }

    /** Cancels every order of the pair, or fails, and may then have cancelled some of them. */
    method CancelAllOrders(pair: string) returns (r: Option<nat>)
      requires Valid()
      modifies this`live, this`calls
      ensures Valid() && calls == old(calls) + [CancelAllCall(pair, r.Some?)]
      ensures r.Some? ==> live == NotOfPair(old(live), pair) && r.value == |OfPair(old(live), pair)|
      ensures r.None? ==> SomeCancelled(old(live), live, pair)
    {
      var accepted: bool, gone: set<string> := *, *;
      calls := calls + [CancelAllCall(pair, accepted)];
      if !accepted {
        live := live - (gone * OfPair(live, pair).Keys);
        return None;
      }
      r := Some(|OfPair(live, pair)|);
      live := NotOfPair(live, pair);
    }

    /** Lists the open orders of the pair, in any order, or fails. */
    method FetchOpenOrders(pair: string) returns (r: Option<seq<Order>>)
      requires Valid()
      modifies this`calls
      ensures Valid() && calls == old(calls) + [FetchCall(pair, r.Some?)]
      ensures r.Some? ==> ListsPair(r.value, pair, live)
    {
      var answers: bool := *;
      calls := calls + [FetchCall(pair, answers)];
      if !answers {
        return None;
      }
      var orders: seq<Order> := [];
      var rest := OfPair(live, pair);
      while rest.Keys != {}
        invariant rest.Keys <= OfPair(live, pair).Keys
        invariant forall id :: id in rest ==> rest[id] == live[id]
        invariant forall o :: o in orders ==>
          o.orderId in live && live[o.orderId] == o && o.pair == pair && o.orderId !in rest
        invariant forall id :: id in live && live[id].pair == pair && id !in rest ==> live[id] in orders
        invariant forall i, j :: 0 <= i < j < |orders| ==> orders[i].orderId != orders[j].orderId
        decreases rest.Keys
      {
        var id :| id in rest.Keys;
        orders := orders + [rest[id]];
        rest := rest - {id};
      }
      r := Some(orders);
    }
  }
}

module OrderEngines {
  import opened Types
  import opened Rounding
  import opened Tracking
  import opened Tags
  import opened Exchanges

  datatype Pending = Pending(pair: string, side: Side, price: real, size: real)

  datatype PlaceResult = Placed(order: Order) | ValueError | RateLimitExceeded | SubmitFailed

  /** The checks on a request: a positive price and size, and a price within 20% of the
      reference when there is one. */
  predicate Acceptable(req: OrderRequest, refPrice: real) {
    && 0.0 < req.price && 0.0 < req.size
    && (0.0 < refPrice ==> refPrice * 0.80 <= req.price <= refPrice * 1.20)
  }

  predicate InBand(price: real, refPrice: real) {
    refPrice * 0.80 <= price <= refPrice * 1.20
  }

  /** The band is checked before a price is aligned, so an accepted price can be submitted up to half a tick
      outside of it. */
  lemma BandWithinHalfTick(req: OrderRequest, refPrice: real, tick: real)
    requires WholeTick(tick) && 0.0 < refPrice && Acceptable(req, refPrice)
    ensures refPrice * 0.80 - tick / 2.0 <= Align(req.price, tick) <= refPrice * 1.20 + tick / 2.0
  {
    AlignIsNear(req.price, tick);
    hide Align;
  }

  /** Every accepted price is submitted within the band if and only if the two ends of the band are, when
      aligned. */
  lemma BandIsKeptWhen(refPrice: real, tick: real)
    requires 0.0 < tick && 0.0 < refPrice
    ensures (forall req :: Acceptable(req, refPrice) ==> InBand(Align(req.price, tick), refPrice))
            <==> InBand(Align(refPrice * 0.80, tick), refPrice) && InBand(Align(refPrice * 1.20, tick), refPrice)
  {
    hide Align;
    var low, high := refPrice * 0.80, refPrice * 1.20;
    AlignMonotone(low, high, tick);
    if InBand(Align(low, tick), refPrice) && InBand(Align(high, tick), refPrice) {
      forall req | Acceptable(req, refPrice)
        ensures InBand(Align(req.price, tick), refPrice)
      {
        AlignMonotone(low, req.price, tick);
        AlignMonotone(req.price, high, tick);
      }
    } else {
      assert Acceptable(OrderRequest("", Buy, low, 1.0, ""), refPrice);
      assert Acceptable(OrderRequest("", Buy, high, 1.0, ""), refPrice);
    }
  }

  lemma ConsistentWithMore(t: Tracked, issued: map<string, Issue>, issued': map<string, Issue>)
    requires Consistent(t, issued) && forall id :: id in issued ==> id in issued' && issued'[id] == issued[id]
    ensures Consistent(t, issued')
  {
  }

  /** What the caller of `place` gets for an answer of the exchange. */
  ghost function ResultOf(answer: Submission): PlaceResult {
    match answer
    case Accepted(order) => Placed(order)
    case _ => SubmitFailed
  }

  class LiveOrderEngine {
    const client: Exchange
    const tick: real
    var open: map<string, Order>
    var byTag: map<string, string>
    var pending: map<string, Pending>
    var nonce: nat

    function State(): Tracked
      reads this
    {
      Tracked(open, byTag)
    }

    ghost predicate Valid()
      reads this, client
    {
      0.0 < tick && client.Valid() && Consistent(State(), client.issued)
    }

    constructor (exchange: Exchange, tickSize: real)
      requires 0.0 < tickSize && exchange.Valid()
      ensures Valid() && client == exchange && tick == tickSize
      ensures open == map[] && byTag == map[] && pending == map[] && nonce == 0
    {
      client, tick := exchange, tickSize;
      open, byTag, pending, nonce := map[], map[], map[], 0;
    }

    /** Submits an aligned, tagged limit order. `granted` is the rate limiter's answer. */
    method Place(req: OrderRequest, refPrice: real, granted: bool, freshId: string) returns (r: PlaceResult)
      requires Valid() && freshId !in client.issued
      modifies this, client
      ensures Valid()
      ensures r.ValueError? <==> !Acceptable(req, refPrice)
      ensures r.RateLimitExceeded? <==> Acceptable(req, refPrice) && !granted
      // Otherwise the request is submitted, once, at its aligned price and rounded size, with its own tag or a new
      // one, and the exchange's answer decides.
      ensures r.Placed? || r.SubmitFailed? ==>
        && client.calls != [] && client.calls[..|client.calls| - 1] == old(client.calls)
        && var last := client.calls[|client.calls| - 1];
        && last.SubmitCall? && r == ResultOf(last.answer)
        && last.req == OrderRequest(req.pair, req.side, Align(req.price, tick), Round6(req.size),
             if req.clientOrderId != "" then req.clientOrderId else TagFor(req.pair, nonce))
        && pending == if last.answer.Broken? then old(pending)[last.req.clientOrderId :=
                           Pending(req.pair, req.side, Align(req.price, tick), Round6(req.size))]
                      else old(pending) - {last.req.clientOrderId}
      // A rejected request reaches nobody; a failed one is not tracked, whatever the exchange did with it.
      ensures r.ValueError? || r.RateLimitExceeded? ==>
        && pending == old(pending) && client.calls == old(client.calls)
        && client.live == old(client.live) && client.issued == old(client.issued)
      ensures !r.Placed? ==> State() == old(State())
      ensures client.issued.Keys <= old(client.issued.Keys) + {freshId}
      // A placed order is at the aligned price, tracked under its id and indexed by its tag.
      ensures r.Placed? ==>
        && r.order.orderId == freshId && r.order.pair == req.pair && r.order.side == req.side
        && r.order.price == Align(req.price, tick) && r.order.size == Round6(req.size)
        && State() == Track(old(State()), r.order)
      // Distinct non-empty tags keep the index exact.
      ensures old(Exact(State())) && DistinctTags(client.issued) ==> Exact(State())
      ensures nonce == old(nonce) + if Acceptable(req, refPrice) && req.clientOrderId == "" then 1 else 0
    {
      if !(0.0 < req.price) || !(0.0 < req.size) {
        return ValueError;
      }
      if 0.0 < refPrice {
        if req.price > refPrice * 1.20 {
          return ValueError;
        }
        if req.price < refPrice * 0.80 {
          return ValueError;
        }
      }
      hide Align, Round6, TagFor, Consistent, Exact, DistinctTags, Exchange.Valid, Exchange.MayHavePlaced;
      var price, size := Align(req.price, tick), Round6(req.size);
      var tag := req.clientOrderId;
      if tag == "" {
        nonce := nonce + 1;
        tag := TagFor(req.pair, nonce);
      }
      if !granted {
        return RateLimitExceeded;
      }
      pending := pending[tag := Pending(req.pair, req.side, price, size)];
      var alignedReq := OrderRequest(req.pair, req.side, price, size, tag);
      label submitted:
      var answer := client.Submit(alignedReq, freshId);
      ConsistentWithMore(State(), old@submitted(client.issued), client.issued);
      match answer {
        case Broken => return SubmitFailed;
        case Refused =>
          pending := pending - {tag};
          return SubmitFailed;
        case Accepted(order) =>
          pending := pending - {tag};
          TrackKeeps(State(), old@submitted(client.issued), order);
          open := open[order.orderId := order];
          byTag := byTag[order.clientOrderId := order.orderId];
          return Placed(order);
      }
    }

    method Cancel(orderId: string) returns (ok: bool)
      requires Valid()
      modifies this`open, this`byTag, client`live, client`calls
      ensures Valid()
      ensures ok ==> orderId in old(open) && State() == Untrack(old(State()), {orderId})
      ensures !ok ==> State() == old(State())
      // A failed cancel may have reached the exchange; an order that is not tracked never does.
      ensures client.live == old(client.live) - {orderId} || (!ok && client.live == old(client.live))
      ensures orderId !in old(open) ==> client.live == old(client.live)
      ensures client.calls == old(client.calls) + if orderId in old(open) then [CancelCall(orderId, ok)] else []
      ensures old(Exact(State())) && DistinctTags(client.issued) ==> Exact(State())
    {
      if orderId !in open {
        return false;
      }
      var order := open[orderId];
      ok := client.CancelOrder(orderId);
      if ok {
        UntrackKeeps(State(), client.issued, {orderId});
        UntrackOne(State(), orderId);
        open := open - {orderId};
        if order.clientOrderId != "" {
          byTag := byTag - {order.clientOrderId};
        }
      }
    }

    // Drops the given orders, and the tags that point to them.
    method Forget(ids: set<string>)
      modifies this`open, this`byTag
      ensures State() == Untrack(old(State()), ids)
    {
      var rest := ids;
      ghost var before, done: set<string> := State(), {};
      assert Untrack(before, {}) == before;
      hide Untrack, TagsOf;
      while rest != {}
        invariant rest + done == ids && State() == Untrack(before, done)
        invariant done !! rest
                  && (forall id :: id in rest && id in before.open ==> id in open && open[id] == before.open[id])
        decreases rest
      {
        var id :| id in rest;
        UntrackMore(before, done, id);
        rest := rest - {id};
        done := done + {id};
        if id in open {
          var order := open[id];
          open := open - {id};
          if order.clientOrderId != "" {
            byTag := byTag - {order.clientOrderId};
          }
        }
      }
      assert done == ids;
    }

    method CancelByTag(tag: string) returns (ok: bool)
      requires Valid()
      modifies this`open, this`byTag, client`live, client`calls
      ensures Valid()
      ensures ok ==> OrderByTag(old(State()), tag).Some?
      ensures ok ==> State() == Untrack(old(State()), {OrderByTag(old(State()), tag).value.orderId})
      ensures !ok ==> State() == old(State())
      ensures tag in old(byTag) ==>
        client.live == old(client.live) - {old(byTag[tag])} || (!ok && client.live == old(client.live))
      ensures OrderByTag(old(State()), tag).None? ==> client.live == old(client.live)
      ensures client.calls == old(client.calls) + if OrderByTag(old(State()), tag).Some?
              then [CancelCall(OrderByTag(old(State()), tag).value.orderId, ok)] else []
      ensures old(Exact(State())) && DistinctTags(client.issued) ==> Exact(State())
    {
      if tag !in byTag {
        return false;
      }
      ok := Cancel(byTag[tag]);
    }

    /** Cancels the tracked orders of a pair. With none tracked the exchange is not even asked. */
    method CancelAll(pair: string) returns (count: nat, ghost asked: bool, ghost done: bool)
      requires Valid()
      modifies this`open, this`byTag, client`live, client`calls
      ensures Valid()
      ensures asked <==> OfPair(old(open), pair) != map[]
      ensures done ==> asked
      ensures client.calls == old(client.calls) + if asked then [CancelAllCall(pair, done)] else []
      ensures done ==> State() == Untrack(old(State()), LocalIds(old(State()), pair))
      ensures done ==> client.live == NotOfPair(old(client.live), pair) && count == |OfPair(old(client.live), pair)|
      ensures !done ==> State() == old(State()) && count == 0
      ensures OfPair(open, pair) == map[] <==> done || !asked
      // A failed call may have cancelled some orders of the pair; without a call the exchange keeps them all.
      ensures asked && !done ==> SomeCancelled(old(client.live), client.live, pair)
      ensures !asked ==> client.live == old(client.live)
      ensures done ==> OfPair(client.live, pair) == map[]
      ensures old(Exact(State())) && DistinctTags(client.issued) ==> Exact(State())
    {
      var ids := LocalIds(State(), pair);
      assert ids == {} <==> OfPair(open, pair) == map[] by {
        assert ids == OfPair(open, pair).Keys;
      }
      asked, done := ids != {}, false;
      if ids == {} {
        return 0, asked, done;
      }
      var r := client.CancelAllOrders(pair);
      if r == None {
        return 0, asked, done;
      }
      done := true;
      UntrackKeeps(State(), client.issued, ids);
      count := r.value;
      Forget(ids);
      assert OfPair(open, pair) == map[];
    }

    method OpenOrderByTag(tag: string) returns (r: Option<Order>)
      requires Valid()
      ensures r == OrderByTag(State(), tag)
      ensures r.Some? ==> r.value.clientOrderId == tag && r.value.orderId in open
    {
      r := if tag in byTag && byTag[tag] in open then Some(open[byTag[tag]]) else None;
    }

    /** Makes the local orders of the pair the exchange's, and reports the tags of those it did not know. */
    method Reconcile(pair: string) returns (orphans: set<string>, ghost done: bool)
      requires Valid()
      modifies this`open, this`byTag, client`calls
      ensures Valid() && client.calls == old(client.calls) + [FetchCall(pair, done)]
      ensures !done ==> orphans == {} && State() == old(State())
      ensures done ==>
        OfPair(open, pair) == OfPair(client.live, pair) && NotOfPair(open, pair) == NotOfPair(old(open), pair)
      ensures done ==> orphans == UnknownTags(old(open), pair, client.live)
      ensures old(Exact(State())) && DistinctTags(client.issued) ==> Exact(State())
    {
      orphans, done := {}, false;
      var fetched := client.FetchOpenOrders(pair);
      if fetched == None {
        return;
      }
      done := true;
      var orders := fetched.value;
      var stale := LocalIds(State(), pair) - Ids(orders);
      hide Untrack, Adopt, OfPair, NotOfPair, Consistent, Exact, ListsPair, UnknownTags;
      ReconcileConverges(State(), client.issued, pair, orders, client.live);
      ReconciledKeeps(State(), client.issued, pair, orders);
      orphans := UnknownTo(LocalIds(State(), pair), orders);
      OrphansOfExchange(State(), pair, orders, client.live, client.issued);
      Forget(stale);
      AdoptAll(orders);
    }

    // Takes over the exchange's copies of its orders.
    method AdoptAll(orders: seq<Order>)
      modifies this`open, this`byTag
      ensures State() == Adopt(old(State()), orders)
    {
      for i := 0 to |orders|
        invariant State() == Adopt(old(State()), orders[..i])
      {
        assert orders[..i + 1][..i] == orders[..i];
        var o := orders[i];
        open := open[o.orderId := o];
        if o.clientOrderId != "" {
          byTag := byTag[o.clientOrderId := o.orderId];
        }
      }
      assert orders[..|orders|] == orders;
    }

    static method UnknownTo(known: set<string>, orders: seq<Order>) returns (tags: set<string>)
      ensures tags == set o | o in orders && o.orderId !in known && o.clientOrderId != "" :: o.clientOrderId
    {
      tags := {};
      for k := 0 to |orders|
        invariant tags == set o | o in orders[..k] && o.orderId !in known && o.clientOrderId != "" :: o.clientOrderId
      {
        var o := orders[k];
        assert orders[..k + 1] == orders[..k] + [o];
        if o.orderId !in known && o.clientOrderId != "" {
          tags := tags + {o.clientOrderId};
        }
      }
      assert orders[..|orders|] == orders;
    }

    /** The end of a run: reconcile, then cancel everything. Trades may happen in between, but
        nothing is placed. When both calls get through, no order of the pair is left open on
        either side, orphans and stale entries included. */
    method Shutdown(pair: string) returns (count: nat, ghost reconciled: bool, ghost asked: bool, ghost done: bool)
      requires Valid()
      modifies this`open, this`byTag, client`live, client`calls
      ensures Valid()
      ensures reconciled && (asked ==> done) ==> OfPair(open, pair) == map[] && OfPair(client.live, pair) == map[]
      ensures NotOfPair(open, pair) == NotOfPair(old(open), pair)
      ensures !done ==> count == 0
      ensures asked <==> OfPair(if reconciled then old(client.live) else old(open), pair) != map[]
      ensures client.calls == old(client.calls) + [FetchCall(pair, reconciled)]
              + if asked then [CancelAllCall(pair, done)] else []
    {
      var orphans;
      orphans, reconciled := Reconcile(pair);
      label between:
      ghost var local, remote := open, client.live;
      client.Trades();
      count, asked, done := CancelAll(pair);
      UntrackOthers(old@between(State()), pair);
      if reconciled && !asked {
        NothingAppears(remote, client.live, pair);
      }
    }
  }

  /** From number n on the ids that the exchange will give out are new, and none comes twice. */
  ghost predicate FreshFrom(ids: nat -> string, n: nat, issued: set<string>) {
    && (forall a, b :: ids(a) == ids(b) ==> a == b)
    && (forall k :: n <= k ==> ids(k) !in issued)
  }

  /** An order as the engine submits it for a request. */
  ghost predicate Answers(o: Order, req: OrderRequest, tick: real)
    requires 0.0 < tick
  {
    o.pair == req.pair && o.side == req.side && o.price == Align(req.price, tick) && o.size == Round6(req.size)
  }

  /** No order is lost or changed, and the new ones answer the requests: at most one each, the k-th under
      number first + k. */
  ghost predicate GrowsBy(before: map<string, Order>, after: map<string, Order>, reqs: seq<OrderRequest>,
                          ids: nat -> string, first: nat, tick: real)
    requires 0.0 < tick
  {
    && (forall id :: id in before ==> id in after && after[id] == before[id])
    && (forall id :: id in after && id !in before ==> exists n :: first <= n < first + |reqs| && ids(n) == id)
    && (forall n :: first <= n < first + |reqs| && ids(n) in after ==> Answers(after[ids(n)], reqs[n - first], tick))
  }

  ghost predicate AddsOne(before: map<string, Order>, after: map<string, Order>, id: string, req: OrderRequest,
                          tick: real)
    requires 0.0 < tick
  {
    id in after && after == before[id := after[id]] && Answers(after[id], req, tick)
  }

  lemma GrowsByOne(before: map<string, Order>, mid: map<string, Order>, after: map<string, Order>,
                   reqs: seq<OrderRequest>, ids: nat -> string, first: nat, k: nat, issued: set<string>, tick: real)
    requires 0.0 < tick && k < |reqs| && GrowsBy(before, mid, reqs[..k], ids, first, tick)
    requires FreshFrom(ids, first + k, issued) && ids(first + k) !in mid
    requires after == mid || AddsOne(mid, after, ids(first + k), reqs[k], tick)
    ensures GrowsBy(before, after, reqs[..k + 1], ids, first, tick)
  {
    hide Answers;
    forall id | id in mid && id !in before
      ensures exists n :: first <= n < first + |reqs[..k + 1]| && ids(n) == id
    {
      var n: nat :| first <= n < first + |reqs[..k]| && ids(n) == id;
      assert n < first + k + 1;
    }
    forall n | first <= n < first + k
      ensures reqs[..k + 1][n - first] == reqs[..k][n - first] && ids(n) != ids(first + k)
    {
    }
  }

  lemma TrackedIsOneMore(before: Tracked, after: Tracked, o: Order, req: OrderRequest, tick: real)
    requires 0.0 < tick && after == Track(before, o) && o.orderId !in before.open && Answers(o, req, tick)
    ensures AddsOne(before.open, after.open, o.orderId, req, tick) && |after.open| == |before.open| + 1
  {
    hide Answers;
  }

  lemma FreshNext(ids: nat -> string, n: nat, issued: set<string>, issued': set<string>)
    requires FreshFrom(ids, n, issued) && issued' <= issued + {ids(n)}
    ensures FreshFrom(ids, n + 1, issued')
  {
  }

  lemma FreshIsUnissued(ids: nat -> string, n: nat, issued: set<string>)
    requires FreshFrom(ids, n, issued)
    ensures ids(n) !in issued
  {
  }

  lemma UnissuedIsUntracked(t: Tracked, issued: map<string, Issue>, id: string)
    requires Consistent(t, issued) && id !in issued
    ensures id !in t.open
  {
  }

  /** A submission for a request. */
  ghost predicate IsSubmission(call: Call, req: OrderRequest, tick: real)
    requires 0.0 < tick
  {
    && call.SubmitCall? && call.req.pair == req.pair && call.req.side == req.side
    && call.req.price == Align(req.price, tick) && call.req.size == Round6(req.size)
    && (req.clientOrderId != "" ==> call.req.clientOrderId == req.clientOrderId)
  }

  /** The calls are the submissions for those requests that pass the checks and have a token, in turn, and `placed`
      of them were accepted. */
  ghost predicate AllSubmitted(calls: seq<Call>, reqs: seq<OrderRequest>, refPrice: real, grants: nat -> bool,
                               first: nat, tick: real, placed: int)
    requires 0.0 < tick
  {
    if reqs == [] then calls == [] && placed == 0
    else
      var n := |reqs| - 1;
      if Acceptable(reqs[n], refPrice) && grants(first + n) then
        && calls != [] && IsSubmission(calls[|calls| - 1], reqs[n], tick)
        && AllSubmitted(calls[..|calls| - 1], reqs[..n], refPrice, grants, first, tick,
                        placed - if calls[|calls| - 1].answer.Accepted? then 1 else 0)
      else AllSubmitted(calls, reqs[..n], refPrice, grants, first, tick, placed)
  }

  /** What becomes of one request: a call if it passes, and `placed` tells whether that was accepted. */
  ghost predicate OneSubmitted(calls: seq<Call>, req: OrderRequest, refPrice: real, granted: bool, tick: real,
                               placed: bool)
    requires 0.0 < tick
  {
    if Acceptable(req, refPrice) && granted
    then |calls| == 1 && IsSubmission(calls[0], req, tick) && placed == calls[0].answer.Accepted?
    else calls == [] && !placed
  }

  lemma SubmittedNext(calls: seq<Call>, more: seq<Call>, reqs: seq<OrderRequest>, req: OrderRequest, refPrice: real,
                      grants: nat -> bool, first: nat, tick: real, placed: int, ok: bool)
    requires 0.0 < tick && AllSubmitted(calls, reqs, refPrice, grants, first, tick, placed)
    requires OneSubmitted(more, req, refPrice, grants(first + |reqs|), tick, ok)
    ensures AllSubmitted(calls + more, reqs + [req], refPrice, grants, first, tick, placed + if ok then 1 else 0)
  {
    hide IsSubmission, Acceptable;
    assert (reqs + [req])[..|reqs|] == reqs;
    if more == [] {
      assert calls + more == calls;
    } else {
      assert (calls + more)[..|calls + more| - 1] == calls;
    }
  }

  // One order of the loop, whatever becomes of it, after some trades.
  method PlaceNext(engine: LiveOrderEngine, req: OrderRequest, refPrice: real, granted: bool, id: string)
    returns (placed: bool)
    requires engine.Valid() && id !in engine.client.issued
    modifies engine, engine.client
    ensures engine.Valid() && engine.client.issued.Keys <= old(engine.client.issued.Keys) + {id}
    ensures id !in old(engine.open)
    ensures placed ==>
      AddsOne(old(engine.open), engine.open, id, req, engine.tick) && |engine.open| == |old(engine.open)| + 1
    ensures !placed ==> engine.open == old(engine.open)
    ensures old(engine.client.calls) <= engine.client.calls
    ensures OneSubmitted(engine.client.calls[|old(engine.client.calls)|..], req, refPrice, granted, engine.tick, placed)
  {
    hide AddsOne, Consistent, Track, Acceptable, Align, Round6, Exact, DistinctTags;
    engine.client.Trades();
    ghost var before := engine.State();
    assert id !in before.open by {
      UnissuedIsUntracked(before, engine.client.issued, id);
    }
    var r := engine.Place(req, refPrice, granted, id);
    placed := r.Placed?;
    if placed {
      TrackedIsOneMore(before, engine.State(), r.order, req, engine.tick);
    }
  }

  /** Where the placing of some requests leads, from the tracked orders and calls before: to these tracked orders,
      issued ids and calls. Every confirmed order is one more, as its request asks, and none leaves. */
  ghost predicate PlacedSoFar(before: map<string, Order>, calls: seq<Call>, open: map<string, Order>,
                              issued: set<string>, sent: seq<Call>, tick: real, reqs: seq<OrderRequest>,
                              refPrice: real, grants: nat -> bool, ids: nat -> string, first: nat, placed: nat)
    requires 0.0 < tick
  {
    && FreshFrom(ids, first + |reqs|, issued)
    && placed <= |reqs| && |open| == |before| + placed && GrowsBy(before, open, reqs, ids, first, tick)
    && calls <= sent && AllSubmitted(sent[|calls|..], reqs, refPrice, grants, first, tick, placed)
  }

  ghost predicate HasPlaced(engine: LiveOrderEngine, before: map<string, Order>, calls: seq<Call>,
                            reqs: seq<OrderRequest>, refPrice: real, grants: nat -> bool, ids: nat -> string,
                            first: nat, placed: nat)
    reads engine, engine.client
  {
    engine.Valid()
    && PlacedSoFar(before, calls, engine.open, engine.client.issued.Keys, engine.client.calls, engine.tick, reqs,
                   refPrice, grants, ids, first, placed)
  }

  lemma PlacedNext(before: map<string, Order>, calls: seq<Call>, open: map<string, Order>, issued: set<string>,
                   sent: seq<Call>, tick: real, reqs: seq<OrderRequest>, refPrice: real, grants: nat -> bool,
                   ids: nat -> string, first: nat, placed: nat, req: OrderRequest, open': map<string, Order>,
                   issued': set<string>, sent': seq<Call>, ok: bool)
    requires 0.0 < tick
    requires PlacedSoFar(before, calls, open, issued, sent, tick, reqs, refPrice, grants, ids, first, placed)
    requires var id := ids(first + |reqs|);
      && issued' <= issued + {id} && id !in open
      && (if ok then AddsOne(open, open', id, req, tick) && |open'| == |open| + 1 else open' == open)
    requires sent <= sent' && OneSubmitted(sent'[|sent|..], req, refPrice, grants(first + |reqs|), tick, ok)
    ensures PlacedSoFar(before, calls, open', issued', sent', tick, reqs + [req], refPrice, grants, ids, first,
                        if ok then placed + 1 else placed)
  {
    hide GrowsBy, FreshFrom, AddsOne, AllSubmitted, OneSubmitted;
    var k := |reqs|;
    FreshNext(ids, first + k, issued, issued');
    assert (reqs + [req])[..k] == reqs && (reqs + [req])[..k + 1] == reqs + [req];
    GrowsByOne(before, open, open', reqs + [req], ids, first, k, issued, tick);
    SubmittedNext(sent[|calls|..], sent'[|sent|..], reqs, req, refPrice, grants, first, tick, placed, ok);
    assert sent'[|calls|..] == sent[|calls|..] + sent'[|sent|..];
  }

  lemma NextIsUnissued(before: map<string, Order>, calls: seq<Call>, open: map<string, Order>, issued: set<string>,
                       sent: seq<Call>, tick: real, reqs: seq<OrderRequest>, refPrice: real, grants: nat -> bool,
                       ids: nat -> string, first: nat, placed: nat)
    requires 0.0 < tick
    requires PlacedSoFar(before, calls, open, issued, sent, tick, reqs, refPrice, grants, ids, first, placed)
    ensures ids(first + |reqs|) !in issued
  {
    FreshIsUnissued(ids, first + |reqs|, issued);
    hide FreshFrom, AllSubmitted, GrowsBy;
  }

  method PlaceMore(engine: LiveOrderEngine, req: OrderRequest, refPrice: real, grants: nat -> bool, ids: nat -> string,
                   first: nat, placed: nat, k: nat, ghost before: map<string, Order>, ghost calls: seq<Call>,
                   ghost reqs: seq<OrderRequest>)
    returns (placed': nat)
    requires k == |reqs| && HasPlaced(engine, before, calls, reqs, refPrice, grants, ids, first, placed)
    modifies engine, engine.client
    ensures HasPlaced(engine, before, calls, reqs + [req], refPrice, grants, ids, first, placed')
  {
    hide PlacedSoFar, AddsOne, OneSubmitted;
    ghost var open, issued, sent := engine.open, engine.client.issued.Keys, engine.client.calls;
    NextIsUnissued(before, calls, open, issued, sent, engine.tick, reqs, refPrice, grants, ids, first, placed);
    var ok := PlaceNext(engine, req, refPrice, grants(first + k), ids(first + k));
    PlacedNext(before, calls, open, issued, sent, engine.tick, reqs, refPrice, grants, ids, first, placed, req,
               engine.open, engine.client.issued.Keys, engine.client.calls, ok);
    placed' := if ok then placed + 1 else placed;
  }

  /** The loop's placing: one order after another, whatever becomes of it, while the exchange trades as it likes. */
  method PlaceAll(engine: LiveOrderEngine, reqs: seq<OrderRequest>, refPrice: real, grants: nat -> bool,
                  ids: nat -> string, first: nat) returns (placed: nat)
    requires engine.Valid() && FreshFrom(ids, first, engine.client.issued.Keys)
    modifies engine, engine.client
    ensures HasPlaced(engine, old(engine.open), old(engine.client.calls), reqs, refPrice, grants, ids, first, placed)
  {
    hide *;
    placed := 0;
    ghost var before, calls := engine.open, engine.client.calls;
    NothingPlaced(engine, refPrice, grants, ids, first);
    assert reqs[..0] == [];
    for k := 0 to |reqs|
      invariant HasPlaced(engine, before, calls, reqs[..k], refPrice, grants, ids, first, placed)
    {
      assert reqs[..k + 1] == reqs[..k] + [reqs[k]];
      placed := PlaceMore(engine, reqs[k], refPrice, grants, ids, first, placed, k, before, calls, reqs[..k]);
    }
    assert reqs[..|reqs|] == reqs;
  }

  lemma NothingPlaced(engine: LiveOrderEngine, refPrice: real, grants: nat -> bool, ids: nat -> string, first: nat)
    requires engine.Valid() && FreshFrom(ids, first, engine.client.issued.Keys)
    ensures HasPlaced(engine, engine.open, engine.client.calls, [], refPrice, grants, ids, first, 0)
  {
    assert engine.client.calls[|engine.client.calls|..] == [];
  }

  /** A restarted engine tracks nothing, so its `cancel_all` leaves every order on the exchange. */
  method RestartedCancelAll(exchange: Exchange, tickSize: real, pair: string) returns (engine: LiveOrderEngine)
    requires exchange.Valid() && 0.0 < tickSize
    modifies exchange`live, exchange`calls
    ensures exchange.live == old(exchange.live) && exchange.calls == old(exchange.calls)
    ensures engine.Valid() && engine.client == exchange && engine.open == map[]
  {
    engine := new LiveOrderEngine(exchange, tickSize);
    ghost var asked, done;
    var count;
    count, asked, done := engine.CancelAll(pair);
  }

  /** Accepted requests that reach the exchange at price zero, at size zero, larger than asked for, or outside
      the band. */
  lemma AcceptedButChanged()
    ensures Acceptable(OrderRequest("BTC_USDT", Buy, 0.004, 1.0, ""), 0.0) && Align(0.004, 0.01) == 0.0
    ensures Acceptable(OrderRequest("BTC_USDT", Buy, 1.0, 0.0000004, ""), 0.0) && Round6(0.0000004) == 0.0
    ensures Acceptable(OrderRequest("BTC_USDT", Buy, 1.0, 0.0000006, ""), 0.0) && Round6(0.0000006) > 0.0000006
    ensures Acceptable(OrderRequest("BTC_USDT", Buy, 0.156, 1.0, ""), 0.13) && !InBand(Align(0.156, 0.01), 0.13)
  {
    assert 0.004 / 0.01 == 0.4 && RoundHalfEven(0.4) == 0;
    assert 0.156 / 0.01 == 15.6 && RoundHalfEven(15.6) == 16;
  }

  lemma UntrackMore(t: Tracked, ids: set<string>, id: string)
    ensures Untrack(t, ids + {id}) == Tracked(Untrack(t, ids).open - {id},
      if id in t.open && t.open[id].clientOrderId != ""
      then Untrack(t, ids).byTag - {t.open[id].clientOrderId} else Untrack(t, ids).byTag)
  {
    assert TagsOf(t, ids + {id}) == TagsOf(t, ids)
      + if id in t.open && t.open[id].clientOrderId != "" then {t.open[id].clientOrderId} else {};
  }

  lemma UntrackOne(t: Tracked, id: string)
    requires id in t.open
    ensures TagsOf(t, {id}) == if t.open[id].clientOrderId != "" then {t.open[id].clientOrderId} else {}
  {
  }

  lemma UntrackOthers(t: Tracked, pair: string)
    ensures NotOfPair(Untrack(t, LocalIds(t, pair)).open, pair) == NotOfPair(t.open, pair)
  {
  }

  lemma NothingAppears(before: map<string, Order>, after: map<string, Order>, pair: string)
    requires OfPair(before, pair) == map[] && after.Keys <= before.Keys
    requires forall id :: id in after ==> after[id].pair == before[id].pair
    ensures OfPair(after, pair) == map[]
  {
    forall id | id in after
      ensures after[id].pair != pair
    {
      assert id !in OfPair(before, pair);
    }
  }

  lemma OrphansOfExchange(t: Tracked, pair: string, orders: seq<Order>, live: map<string, Order>,
                          issued: map<string, Issue>)
    requires ListsPair(orders, pair, live) && KeyedAsIssued(live, issued)
    ensures OrphanTags(t, pair, orders) == UnknownTags(t.open, pair, live)
  {
    forall o | o in orders
      ensures o.orderId in live && live[o.orderId] == o
    {
    }
    forall id | id in live && live[id].pair == pair
      ensures live[id] in orders && live[id].orderId == id
    {
    }
  }
}

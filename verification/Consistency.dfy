/** The index and the two sides describe the same orders; every step of the engine keeps it so. */
module Consistency {
  import opened Domain
  import opened Ladder
  import opened Matching

  type Index = map<OrderId, Location>

  /** Every order of a list belongs there, is indexed there, and carries an id of its own. */
  ghost predicate ListOk(index: Index, s: Side, p: Price, orders: seq<OrderRecord>) {
    && (forall i | 0 <= i < |orders| :: Homed(index, s, p, orders[i]))
    && Distinct(orders)
  }

  predicate Homed(index: Index, s: Side, p: Price, o: OrderRecord) {
    o.side == s && o.price == p && o.id in index && index[o.id] == Location(s, p)
  }

  ghost predicate ListsOk(b: Book) {
    forall s: Side, p: Price {:trigger ListOk(b.index, s, p, At(b, s, p))} :: ListOk(b.index, s, p, At(b, s, p))
  }

  ghost predicate IndexOk(b: Book) {
    forall id | id in b.index :: HasId(At(b, b.index[id].side, b.index[id].price), id)
  }

  /** Both sides are in price order, and an id is indexed exactly when one order carries it, at its location. */
  ghost predicate Consistent(b: Book) {
    Sorted(Buy, b.bids) && Sorted(Sell, b.asks) && ListsOk(b) && IndexOk(b)
  }

  // ---- lists ----

  lemma ListKept(index: Index, index': Index, s: Side, p: Price, orders: seq<OrderRecord>)
    requires ListOk(index, s, p, orders)
    requires forall i | 0 <= i < |orders| :: orders[i].id in index' && index'[orders[i].id] == index[orders[i].id]
    ensures ListOk(index', s, p, orders)
  {
    assert forall i | 0 <= i < |orders| :: Homed(index, s, p, orders[i]);
  }

  lemma ListCut(index: Index, s: Side, p: Price, orders: seq<OrderRecord>, k: nat)
    requires ListOk(index, s, p, orders) && k < |orders|
    ensures ListOk(index - {orders[k].id}, s, p, orders[..k] + orders[k + 1..])
  {
    var cut := orders[..k] + orders[k + 1..];
    forall i | 0 <= i < |cut| ensures Homed(index - {orders[k].id}, s, p, cut[i]) {
      var j := if i < k then i else i + 1;
      assert cut[i] == orders[j] && Homed(index, s, p, orders[j]);
    }
  }

  lemma {:induction false} LookupHas(orders: seq<OrderRecord>, id: OrderId) returns (k: nat)
    requires HasId(orders, id)
    ensures k < |orders| && orders[k].id == id && Lookup(orders, id) == Some(orders[k])
  {
    if orders[0].id == id {
      k := 0;
    } else {
      var i :| 0 <= i < |orders| && orders[i].id == id;
      assert orders[1..][i - 1].id == id;
      var j := LookupHas(orders[1..], id);
      k := j + 1;
    }
  }

  /** In a consistent book every indexed id resolves to the order resting under it. */
  lemma RestingFound(b: Book, id: OrderId) returns (k: nat)
    requires Consistent(b) && id in b.index
    ensures Resting(b, id).Some?
    ensures var o := Resting(b, id).value; o.id == id && Location(o.side, o.price) == b.index[id]
    ensures var o := Resting(b, id).value; k < |At(b, o.side, o.price)| && At(b, o.side, o.price)[k] == o
  {
    var loc := b.index[id];
    assert ListOk(b.index, loc.side, loc.price, At(b, loc.side, loc.price));
    k := LookupHas(At(b, loc.side, loc.price), id);
    assert Homed(b.index, loc.side, loc.price, At(b, loc.side, loc.price)[k]);
  }

  // ---- an order is put on the book ----

  lemma RestAt(b: Book, o: OrderRecord, s: Side, p: Price)
    requires Consistent(b)
    ensures At(Rest(b, o), s, p) == if s == o.side && p == o.price then At(b, s, p) + [o] else At(b, s, p)
  {
    InsertLookup(o.side, Levels(b, o.side), o, p);
  }

  lemma ListGrown(index: Index, s: Side, p: Price, orders: seq<OrderRecord>, o: OrderRecord)
    requires ListOk(index, s, p, orders) && o.id !in index
    ensures ListOk(index[o.id := Location(o.side, o.price)], s, p, orders)
    ensures s == o.side && p == o.price ==> ListOk(index[o.id := Location(o.side, o.price)], s, p, orders + [o])
  {
    assert forall i | 0 <= i < |orders| :: Homed(index, s, p, orders[i]);
    ListKept(index, index[o.id := Location(o.side, o.price)], s, p, orders);
  }

  lemma RestListOk(b: Book, o: OrderRecord, s: Side, p: Price)
    requires Consistent(b) && o.id !in b.index
    ensures ListOk(Rest(b, o).index, s, p, At(Rest(b, o), s, p))
  {
    assert ListOk(b.index, s, p, At(b, s, p));
    ListGrown(b.index, s, p, At(b, s, p), o);
    RestAt(b, o, s, p);
  }

  lemma RestIndexOk(b: Book, o: OrderRecord, id: OrderId)
    requires Consistent(b) && o.id !in b.index && id in Rest(b, o).index
    ensures var loc := Rest(b, o).index[id]; HasId(At(Rest(b, o), loc.side, loc.price), id)
  {
    var loc := Rest(b, o).index[id];
    RestAt(b, o, loc.side, loc.price);
    if id == o.id {
      assert At(Rest(b, o), o.side, o.price)[|At(b, o.side, o.price)|].id == id;
    } else {
      var k := RestingFound(b, id);
      assert At(Rest(b, o), loc.side, loc.price)[k].id == id;
    }
  }

  lemma RestConsistent(b: Book, o: OrderRecord)
    requires Consistent(b) && o.id !in b.index
    ensures Consistent(Rest(b, o))
  {
    InsertSorted(o.side, Levels(b, o.side), o);
    forall s: Side, p: Price ensures ListOk(Rest(b, o).index, s, p, At(Rest(b, o), s, p)) {
      RestListOk(b, o, s, p);
    }
    forall id | id in Rest(b, o).index
      ensures HasId(At(Rest(b, o), Rest(b, o).index[id].side, Rest(b, o).index[id].price), id)
    {
      RestIndexOk(b, o, id);
    }
  }

  // ---- an order is taken off the book ----

  /** `r` is `b` without the one order at position `k` of a list. */
  ghost predicate CutFrom(b: Book, r: Book, s: Side, p: Price, k: nat) {
    && k < |At(b, s, p)|
    && r.index == b.index - {At(b, s, p)[k].id}
    && At(r, s, p) == At(b, s, p)[..k] + At(b, s, p)[k + 1..]
    && (forall s', p' | s' != s || p' != p :: At(r, s', p') == At(b, s', p'))
  }

  lemma CutListOk(b: Book, r: Book, s: Side, p: Price, k: nat, s': Side, p': Price)
    requires Consistent(b) && CutFrom(b, r, s, p, k)
    ensures ListOk(r.index, s', p', At(r, s', p'))
  {
    assert ListOk(b.index, s, p, At(b, s, p));
    assert Homed(b.index, s, p, At(b, s, p)[k]);
    assert ListOk(b.index, s', p', At(b, s', p'));
    if s' == s && p' == p {
      ListCut(b.index, s, p, At(b, s, p), k);
    } else {
      var orders := At(b, s', p');
      assert forall i | 0 <= i < |orders| :: Homed(b.index, s', p', orders[i]);
      ListKept(b.index, r.index, s', p', orders);
    }
  }

  lemma CutIndexOk(b: Book, r: Book, s: Side, p: Price, k: nat, id: OrderId)
    requires Consistent(b) && CutFrom(b, r, s, p, k) && id in r.index
    ensures HasId(At(r, r.index[id].side, r.index[id].price), id)
  {
    var loc := r.index[id];
    var j := RestingFound(b, id);
    if loc == Location(s, p) {
      assert j != k;
      assert At(r, s, p)[if j < k then j else j - 1].id == id;
    } else {
      assert At(r, loc.side, loc.price)[j].id == id;
    }
  }

  lemma CutConsistent(b: Book, r: Book, s: Side, p: Price, k: nat)
    requires Consistent(b) && CutFrom(b, r, s, p, k) && Sorted(Buy, r.bids) && Sorted(Sell, r.asks)
    ensures Consistent(r)
  {
    forall s': Side, p': Price ensures ListOk(r.index, s', p', At(r, s', p')) {
      CutListOk(b, r, s, p, k, s', p');
    }
    forall id | id in r.index ensures HasId(At(r, r.index[id].side, r.index[id].price), id) {
      CutIndexOk(b, r, s, p, k, id);
    }
  }

  lemma CancelAt(b: Book, id: OrderId, s: Side, p: Price)
    requires Consistent(b) && id in b.index
    ensures At(Cancel(b, id), s, p) ==
            if Location(s, p) == b.index[id] then Without(At(b, s, p), id) else At(b, s, p)
  {
    var k := RestingFound(b, id);
    var o := Resting(b, id).value;
    RemoveLookup(o.side, Levels(b, o.side), o.price, id, p);
  }

  lemma CancelCuts(b: Book, id: OrderId) returns (k: nat)
    requires Consistent(b) && id in b.index
    ensures Resting(b, id).Some?
    ensures var o := Resting(b, id).value;
            o.id == id && CutFrom(b, Cancel(b, id), o.side, o.price, k) && At(b, o.side, o.price)[k] == o
  {
    k := RestingFound(b, id);
    var o := Resting(b, id).value;
    assert ListOk(b.index, o.side, o.price, At(b, o.side, o.price));
    WithoutCut(At(b, o.side, o.price), k);
    forall s, p ensures At(Cancel(b, id), s, p) ==
                        if Location(s, p) == b.index[id] then Without(At(b, s, p), id) else At(b, s, p)
    {
      CancelAt(b, id, s, p);
    }
  }

  lemma CancelConsistent(b: Book, id: OrderId)
    requires Consistent(b)
    ensures Consistent(Cancel(b, id))
    ensures Cancel(b, id).index == b.index - {id}
  {
    if id !in b.index {
      assert b.index - {id} == b.index;
    } else {
      var k := CancelCuts(b, id);
      var o := Resting(b, id).value;
      RemoveSorted(o.side, Levels(b, o.side), o.price, id);
      CutConsistent(b, Cancel(b, id), o.side, o.price, k);
    }
  }

  // ---- a front order is filled ----

  lemma FillFrontAt(b: Book, side: Side, quantity: nat, s: Side, p: Price)
    requires Levels(b, side) != [] && Levels(b, side)[0].orders != []
    requires quantity <= Levels(b, side)[0].orders[0].remaining
    ensures var o := Filled(Levels(b, side)[0].orders[0], quantity);
            At(FillFront(b, side, quantity), s, p) ==
            if s == side && p == Levels(b, side)[0].price
            then (if o.remaining == 0 then [] else [o]) + At(b, s, p)[1..] else At(b, s, p)
  {
    assert FrontAfterFill(Levels(b, side), Filled(Levels(b, side)[0].orders[0], quantity))[1..] == Levels(b, side)[1..];
  }

  lemma FrontHomed(b: Book, side: Side)
    requires Consistent(b) && Levels(b, side) != [] && Levels(b, side)[0].orders != []
    ensures Homed(b.index, side, Levels(b, side)[0].price, Levels(b, side)[0].orders[0])
    ensures At(b, side, Levels(b, side)[0].price) == Levels(b, side)[0].orders
  {
    assert ListOk(b.index, side, Levels(b, side)[0].price, At(b, side, Levels(b, side)[0].price));
  }

  lemma FillFrontSorted(b: Book, side: Side, quantity: nat)
    requires Levels(b, side) != [] && Levels(b, side)[0].orders != [] && Sorted(side, Levels(b, side))
    requires quantity <= Levels(b, side)[0].orders[0].remaining
    ensures Sorted(side, Levels(FillFront(b, side, quantity), side))
  {
    var ls, ls' := Levels(b, side), Levels(FillFront(b, side, quantity), side);
    assert forall i | 0 <= i < |ls| :: ls'[i].price == ls[i].price;
  }

  /** Two lists of the same orders, up to what remains of them. */
  predicate SameOrders(a: seq<OrderRecord>, b: seq<OrderRecord>) {
    |a| == |b| && forall i | 0 <= i < |a| :: a[i].(remaining := 0) == b[i].(remaining := 0)
  }

  lemma SameListOk(index: Index, s: Side, p: Price, a: seq<OrderRecord>, b: seq<OrderRecord>)
    requires ListOk(index, s, p, a) && SameOrders(a, b)
    ensures ListOk(index, s, p, b)
  {
    forall i | 0 <= i < |b| ensures Homed(index, s, p, b[i]) && b[i].id == a[i].id {
      assert Homed(index, s, p, a[i]);
      assert a[i].(remaining := 0) == b[i].(remaining := 0);
      assert a[i].(remaining := 0).id == a[i].id;
      assert b[i].(remaining := 0).id == b[i].id;
    }
  }

  lemma SameHasId(a: seq<OrderRecord>, b: seq<OrderRecord>, id: OrderId)
    requires HasId(a, id) && SameOrders(a, b)
    ensures HasId(b, id)
  {
    var i :| 0 <= i < |a| && a[i].id == id;
    assert a[i].(remaining := 0).id == id;
    assert b[i].(remaining := 0).id == b[i].id;
  }

  lemma SameButQuantities(b: Book, r: Book)
    requires Consistent(b) && r.index == b.index && Sorted(Buy, r.bids) && Sorted(Sell, r.asks)
    requires forall s, p :: SameOrders(At(b, s, p), At(r, s, p))
    ensures Consistent(r)
  {
    forall s: Side, p: Price ensures ListOk(r.index, s, p, At(r, s, p)) {
      assert ListOk(b.index, s, p, At(b, s, p));
      SameListOk(b.index, s, p, At(b, s, p), At(r, s, p));
    }
    forall id | id in r.index ensures HasId(At(r, r.index[id].side, r.index[id].price), id) {
      SameHasId(At(b, r.index[id].side, r.index[id].price), At(r, r.index[id].side, r.index[id].price), id);
    }
  }

  /** Filling part of an order replaces it in its list by the same order with less left. */
  lemma PartialFillConsistent(b: Book, side: Side, quantity: nat)
    requires Consistent(b) && Levels(b, side) != [] && Levels(b, side)[0].orders != []
    requires quantity < Levels(b, side)[0].orders[0].remaining
    ensures Consistent(FillFront(b, side, quantity))
  {
    FillFrontSorted(b, side, quantity);
    forall s: Side, p: Price ensures SameOrders(At(b, s, p), At(FillFront(b, side, quantity), s, p)) {
      FillFrontAt(b, side, quantity, s, p);
    }
    SameButQuantities(b, FillFront(b, side, quantity));
  }

  lemma FillFrontConsistent(b: Book, side: Side, quantity: nat)
    requires Consistent(b) && Levels(b, side) != [] && Levels(b, side)[0].orders != []
    requires quantity <= Levels(b, side)[0].orders[0].remaining
    ensures Consistent(FillFront(b, side, quantity))
  {
    var front := Levels(b, side)[0].orders[0];
    if quantity < front.remaining {
      PartialFillConsistent(b, side, quantity);
    } else {
      FullFillCuts(b, side);
      FillFrontSorted(b, side, quantity);
      CutConsistent(b, FillFront(b, side, quantity), side, Levels(b, side)[0].price, 0);
    }
  }

  lemma FullFillCuts(b: Book, side: Side)
    requires Consistent(b) && Levels(b, side) != [] && Levels(b, side)[0].orders != []
    ensures CutFrom(b, FillFront(b, side, Levels(b, side)[0].orders[0].remaining), side, Levels(b, side)[0].price, 0)
  {
    var quantity := Levels(b, side)[0].orders[0].remaining;
    FrontHomed(b, side);
    forall s, p ensures At(FillFront(b, side, quantity), s, p) ==
                        if s == side && p == Levels(b, side)[0].price then At(b, s, p)[1..] else At(b, s, p)
    {
      FillFrontAt(b, side, quantity, s, p);
    }
    assert At(b, side, Levels(b, side)[0].price)[..0] == [];
  }

  // ---- an empty level is dropped ----

  lemma EraseAt(b: Book, side: Side, s: Side, p: Price)
    requires Consistent(b)
    ensures At(EraseIfEmpty(b, side), s, p) == At(b, s, p)
  {
    var ls := Levels(b, side);
    if ls != [] && ls[0].orders == [] && s == side && p == ls[0].price {
      if |ls| > 1 {
        assert Better(side, ls[0].price, ls[1].price);
      }
      OrdersAtBeyond(side, ls[1..], p);
    }
  }

  lemma EraseConsistent(b: Book, side: Side)
    requires Consistent(b)
    ensures Consistent(EraseIfEmpty(b, side))
  {
    var r := EraseIfEmpty(b, side);
    forall s: Side, p: Price ensures At(r, s, p) == At(b, s, p) {
      EraseAt(b, side, s, p);
    }
    SameButQuantities(b, r);
  }

  lemma KillConsistent(b: Book, side: Side)
    requires Consistent(b)
    ensures Consistent(KillFront(b, side).0)
  {
    var ls := Levels(b, side);
    if ls != [] && ls[0].orders != [] {
      CancelConsistent(b, ls[0].orders[0].id);
    }
  }

  // ---- whole rounds and whole matches ----

  lemma MatchFrontsConsistent(b: Book)
    requires Consistent(b) && BothFronts(b)
    ensures Consistent(MatchFronts(b).0)
  {
    var quantity := Min(b.bids[0].orders[0].remaining, b.asks[0].orders[0].remaining);
    FillFrontConsistent(b, Buy, quantity);
    FillFrontConsistent(FillFront(b, Buy, quantity), Sell, quantity);
  }

  lemma {:induction false} MatchLevelConsistent(b: Book)
    requires Consistent(b)
    ensures Consistent(MatchLevel(b).0)
    decreases FrontSize(b)
  {
    if BothFronts(b) {
      MatchFrontsConsistent(b);
      MatchLevelConsistent(MatchFronts(b).0);
    }
  }

  lemma RoundConsistent(b: Book)
    requires Consistent(b)
    ensures Consistent(MatchRound(b).0)
  {
    MatchLevelConsistent(b);
    var b1 := MatchLevel(b).0;
    EraseConsistent(b1, Buy);
    EraseConsistent(EraseIfEmpty(b1, Buy), Sell);
    var b2 := EraseIfEmpty(EraseIfEmpty(b1, Buy), Sell);
    KillConsistent(b2, Buy);
    KillConsistent(KillFront(b2, Buy).0, Sell);
  }

  /** However the book got crossed, matching keeps index and sides in step and ends uncrossed. */
  lemma {:induction false} MatchOrdersConsistent(b: Book)
    requires Consistent(b) && Proper(b)
    ensures var r := MatchOrders(b).book; Consistent(r) && Proper(r) && !Crossed(r)
    decreases Orders(b)
  {
    if Crossed(b) {
      RoundShrinks(b);
      RoundConsistent(b);
      MatchOrdersConsistent(MatchRound(b).0);
    }
  }

  // ---- the index counts the resting orders ----

  function Ids(orders: seq<OrderRecord>): set<OrderId> {
    set i | 0 <= i < |orders| :: orders[i].id
  }

  lemma IdsConcat(a: seq<OrderRecord>, b: seq<OrderRecord>)
    ensures Ids(a + b) == Ids(a) + Ids(b)
  {
    forall id | id in Ids(b) ensures id in Ids(a + b) {
      var i :| 0 <= i < |b| && b[i].id == id;
      assert (a + b)[|a| + i].id == id;
    }
    forall id | id in Ids(a) ensures id in Ids(a + b) {
      var i :| 0 <= i < |a| && a[i].id == id;
      assert (a + b)[i].id == id;
    }
  }

  lemma IdsSnoc(orders: seq<OrderRecord>, o: OrderRecord)
    ensures Ids(orders + [o]) == Ids(orders) + {o.id}
  {
    IdsConcat(orders, [o]);
    assert [o][0].id in Ids([o]);
  }

  lemma {:induction false} DistinctIds(orders: seq<OrderRecord>)
    requires Distinct(orders)
    ensures |Ids(orders)| == |orders|
  {
    if orders != [] {
      var front, last := orders[..|orders| - 1], orders[|orders| - 1];
      DistinctIds(front);
      IdsSnoc(front, last);
      assert front + [last] == orders;
      assert last.id !in Ids(front);
    }
  }

  /** On one side no id occurs twice, and each is indexed there at a price no better than the best. */
  lemma {:induction false} SideIds(index: Index, side: Side, ls: seq<Level>)
    requires Sorted(side, ls) && forall i | 0 <= i < |ls| :: ListOk(index, side, ls[i].price, ls[i].orders)
    ensures |Ids(Flatten(ls))| == |Flatten(ls)|
    ensures forall id | id in Ids(Flatten(ls)) ::
              id in index && index[id].side == side && ls != [] && !Better(side, index[id].price, ls[0].price)
  {
    if ls != [] {
      assert ListOk(index, side, ls[0].price, ls[0].orders);
      SortedTail(side, ls);
      assert forall i | 0 <= i < |ls[1..]| :: ls[1..][i] == ls[i + 1];
      SideIds(index, side, ls[1..]);
      DistinctIds(ls[0].orders);
      IdsConcat(ls[0].orders, Flatten(ls[1..]));
      forall id | id in Ids(ls[0].orders) ensures id in index && index[id] == Location(side, ls[0].price) {
        var i :| 0 <= i < |ls[0].orders| && ls[0].orders[i].id == id;
        assert Homed(index, side, ls[0].price, ls[0].orders[i]);
      }
      assert Ids(ls[0].orders) !! Ids(Flatten(ls[1..]));
    }
  }

  lemma {:induction false} ListedIds(ls: seq<Level>, p: Price, id: OrderId)
    requires HasId(OrdersAt(ls, p), id)
    ensures id in Ids(Flatten(ls))
  {
    IdsConcat(ls[0].orders, Flatten(ls[1..]));
    if ls[0].price != p {
      ListedIds(ls[1..], p, id);
    }
  }

  lemma LevelsOk(b: Book, side: Side)
    requires Consistent(b)
    ensures forall i | 0 <= i < |Levels(b, side)| ::
              ListOk(b.index, side, Levels(b, side)[i].price, Levels(b, side)[i].orders)
  {
    var ls := Levels(b, side);
    forall i | 0 <= i < |ls| ensures ListOk(b.index, side, ls[i].price, ls[i].orders) {
      OrdersAtLevel(side, ls, i);
      assert ListOk(b.index, side, ls[i].price, At(b, side, ls[i].price));
    }
  }

  function SideIdsOf(b: Book, side: Side): set<OrderId> {
    Ids(Flatten(Levels(b, side)))
  }

  lemma SideCounts(b: Book, side: Side)
    requires Consistent(b)
    ensures |SideIdsOf(b, side)| == |Flatten(Levels(b, side))|
    ensures forall id :: id in SideIdsOf(b, side) <==> id in b.index && b.index[id].side == side
  {
    LevelsOk(b, side);
    SideIds(b.index, side, Levels(b, side));
    forall id | id in b.index && b.index[id].side == side ensures id in SideIdsOf(b, side) {
      ListedIds(Levels(b, side), b.index[id].price, id);
    }
  }

  /** The index has exactly one entry for every resting order. */
  lemma IndexCounts(b: Book)
    requires Consistent(b)
    ensures |b.index| == Orders(b)
  {
    SideCounts(b, Buy);
    SideCounts(b, Sell);
    assert b.index.Keys == SideIdsOf(b, Buy) + SideIdsOf(b, Sell);
  }
}

/** One side of the book: price levels in the order of the side's sorted map, each a first-in first-out list. */
module Ladder {
  import opened Domain

  datatype Level = Level(price: Price, orders: seq<OrderRecord>)

  predicate Sorted(side: Side, ls: seq<Level>) {
    forall i, j | 0 <= i < j < |ls| :: Better(side, ls[i].price, ls[j].price)
  }

  predicate NoEmptyLevel(ls: seq<Level>) {
    forall i | 0 <= i < |ls| :: ls[i].orders != []
  }

  /** The list stored under key `p`, empty when the key is absent. */
  function OrdersAt(ls: seq<Level>, p: Price): seq<OrderRecord> {
    if ls == [] then []
    else if ls[0].price == p then ls[0].orders
    else OrdersAt(ls[1..], p)
  }

  /** All orders of the side, best price first and first come first within a price. */
  function Flatten(ls: seq<Level>): seq<OrderRecord> {
    if ls == [] then [] else ls[0].orders + Flatten(ls[1..])
  }

  /** Sum of remaining quantities. */
  function Sum(orders: seq<OrderRecord>): nat {
    if orders == [] then 0 else orders[0].remaining + Sum(orders[1..])
  }

  predicate HasId(orders: seq<OrderRecord>, id: OrderId) {
    exists i :: 0 <= i < |orders| && orders[i].id == id
  }

  predicate Distinct(orders: seq<OrderRecord>) {
    forall i, j | 0 <= i < j < |orders| :: orders[i].id != orders[j].id
  }

  /** The list with every order called `id` taken out, the others in their old order. */
  function Without(orders: seq<OrderRecord>, id: OrderId): seq<OrderRecord> {
    if orders == [] then []
    else if orders[0].id == id then Without(orders[1..], id)
    else [orders[0]] + Without(orders[1..], id)
  }

  /** push_back onto the list at the order's own price, creating the level when the key is new. */
  function Insert(side: Side, ls: seq<Level>, o: OrderRecord): seq<Level> {
    if ls == [] || Better(side, o.price, ls[0].price) then [Level(o.price, [o])] + ls
    else if ls[0].price == o.price then [Level(o.price, ls[0].orders + [o])] + ls[1..]
    else [ls[0]] + Insert(side, ls[1..], o)
  }

  /** Erase the order called `id` from the list at `p`, and the level with it when the list is now empty. */
  function Remove(ls: seq<Level>, p: Price, id: OrderId): seq<Level> {
    if ls == [] then []
    else if ls[0].price == p then
      var rest := Without(ls[0].orders, id);
      if rest == [] then ls[1..] else [Level(p, rest)] + ls[1..]
    else [ls[0]] + Remove(ls[1..], p, id)
  }

  // ---- what a lookup sees ----

  lemma {:induction false} OrdersAtLevel(side: Side, ls: seq<Level>, i: nat)
    requires Sorted(side, ls) && i < |ls|
    ensures OrdersAt(ls, ls[i].price) == ls[i].orders
  {
    if i > 0 {
      assert Better(side, ls[0].price, ls[i].price);
      assert ls[1..][i - 1] == ls[i];
      OrdersAtLevel(side, ls[1..], i - 1);
    }
  }

  lemma {:induction false} OrdersAtAbsent(ls: seq<Level>, p: Price)
    requires forall i | 0 <= i < |ls| :: ls[i].price != p
    ensures OrdersAt(ls, p) == []
  {
    if ls != [] {
      OrdersAtAbsent(ls[1..], p);
    }
  }

  lemma {:induction false} OrdersAtFound(ls: seq<Level>, p: Price) returns (i: nat)
    requires OrdersAt(ls, p) != []
    ensures i < |ls| && ls[i].price == p && OrdersAt(ls, p) == ls[i].orders
  {
    if ls[0].price == p {
      i := 0;
    } else {
      var k := OrdersAtFound(ls[1..], p);
      i := k + 1;
    }
  }

  /** A sorted side with one worse level in front removed or kept sees nothing at the better prices. */
  lemma OrdersAtBeyond(side: Side, ls: seq<Level>, p: Price)
    requires Sorted(side, ls)
    requires ls == [] || Better(side, p, ls[0].price)
    ensures OrdersAt(ls, p) == []
  {
    forall i | 0 <= i < |ls| ensures ls[i].price != p {
      if i > 0 {
        assert Better(side, ls[0].price, ls[i].price);
      }
    }
    OrdersAtAbsent(ls, p);
  }

  // ---- insertion ----

  /** The head of a side after an insertion is the old head's price or the new order's. */
  lemma InsertHead(side: Side, ls: seq<Level>, o: OrderRecord)
    ensures Insert(side, ls, o) != []
    ensures Insert(side, ls, o)[0].price == o.price || (ls != [] && Insert(side, ls, o)[0].price == ls[0].price)
  {
  }

  /** Every level of `ls` is strictly worse than `p`. */
  predicate Below(side: Side, p: Price, ls: seq<Level>) {
    forall i | 0 <= i < |ls| :: Better(side, p, ls[i].price)
  }

  lemma SortedCons(side: Side, l: Level, ls: seq<Level>)
    requires Sorted(side, ls) && Below(side, l.price, ls)
    ensures Sorted(side, [l] + ls)
  {
  }

  lemma SortedTail(side: Side, ls: seq<Level>)
    requires Sorted(side, ls) && ls != []
    ensures Sorted(side, ls[1..]) && Below(side, ls[0].price, ls[1..])
    ensures ls == [ls[0]] + ls[1..]
  {
    forall i | 0 <= i < |ls[1..]| ensures Better(side, ls[0].price, ls[1..][i].price) {
      assert ls[1..][i] == ls[i + 1];
    }
  }

  lemma {:induction false} InsertSorted(side: Side, ls: seq<Level>, o: OrderRecord)
    requires Sorted(side, ls)
    ensures Sorted(side, Insert(side, ls, o))
    ensures forall p | Better(side, p, o.price) && Below(side, p, ls) :: Below(side, p, Insert(side, ls, o))
  {
    if ls == [] {
    } else if Better(side, o.price, ls[0].price) {
      SortedTail(side, ls);
      SortedCons(side, Level(o.price, [o]), ls);
    } else if ls[0].price == o.price {
      SortedTail(side, ls);
      SortedCons(side, Level(o.price, ls[0].orders + [o]), ls[1..]);
    } else {
      SortedTail(side, ls);
      InsertSorted(side, ls[1..], o);
      SortedCons(side, ls[0], Insert(side, ls[1..], o));
      forall p | Better(side, p, o.price) && Below(side, p, ls) ensures Below(side, p, Insert(side, ls, o)) {
        assert Better(side, p, ls[0].price);
        BelowTail(side, p, ls);
      }
    }
  }

  lemma BelowTail(side: Side, p: Price, ls: seq<Level>)
    requires Below(side, p, ls) && ls != []
    ensures Below(side, p, ls[1..])
  {
    assert forall i | 0 <= i < |ls[1..]| :: ls[1..][i] == ls[i + 1];
  }

  lemma {:induction false} InsertLookup(side: Side, ls: seq<Level>, o: OrderRecord, p: Price)
    requires Sorted(side, ls)
    ensures OrdersAt(Insert(side, ls, o), p) == if p == o.price then OrdersAt(ls, p) + [o] else OrdersAt(ls, p)
  {
    if ls == [] || Better(side, o.price, ls[0].price) {
      OrdersAtBeyond(side, ls, o.price);
      assert Insert(side, ls, o)[1..] == ls;
    } else if ls[0].price == o.price {
      assert Insert(side, ls, o)[1..] == ls[1..];
    } else {
      InsertLookup(side, ls[1..], o, p);
      assert Insert(side, ls, o)[1..] == Insert(side, ls[1..], o);
    }
  }

  /** How many leading levels are at least as good as `p`. */
  function Ahead(side: Side, ls: seq<Level>, p: Price): (k: nat)
    ensures k <= |ls|
  {
    if ls == [] || Better(side, p, ls[0].price) then 0 else 1 + Ahead(side, ls[1..], p)
  }

  lemma {:induction false} AheadSplits(side: Side, ls: seq<Level>, p: Price)
    requires Sorted(side, ls)
    ensures forall i | 0 <= i < Ahead(side, ls, p) :: !Better(side, p, ls[i].price)
    ensures forall i | Ahead(side, ls, p) <= i < |ls| :: Better(side, p, ls[i].price)
  {
    if ls != [] {
      assert forall i | 1 <= i < |ls| :: ls[i] == ls[1..][i - 1];
      assert forall i | 1 <= i < |ls| :: Better(side, ls[0].price, ls[i].price);
      if !Better(side, p, ls[0].price) {
        AheadSplits(side, ls[1..], p);
      }
    }
  }

  lemma InsertAsHead(ls: seq<Level>, o: OrderRecord)
    ensures Flatten([Level(o.price, [o])] + ls) == Flatten(ls[..0]) + [o] + Flatten(ls[0..])
  {
    FlattenCons(Level(o.price, [o]), ls);
    assert ls[..0] == [] && ls[0..] == ls;
    assert Flatten(ls[..0]) + [o] == [o];
  }

  lemma InsertAtHead(ls: seq<Level>, o: OrderRecord)
    requires ls != []
    ensures Flatten([Level(ls[0].price, ls[0].orders + [o])] + ls[1..]) == Flatten(ls[..1]) + [o] + Flatten(ls[1..])
  {
    FlattenCons(Level(ls[0].price, ls[0].orders + [o]), ls[1..]);
    assert ls[..1] == [ls[0]] + [];
    FlattenCons(ls[0], []);
    assert ls[0].orders + [] == ls[0].orders;
  }

  lemma InsertFurther(ls: seq<Level>, inserted: seq<Level>, k: nat, o: OrderRecord)
    requires ls != [] && k <= |ls[1..]|
    requires Flatten(inserted) == Flatten(ls[1..][..k]) + [o] + Flatten(ls[1..][k..])
    ensures Flatten([ls[0]] + inserted) == Flatten(ls[..k + 1]) + [o] + Flatten(ls[k + 1..])
  {
    var tail := ls[1..];
    FlattenCons(ls[0], inserted);
    FlattenCons(ls[0], tail[..k]);
    assert ls[..k + 1] == [ls[0]] + tail[..k];
    assert ls[k + 1..] == tail[k..];
    ConcatFour(ls[0].orders, Flatten(tail[..k]), [o], Flatten(tail[k..]));
  }

  lemma AheadAfterEqual(side: Side, ls: seq<Level>)
    requires ls != [] && Sorted(side, ls)
    ensures Ahead(side, ls, ls[0].price) == 1
  {
    assert |ls| > 1 ==> Better(side, ls[0].price, ls[1].price);
  }

  lemma {:induction false} InsertFlatten(side: Side, ls: seq<Level>, o: OrderRecord)
    requires Sorted(side, ls)
    ensures var k := Ahead(side, ls, o.price);
            Flatten(Insert(side, ls, o)) == Flatten(ls[..k]) + [o] + Flatten(ls[k..])
  {
    if ls == [] || Better(side, o.price, ls[0].price) {
      InsertAsHead(ls, o);
    } else if ls[0].price == o.price {
      AheadAfterEqual(side, ls);
      InsertAtHead(ls, o);
    } else {
      SortedTail(side, ls);
      InsertFlatten(side, ls[1..], o);
      InsertFurther(ls, Insert(side, ls[1..], o), Ahead(side, ls[1..], o.price), o);
    }
  }

  /** A new order goes behind every order at a price at least as good and ahead of every worse one. */
  lemma InsertBehind(side: Side, ls: seq<Level>, o: OrderRecord)
    requires Sorted(side, ls)
    ensures var k := Ahead(side, ls, o.price);
            && Flatten(Insert(side, ls, o)) == Flatten(ls[..k]) + [o] + Flatten(ls[k..])
            && forall i | 0 <= i < |ls| :: i < k <==> !Better(side, o.price, ls[i].price)
  {
    InsertFlatten(side, ls, o);
    AheadSplits(side, ls, o.price);
  }

  // ---- removal ----

  lemma {:induction false} RemoveSorted(side: Side, ls: seq<Level>, p: Price, id: OrderId)
    requires Sorted(side, ls)
    ensures Sorted(side, Remove(ls, p, id))
    ensures forall q | Below(side, q, ls) :: Below(side, q, Remove(ls, p, id))
  {
    if ls == [] {
    } else {
      SortedTail(side, ls);
      forall q | Below(side, q, ls) ensures Below(side, q, ls[1..]) && Better(side, q, ls[0].price) {
        BelowTail(side, q, ls);
      }
      if ls[0].price == p {
        SortedCons(side, Level(p, Without(ls[0].orders, id)), ls[1..]);
      } else {
        RemoveSorted(side, ls[1..], p, id);
        SortedCons(side, ls[0], Remove(ls[1..], p, id));
      }
    }
  }

  lemma {:induction false} RemoveLookup(side: Side, ls: seq<Level>, p: Price, id: OrderId, q: Price)
    requires Sorted(side, ls)
    ensures OrdersAt(Remove(ls, p, id), q) == if q == p then Without(OrdersAt(ls, p), id) else OrdersAt(ls, q)
  {
    if ls == [] {
    } else if ls[0].price == p {
      var rest := Without(ls[0].orders, id);
      if rest == [] {
        if ls[1..] != [] {
          assert Better(side, ls[0].price, ls[1].price);
        }
        OrdersAtBeyond(side, ls[1..], p);
      } else {
        assert Remove(ls, p, id)[1..] == ls[1..];
      }
    } else {
      RemoveLookup(side, ls[1..], p, id, q);
      assert Remove(ls, p, id)[1..] == Remove(ls[1..], p, id);
    }
  }

  // ---- lists ----

  lemma {:induction false} WithoutAbsent(orders: seq<OrderRecord>, id: OrderId)
    requires !HasId(orders, id)
    ensures Without(orders, id) == orders
  {
    if orders != [] {
      assert orders[0].id != id;
      forall i | 0 <= i < |orders[1..]| ensures orders[1..][i].id != id {
        assert orders[1..][i] == orders[i + 1];
      }
      WithoutAbsent(orders[1..], id);
    }
  }

  /** Taking one order out of a list without repeated ids cuts it at that order. */
  lemma {:induction false} WithoutCut(orders: seq<OrderRecord>, k: nat)
    requires Distinct(orders) && k < |orders|
    ensures Without(orders, orders[k].id) == orders[..k] + orders[k + 1..]
  {
    if k == 0 {
      forall i | 0 <= i < |orders[1..]| ensures orders[1..][i].id != orders[0].id {
        assert orders[1..][i] == orders[i + 1];
      }
      WithoutAbsent(orders[1..], orders[0].id);
    } else {
      assert orders[0].id != orders[k].id;
      WithoutCut(orders[1..], k - 1);
      assert orders[1..][k - 1] == orders[k];
      assert orders[1..][..k - 1] == orders[1..k];
      assert orders[1..][k..] == orders[k + 1..];
      assert orders[..k] == [orders[0]] + orders[1..k];
    }
  }

  lemma {:induction false} SumConcat(a: seq<OrderRecord>, b: seq<OrderRecord>)
    ensures Sum(a + b) == Sum(a) + Sum(b)
  {
    if a == [] {
      assert a + b == b;
    } else {
      SumConcat(a[1..], b);
      assert (a + b)[1..] == a[1..] + b;
    }
  }

  lemma SumCut(orders: seq<OrderRecord>, k: nat)
    requires k < |orders|
    ensures Sum(orders) == Sum(orders[..k] + orders[k + 1..]) + orders[k].remaining
  {
    SumConcat(orders[..k], orders[k..]);
    SumConcat(orders[..k], orders[k + 1..]);
    assert orders == orders[..k] + orders[k..];
    assert orders[k..][1..] == orders[k + 1..];
  }

  lemma {:induction false} FlattenConcat(a: seq<Level>, b: seq<Level>)
    ensures Flatten(a + b) == Flatten(a) + Flatten(b)
  {
    if a == [] {
      assert a + b == b;
      assert [] + Flatten(b) == Flatten(b);
    } else {
      FlattenConcat(a[1..], b);
      FlattenCons(a[0], a[1..] + b);
      FlattenCons(a[0], a[1..]);
      assert a == [a[0]] + a[1..];
      assert a + b == [a[0]] + (a[1..] + b);
      ConcatAssociates(a[0].orders, Flatten(a[1..]), Flatten(b));
    }
  }

  lemma FlattenCons(l: Level, ls: seq<Level>)
    ensures Flatten([l] + ls) == l.orders + Flatten(ls)
  {
    assert ([l] + ls)[1..] == ls;
  }

  lemma ConcatFour<T>(a: seq<T>, b: seq<T>, c: seq<T>, d: seq<T>)
    ensures (a + b) + c + d == a + (b + c + d)
  {
  }

  lemma ConcatAssociates<T>(a: seq<T>, b: seq<T>, c: seq<T>)
    ensures (a + b) + c == a + (b + c)
  {
  }
}

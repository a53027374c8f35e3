/** What one call undoes, and what cancelling and modifying do to everybody's priority. */
module CancelModify {
  import opened Domain
  import opened Ladder
  import opened Matching
  import opened Consistency
  import opened Sweeping
  import opened Engine
  import opened Ledger
  import opened LevelCache
  import opened SoundCaches

  // ---- cancelling undoes a quiet add ----

  lemma {:induction false} WithoutConcat(a: seq<OrderRecord>, b: seq<OrderRecord>, id: OrderId)
    ensures Without(a + b, id) == Without(a, id) + Without(b, id)
  {
    if a == [] {
      assert a + b == b;
      assert [] + Without(b, id) == Without(b, id);
    } else {
      WithoutConcat(a[1..], b, id);
      assert (a + b)[1..] == a[1..] + b;
      if a[0].id != id {
        ConcatAssociates([a[0]], Without(a[1..], id), Without(b, id));
      }
    }
  }

  lemma {:induction false} RemoveUndoesInsert(side: Side, ls: seq<Level>, o: OrderRecord)
    requires Sorted(side, ls) && NoEmptyLevel(ls) && !HasId(OrdersAt(ls, o.price), o.id)
    ensures Ladder.Remove(Insert(side, ls, o), o.price, o.id) == ls
  {
    assert Without([o], o.id) == [];
    if ls == [] || Better(side, o.price, ls[0].price) {
      assert Insert(side, ls, o)[1..] == ls;
    } else if ls[0].price == o.price {
      WithoutConcat(ls[0].orders, [o], o.id);
      WithoutAbsent(ls[0].orders, o.id);
      assert ls[0].orders + [] == ls[0].orders;
      assert Insert(side, ls, o)[1..] == ls[1..];
      assert ls == [Level(o.price, ls[0].orders)] + ls[1..];
    } else {
      SortedTail(side, ls);
      assert forall i | 0 <= i < |ls[1..]| :: ls[1..][i] == ls[i + 1];
      RemoveUndoesInsert(side, ls[1..], o);
      assert Insert(side, ls, o)[1..] == Insert(side, ls[1..], o);
    }
  }

  lemma SameEntries(a: map<Price, LevelData>, b: map<Price, LevelData>)
    requires forall p :: Entry(a, p) == Entry(b, p)
    ensures a == b
  {
    forall p ensures p in a <==> p in b {
      assert Entry(a, p) == Entry(b, p);
    }
    forall p | p in a ensures a[p] == b[p] {
      assert Entry(a, p) == Entry(b, p);
    }
  }

  lemma RestedOrder(b: Book, o: OrderRecord)
    requires Consistent(b) && o.id !in b.index
    ensures Resting(Rest(b, o), o.id) == Some(o)
  {
    var r := Rest(b, o);
    RestConsistent(b, o);
    RestAt(b, o, o.side, o.price);
    var k := RestingFound(r, o.id);
    assert ListOk(b.index, o.side, o.price, At(b, o.side, o.price));
    assert forall i | 0 <= i < |At(b, o.side, o.price)| :: Homed(b.index, o.side, o.price, At(b, o.side, o.price)[i]);
  }

  /** The count at `p` is the largest a 32-bit field holds, so that one more makes it zero. */
  predicate CountFull(cache: map<Price, LevelData>, p: Price) {
    p in cache && cache[p].count + 1 == TWO_32
  }

  lemma WrapBack(total: nat, quantity: nat)
    requires total < TWO_32
    ensures Wrap(Wrap(total + quantity) - quantity) == total
  {
  }

  /** Recording an order and its removal again leaves the entry as it was, unless the count was full: then the
      entry went away in between and comes back with only the order's quantity taken off zero. */
  lemma AddThenRemoveEntry(cache: map<Price, LevelData>, p: Price, quantity: nat)
    requires Sound(cache)
    ensures var again := UpdateLevelData(UpdateLevelData(cache, p, quantity, Action.Add), p, quantity, Action.Remove);
            Entry(again, p) ==
            if CountFull(cache, p) then Some(LevelData(Wrap(0 - quantity), TWO_32 - 1)) else Entry(cache, p)
  {
    var cache' := UpdateLevelData(cache, p, quantity, Action.Add);
    if CountFull(cache, p) {
      assert p !in cache';
    } else {
      var data := if p in cache then cache[p] else LevelData(0, 0);
      WrapBack(data.quantity, quantity);
      assert cache'[p] == LevelData(Wrap(data.quantity + quantity), data.count + 1);
    }
  }

  lemma AddThenRemove(cache: map<Price, LevelData>, p: Price, quantity: nat)
    requires Sound(cache)
    ensures UpdateLevelData(UpdateLevelData(cache, p, quantity, Action.Add), p, quantity, Action.Remove) == cache <==>
            (CountFull(cache, p) ==> cache[p].quantity == Wrap(0 - quantity))
  {
    var cache' := UpdateLevelData(cache, p, quantity, Action.Add);
    var again := UpdateLevelData(cache', p, quantity, Action.Remove);
    AddThenRemoveEntry(cache, p, quantity);
    if CountFull(cache, p) ==> cache[p].quantity == Wrap(0 - quantity) {
      forall q ensures Entry(again, q) == Entry(cache, q) {
        if q != p {
          UpdateElsewhere(cache, p, quantity, Action.Add, q);
          UpdateElsewhere(cache', p, quantity, Action.Remove, q);
        }
      }
      SameEntries(again, cache);
    }
  }

  /** What cancelling a just added order that crossed nothing does to everything but the cache, and to the cache. */
  lemma AddedThenCancelled(b: Book, o: OrderRecord)
    requires Valid(b) && Accepted(b, o) && !o.kind.Market? && o.initial == o.remaining
    requires !CanMatch(b, o.side, o.price)
    ensures Cancel(AddOrder(b, o).book, o.id) ==
            b.(cache := UpdateLevelData(UpdateLevelData(b.cache, o.price, o.initial, Action.Add),
                                        o.price, o.initial, Action.Remove))
  {
    RefusedOrAccepted(b, o);
    PlaceQuiet(b, o);
    RestedOrder(b, o);
    assert ListOk(b.index, o.side, o.price, At(b, o.side, o.price));
    assert forall i | 0 <= i < |At(b, o.side, o.price)| :: Homed(b.index, o.side, o.price, At(b, o.side, o.price)[i]);
    RemoveUndoesInsert(o.side, Levels(b, o.side), o);
    assert b.index[o.id := Location(o.side, o.price)] - {o.id} == b.index;
  }

  /** Cancelling a just added order that crossed nothing gives the very same book, cache included, if and only if
      the stored count of its price was not full, or the stored quantity happened to be the order's below zero.
      Nothing is assumed of the cache but that its entries are 32-bit numbers. */
  lemma CancelUndoesAdd(b: Book, o: OrderRecord)
    requires Valid(b) && Sound(b.cache) && Accepted(b, o) && !o.kind.Market? && o.initial == o.remaining
    requires !CanMatch(b, o.side, o.price)
    ensures Cancel(AddOrder(b, o).book, o.id) == b <==>
            (CountFull(b.cache, o.price) ==> b.cache[o.price].quantity == Wrap(0 - o.initial))
  {
    AddedThenCancelled(b, o);
    AddThenRemove(b.cache, o.price, o.initial);
  }

  /** The same after any run of calls. */
  lemma {:induction false} CancelUndoesAddOverRuns(commands: seq<Command>, o: OrderRecord)
    requires var b := Run(commands).book;
             && Accepted(b, o) && !o.kind.Market? && o.initial == o.remaining && !CanMatch(b, o.side, o.price)
    ensures var b := Run(commands).book;
            Cancel(AddOrder(b, o).book, o.id) == b <==>
            (CountFull(b.cache, o.price) ==> b.cache[o.price].quantity == Wrap(0 - o.initial))
  {
    RunSound(commands);
    CancelUndoesAdd(Run(commands).book, o);
  }

  lemma RightIsSound(b: Book)
    requires CacheAgrees(b)
    ensures Sound(b.cache)
  {
    forall p | p in b.cache ensures SoundEntry(b.cache[p]) {
      assert AgreesAt(b, p);
    }
  }

  /** With a right cache, cancelling a just added order that crossed nothing always gives the very same book. */
  lemma CancelUndoesAddRightly(b: Book, o: OrderRecord)
    requires Valid(b) && CacheAgrees(b) && Accepted(b, o) && !o.kind.Market? && o.initial == o.remaining
    requires !CanMatch(b, o.side, o.price) && Count(b, o.price) + 1 < TWO_32
    ensures Cancel(AddOrder(b, o).book, o.id) == b
  {
    RightIsSound(b);
    assert AgreesAt(b, o.price);
    CancelUndoesAdd(b, o);
  }

  // ---- cancelling keeps everybody else's priority ----

  lemma {:induction false} FlattenAbsent(side: Side, ls: seq<Level>, id: OrderId)
    requires Sorted(side, ls) && forall p :: !HasId(OrdersAt(ls, p), id)
    ensures Without(Flatten(ls), id) == Flatten(ls)
  {
    if ls != [] {
      SortedTail(side, ls);
      assert !HasId(OrdersAt(ls, ls[0].price), id);
      forall p ensures !HasId(OrdersAt(ls[1..], p), id) {
        assert !HasId(OrdersAt(ls, p), id);
        if p == ls[0].price { OrdersAtBeyond(side, ls[1..], p); }
      }
      FlattenAbsent(side, ls[1..], id);
      WithoutConcat(ls[0].orders, Flatten(ls[1..]), id);
      WithoutAbsent(ls[0].orders, id);
    }
  }

  lemma {:induction false} RemoveFlatten(side: Side, ls: seq<Level>, p: Price, id: OrderId)
    requires Sorted(side, ls) && forall q | q != p :: !HasId(OrdersAt(ls, q), id)
    ensures Flatten(Ladder.Remove(ls, p, id)) == Without(Flatten(ls), id)
  {
    if ls != [] {
      SortedTail(side, ls);
      WithoutConcat(ls[0].orders, Flatten(ls[1..]), id);
      forall q | q != p ensures !HasId(OrdersAt(ls[1..], q), id) {
        assert !HasId(OrdersAt(ls, q), id);
        if q == ls[0].price { OrdersAtBeyond(side, ls[1..], q); }
      }
      if ls[0].price == p {
        OrdersAtBeyond(side, ls[1..], p);
        FlattenAbsent(side, ls[1..], id);
        FlattenLeft(p, Without(ls[0].orders, id), ls[1..]);
        assert Ladder.Remove(ls, p, id) == LevelLeft(p, Without(ls[0].orders, id)) + ls[1..];
      } else {
        assert !HasId(OrdersAt(ls, ls[0].price), id);
        WithoutAbsent(ls[0].orders, id);
        RemoveFlatten(side, ls[1..], p, id);
        FlattenCons(ls[0], Ladder.Remove(ls[1..], p, id));
      }
    }
  }

  lemma NotElsewhere(b: Book, id: OrderId, s: Side, p: Price)
    requires Consistent(b) && (id !in b.index || b.index[id] != Location(s, p))
    ensures !HasId(At(b, s, p), id)
  {
    var orders := At(b, s, p);
    assert ListOk(b.index, s, p, orders);
    forall i | 0 <= i < |orders| ensures orders[i].id != id {
      assert Homed(b.index, s, p, orders[i]);
    }
  }

  /** A cancel takes its order out of the queue of its side and leaves all others in their order, on both sides. */
  lemma CancelKeepsPriority(b: Book, id: OrderId, side: Side)
    requires Valid(b)
    ensures Flatten(Levels(Cancel(b, id), side)) == Without(Flatten(Levels(b, side)), id)
  {
    forall p | id !in b.index || b.index[id] != Location(side, p) ensures !HasId(OrdersAt(Levels(b, side), p), id) {
      NotElsewhere(b, id, side, p);
    }
    if id in b.index && b.index[id].side == side {
      var k := RestingFound(b, id);
      RemoveFlatten(side, Levels(b, side), b.index[id].price, id);
    } else {
      FlattenAbsent(side, Levels(b, side), id);
      if id in b.index { var k := RestingFound(b, id); }
    }
  }

  // ---- modifying is cancelling and adding again ----

  lemma CancelledLevel(b: Book, id: OrderId, s: Side, p: Price)
    requires Valid(b) && Resting(b, id).Some?
    ensures At(Cancel(b, id), s, p) == Without(At(b, s, p), id)
  {
    CancelConsistent(b, id);
    CancelAt(b, id, s, p);
    if b.index[id] != Location(s, p) {
      NotElsewhere(b, id, s, p);
      WithoutAbsent(At(b, s, p), id);
    }
  }

  /** The residual of a sweep, if it rests, goes behind everybody at its price. */
  lemma {:induction false} SweptOwnLevel(b: Book, o: OrderRecord, out: Outcome, p: Price)
    requires Valid(b) && SweptOutcome(b, o, out) && !o.kind.FillAndKill?
    ensures At(out.book, o.side, p) ==
            At(b, o.side, p) + if p == o.price then Survivor(Sweep(o, Queue(b, o)).taker) else []
  {
    SweepQuantities(o, Queue(b, o));
    var r := Sweep(o, Queue(b, o));
    if r.taker.Some? {
      InsertLookup(o.side, Levels(b, o.side), r.taker.value, p);
    }
    assert At(b, o.side, p) + [] == At(b, o.side, p);
  }

  lemma QueueSplits(b: Book, o: OrderRecord)
    ensures Queue(b, o) + Beyond(b, o) == Flatten(Opposing(b, o))
  {
    var n := Reach(o, Opposing(b, o));
    FlattenConcat(Opposing(b, o)[..n], Opposing(b, o)[n..]);
    assert Opposing(b, o)[..n] + Opposing(b, o)[n..] == Opposing(b, o);
  }

  /** Modifying an order withdraws it and sweeps the opposing orders with a new one of the kept type; what is left of
      that goes behind everybody at its new price, even when that is its old price, and all others keep their
      places. Only a FillOrKill the scan turns down is withdrawn for good. */
  lemma ModifyLosesPriority(b: Book, id: OrderId, side: Side, price: Price, quantity: nat, p: Price)
    requires Valid(b) && Resting(b, id).Some?
    ensures var b1, o := Cancel(b, id), NewOrder(Resting(b, id).value.kind, id, side, price, quantity);
            var out, r := Modify(b, id, side, price, quantity), Sweep(o, Queue(b1, o));
            && At(out.book, side, p) ==
                 Without(At(b, side, p), id) + (if p == price && Accepted(b1, o) then Survivor(r.taker) else [])
            && Queue(b1, o) + Beyond(b1, o) == Without(Flatten(Levels(b, side.Opposite())), id)
            && out.trades == (if Accepted(b1, o) then r.trades else [])
            && Flatten(Levels(out.book, side.Opposite())) ==
                 (if Accepted(b1, o) then r.left else Queue(b1, o)) + Beyond(b1, o)
            && (!Accepted(b1, o) <==> o.kind.FillOrKill? && !CanFullyFill(b1, side, price, quantity))
  {
    var b1, o := Cancel(b, id), NewOrder(Resting(b, id).value.kind, id, side, price, quantity);
    CancelValid(b, id);
    CancelConsistent(b, id);
    CancelledLevel(b, id, side, p);
    CancelKeepsPriority(b, id, side.Opposite());
    QueueSplits(b1, o);
    RestingLasts(b, id);
    RefusedOrAccepted(b1, o);
    if Accepted(b1, o) {
      AddOrderIsSweep(b1, o);
      SweptOwnLevel(b1, o, AddOrder(b1, o), p);
    } else {
      assert At(b1, side, p) + [] == At(b1, side, p);
    }
  }

  lemma QuietSweep(b: Book, o: OrderRecord)
    requires Valid(b) && !CanMatch(b, o.side, o.price) && !o.kind.FillAndKill?
    ensures Queue(b, o) == [] && Sweep(o, Queue(b, o)) == SweepResult(Some(o), [], [])
  {
    assert Opposing(b, o)[..0] == [];
  }

  /** A modification that crosses nothing puts the order, of its old type, behind everybody at its new price; all
      others keep their places and nobody trades. A FillOrKill that came to rest is refused. */
  lemma QuietModifyLosesPriority(b: Book, id: OrderId, side: Side, price: Price, quantity: nat, p: Price)
    requires Valid(b) && Resting(b, id).Some?
    requires !CanMatch(Cancel(b, id), side, price)
    ensures var kind, r := Resting(b, id).value.kind, Modify(b, id, side, price, quantity);
            && r.trades == []
            && At(r.book, side, p) == Without(At(b, side, p), id) +
                 (if p == price && kind.GoodTillCancel? then [NewOrder(kind, id, side, price, quantity)] else [])
            && At(r.book, side.Opposite(), p) == Without(At(b, side.Opposite(), p), id)
  {
    var b1, o := Cancel(b, id), NewOrder(Resting(b, id).value.kind, id, side, price, quantity);
    ModifyLosesPriority(b, id, side, price, quantity, p);
    CancelValid(b, id);
    RestingLasts(b, id);
    QuietSweep(b1, o);
    CancelledLevel(b, id, side.Opposite(), p);
    RefusedOrAccepted(b1, o);
    if Accepted(b1, o) {
      PlaceQuiet(b1, o);
    }
  }

  lemma RestingLasts(b: Book, id: OrderId)
    requires Valid(b) && Resting(b, id).Some?
    ensures Lasting(Resting(b, id).value)
  {
    var k := RestingFound(b, id);
    var o := Resting(b, id).value;
    var i := OrdersAtFound(Levels(b, o.side), o.price);
    assert Lasting(Levels(b, o.side)[i].orders[k]);
  }
}

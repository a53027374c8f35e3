/** When every submitted quantity is positive, every resting order always has something left. */
module PositiveQuantities {
  import opened Domain
  import opened Ladder
  import opened Matching
  import opened Sweeping
  import opened Engine
  import opened Ledger
  import opened CancelModify

  predicate AllPositive(orders: seq<OrderRecord>) {
    forall k | 0 <= k < |orders| :: orders[k].remaining > 0
  }

  predicate Positive(b: Book) {
    AllPositive(Flatten(b.bids)) && AllPositive(Flatten(b.asks))
  }

  lemma {:induction false} SweepPositive(taker: OrderRecord, queue: seq<OrderRecord>)
    requires taker.remaining > 0 && AllPositive(queue)
    ensures AllPositive(Sweep(taker, queue).left)
    ensures Sweep(taker, queue).taker.Some? ==> Sweep(taker, queue).taker.value.remaining > 0
    decreases |queue|
  {
    if queue != [] {
      var quantity := Min(taker.remaining, queue[0].remaining);
      if quantity < taker.remaining {
        SweepPositive(Filled(taker, quantity), queue[1..]);
      }
    }
  }

  lemma {:induction false} WithoutPositive(orders: seq<OrderRecord>, id: OrderId)
    requires AllPositive(orders)
    ensures AllPositive(Without(orders, id))
  {
    if orders != [] {
      WithoutPositive(orders[1..], id);
    }
  }

  lemma InsertPositive(side: Side, ls: seq<Level>, o: OrderRecord)
    requires Sorted(side, ls) && AllPositive(Flatten(ls)) && o.remaining > 0
    ensures AllPositive(Flatten(Insert(side, ls, o)))
  {
    var k := Ahead(side, ls, o.price);
    InsertFlatten(side, ls, o);
    SplitPositive(ls, k);
  }

  lemma SplitPositive(ls: seq<Level>, k: nat)
    requires k <= |ls| && AllPositive(Flatten(ls))
    ensures AllPositive(Flatten(ls[..k])) && AllPositive(Flatten(ls[k..]))
  {
    assert ls == ls[..k] + ls[k..];
    FlattenConcat(ls[..k], ls[k..]);
    var a, b := Flatten(ls[..k]), Flatten(ls[k..]);
    assert forall i | 0 <= i < |a| :: (a + b)[i] == a[i];
    assert forall i | 0 <= i < |b| :: (a + b)[|a| + i] == b[i];
  }

  lemma SweptPositive(b: Book, e: OrderRecord, out: Outcome)
    requires Sorted(e.side, Levels(b, e.side)) && e.remaining > 0
    requires AllPositive(Flatten(Levels(b, e.side))) && AllPositive(Flatten(Opposing(b, e)))
    requires SweptOutcome(b, e, out)
    ensures AllPositive(Flatten(Levels(out.book, e.side))) && AllPositive(Flatten(Opposing(out.book, e)))
  {
    SplitPositive(Opposing(b, e), Reach(e, Opposing(b, e)));
    SweepPositive(e, Queue(b, e));
    var r := Sweep(e, Queue(b, e));
    if r.taker.Some? && !e.kind.FillAndKill? {
      SweepQuantities(e, Queue(b, e));
      InsertPositive(e.side, Levels(b, e.side), r.taker.value);
    }
  }

  lemma AddPositive(b: Book, o: OrderRecord)
    requires Valid(b) && Positive(b) && o.remaining > 0
    ensures Positive(AddOrder(b, o).book)
  {
    RefusedOrAccepted(b, o);
    if Accepted(b, o) {
      AddOrderIsSweep(b, o);
      SweptPositive(b, Effective(b, o), AddOrder(b, o));
    }
  }

  lemma CancelPositive(b: Book, id: OrderId)
    requires Valid(b) && Positive(b)
    ensures Positive(Cancel(b, id))
  {
    CancelKeepsPriority(b, id, Buy);
    CancelKeepsPriority(b, id, Sell);
    WithoutPositive(Flatten(b.bids), id);
    WithoutPositive(Flatten(b.asks), id);
  }

  predicate PositiveCommand(c: Command) {
    c.CancelOrder? || c.quantity > 0
  }

  /** In any run of commands with positive quantities, no order rests with nothing left to trade. */
  lemma {:induction false} RunPositive(commands: seq<Command>)
    requires forall i | 0 <= i < |commands| :: PositiveCommand(commands[i])
    ensures Positive(Run(commands).book)
  {
    if commands != [] {
      var n := |commands| - 1;
      var b := Run(commands[..n]).book;
      RunPositive(commands[..n]);
      ApplyPositive(b, commands[n]);
    }
  }

  lemma ApplyPositive(b: Book, c: Command)
    requires Valid(b) && Positive(b) && PositiveCommand(c)
    ensures Positive(Apply(b, c).book)
  {
    match c
    case Submit(kind, id, side, price, quantity) => AddPositive(b, NewOrder(kind, id, side, price, quantity));
    case CancelOrder(id) => CancelPositive(b, id);
    case ModifyOrder(id, side, price, quantity) =>
      if Resting(b, id).Some? {
        CancelPositive(b, id);
        CancelValid(b, id);
        AddPositive(Cancel(b, id), NewOrder(Resting(b, id).value.kind, id, side, price, quantity));
      }
  }
}

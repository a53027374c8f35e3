/** The public calls on a book at rest: what AddOrder, CancelOrder and ModifyOrder promise. */
module Engine {
  import opened Domain
  import opened Ladder
  import opened Matching
  import opened Consistency
  import opened Sweeping

  /** A book between two calls. */
  ghost predicate Valid(b: Book) {
    Consistent(b) && Calm(b.bids) && Calm(b.asks) && !Crossed(b)
  }

  lemma EmptyValid()
    ensures Valid(EMPTY_BOOK)
  {
    assert forall s: Side, p: Price :: At(EMPTY_BOOK, s, p) == [];
    forall s: Side, p: Price ensures ListOk(EMPTY_BOOK.index, s, p, At(EMPTY_BOOK, s, p)) {
    }
  }

  function Opposing(b: Book, o: OrderRecord): seq<Level> {
    Levels(b, o.side.Opposite())
  }

  /** The order that is put on the book: a Market order takes the worst opposing price as its limit. */
  function Effective(b: Book, o: OrderRecord): OrderRecord {
    if o.kind.Market? && Opposing(b, o) != [] then Converted(b, o) else o
  }

  /** AddOrder's four reasons to refuse do not apply. */
  predicate Accepted(b: Book, o: OrderRecord) {
    && o.id !in b.index
    && (o.kind.FillAndKill? ==> CanMatch(b, o.side, o.price))
    && (o.kind.Market? ==> Opposing(b, o) != [])
    && (o.kind.FillOrKill? ==> CanFullyFill(b, o.side, o.price, o.initial))
  }

  /** The opposing orders the effective order may trade with, in priority order. */
  function Queue(b: Book, o: OrderRecord): seq<OrderRecord> {
    Flatten(Opposing(b, o)[..Reach(o, Opposing(b, o))])
  }

  /** The opposing orders out of its reach. */
  function Beyond(b: Book, o: OrderRecord): seq<OrderRecord> {
    Flatten(Opposing(b, o)[Reach(o, Opposing(b, o))..])
  }

  /** Opposing quantity within the limit. */
  function Liquidity(b: Book, side: Side, limit: Price): nat {
    var opposing := Levels(b, side.Opposite());
    Sum(Flatten(opposing[..Depth(side, limit, opposing)]))
  }

  lemma RefusedOrAccepted(b: Book, o: OrderRecord)
    requires Proper(b)
    ensures AddOrder(b, o) == if Accepted(b, o) then Place(b, Effective(b, o)) else Refused(b)
  {
  }

  // ---- which orders enter the book, and as what ----

  /** `worst` is the price of some opposing order, and no opposing order has a worse one. */
  ghost predicate WorstOpposing(b: Book, o: OrderRecord, worst: Price) {
    var theirs := o.side.Opposite();
    At(b, theirs, worst) != [] && forall p: Price | At(b, theirs, p) != [] :: p == worst || Better(theirs, p, worst)
  }

  /** The order `o` enters the book as `e`: a Market order as a GoodTillCancel one limited to the worst opposing price,
      any other as it is. */
  ghost predicate EntersAs(b: Book, o: OrderRecord, e: OrderRecord) {
    && e.id == o.id && e.side == o.side && e.initial == o.initial && e.remaining == o.remaining
    && if o.kind.Market? then e.kind.GoodTillCancel? && WorstOpposing(b, o, e.price)
       else e.kind == o.kind && e.price == o.price
  }

  lemma LastIsWorst(b: Book, o: OrderRecord)
    requires Valid(b) && Opposing(b, o) != []
    ensures WorstOpposing(b, o, Opposing(b, o)[|Opposing(b, o)| - 1].price)
  {
    var opposing, theirs := Opposing(b, o), o.side.Opposite();
    OrdersAtLevel(theirs, opposing, |opposing| - 1);
    forall p: Price | At(b, theirs, p) != []
      ensures p == opposing[|opposing| - 1].price || Better(theirs, p, opposing[|opposing| - 1].price)
    {
      var i := OrdersAtFound(opposing, p);
    }
  }

  lemma EffectiveEnters(b: Book, o: OrderRecord)
    requires Valid(b) && Accepted(b, o)
    ensures EntersAs(b, o, Effective(b, o))
  {
    if o.kind.Market? {
      LastIsWorst(b, o);
    }
  }

  /** There is only one order `o` can enter as. */
  lemma EntersAsOne(b: Book, o: OrderRecord, e: OrderRecord)
    requires Valid(b) && Accepted(b, o) && EntersAs(b, o, e)
    ensures e == Effective(b, o)
  {
    EffectiveEnters(b, o);
    if o.kind.Market? {
      var p := Effective(b, o).price;
      assert At(b, o.side.Opposite(), p) != [] && At(b, o.side.Opposite(), e.price) != [];
    }
  }

  /** Some opposing order is priced within the limit. */
  ghost predicate SomeWithin(b: Book, side: Side, limit: Price) {
    exists p: Price :: At(b, side.Opposite(), p) != [] && Crosses(side, limit, p)
  }

  lemma CanMatchMeans(b: Book, side: Side, limit: Price)
    requires Valid(b)
    ensures CanMatch(b, side, limit) <==> SomeWithin(b, side, limit)
  {
    var opposing := Levels(b, side.Opposite());
    if CanMatch(b, side, limit) {
      OrdersAtLevel(side.Opposite(), opposing, 0);
    }
    if SomeWithin(b, side, limit) {
      var p: Price :| At(b, side.Opposite(), p) != [] && Crosses(side, limit, p);
      var i := OrdersAtFound(opposing, p);
      assert i > 0 ==> Better(side.Opposite(), opposing[0].price, opposing[i].price);
    }
  }

  /** The four reasons to turn an order down. */
  ghost predicate TurnedDown(b: Book, o: OrderRecord) {
    || o.id in b.index
    || (o.kind.FillAndKill? && !SomeWithin(b, o.side, o.price))
    || (o.kind.Market? && forall p: Price :: At(b, o.side.Opposite(), p) == [])
    || (o.kind.FillOrKill? && !CanFullyFill(b, o.side, o.price, o.initial))
  }

  /** AddOrder turns an order down for exactly these reasons, and then changes nothing; any other order enters. */
  lemma RefusedExactly(b: Book, o: OrderRecord)
    requires Valid(b)
    ensures var out := AddOrder(b, o);
            if TurnedDown(b, o) then out == Outcome(b, [], [], None)
            else Accepted(b, o) && out.placed.Some? && EntersAs(b, o, out.placed.value)
  {
    CanMatchMeans(b, o.side, o.price);
    if Opposing(b, o) != [] {
      LastIsWorst(b, o);
    }
    RefusedOrAccepted(b, o);
    if Accepted(b, o) {
      EffectiveEnters(b, o);
    }
  }

  // ---- from the rested order to the sweep ----

  /** A crossing order goes to the very top of its own side. */
  lemma CrossingGoesOnTop(b: Book, o: OrderRecord)
    requires Valid(b) && CanMatch(b, o.side, o.price)
    ensures forall r: OrderRecord | r.side == o.side && r.price == o.price ::
              Insert(o.side, Levels(b, o.side), r) == [Level(o.price, [r])] + Levels(b, o.side)
    ensures Apart(o.side, Levels(b, o.side), Opposing(b, o))
  {
  }

  /** Placing an order that crosses nothing just queues it. */
  lemma PlaceQuiet(b: Book, o: OrderRecord)
    requires Valid(b) && !CanMatch(b, o.side, o.price)
    ensures Place(b, o) == Outcome(Rest(b, o), [], [], Some(o))
  {
    RestProper(b, o);
    InsertHead(o.side, Levels(b, o.side), o);
    assert !Crossed(Rest(b, o));
  }

  /** `out` leaves the sides as the sweep of the reachable orders does, residual queued behind its price. */
  ghost predicate SweptOutcome(b: Book, e: OrderRecord, out: Outcome) {
    var r := Sweep(e, Queue(b, e));
    && out.trades == r.trades
    && out.killed == (if e.kind.FillAndKill? then Survivor(r.taker) else [])
    && out.placed == Some(e)
    && Flatten(Opposing(out.book, e)) == r.left + Beyond(b, e)
    && Levels(out.book, e.side) ==
         if r.taker.None? || e.kind.FillAndKill? then Levels(b, e.side)
         else Insert(e.side, Levels(b, e.side), r.taker.value)
  }

  lemma CrossingOutcome(b: Book, e: OrderRecord, out: Outcome)
    requires Valid(b) && CanMatch(b, e.side, e.price)
    requires LikeSweep(out, e, Levels(b, e.side), Opposing(b, e)) && out.placed == Some(e)
    ensures SweptOutcome(b, e, out)
  {
    CrossingGoesOnTop(b, e);
    var r := Sweep(e, Queue(b, e));
    SweepQuantities(e, Queue(b, e));
    assert [] + Levels(b, e.side) == Levels(b, e.side);
  }

  lemma QuietOutcome(b: Book, e: OrderRecord)
    requires !CanMatch(b, e.side, e.price) && !e.kind.FillAndKill?
    ensures SweptOutcome(b, e, Outcome(Rest(b, e), [], [], Some(e)))
  {
    var opposing := Opposing(b, e);
    assert opposing[..0] == [] && opposing[0..] == opposing;
    assert [] + Flatten(opposing) == Flatten(opposing);
  }

  lemma PlaceIsSweep(b: Book, e: OrderRecord)
    requires Valid(b) && e.id !in b.index && !e.kind.Market?
    requires e.kind.FillAndKill? ==> CanMatch(b, e.side, e.price)
    ensures SweptOutcome(b, e, Place(b, e))
  {
    if CanMatch(b, e.side, e.price) {
      CrossingGoesOnTop(b, e);
      RestConsistent(b, e);
      RestProper(b, e);
      assert Facing(Rest(b, e), e, Levels(b, e.side), Opposing(b, e));
      MatchIsSweep(Rest(b, e), e, Levels(b, e.side), Opposing(b, e));
      CrossingOutcome(b, e, Place(b, e));
    } else {
      PlaceQuiet(b, e);
      QuietOutcome(b, e);
    }
  }

  /** The main refinement: an accepted order of any kind does to the book exactly what the sweep says. */
  lemma AddOrderIsSweep(b: Book, o: OrderRecord)
    requires Valid(b) && Accepted(b, o)
    ensures SweptOutcome(b, Effective(b, o), AddOrder(b, o))
  {
    RefusedOrAccepted(b, o);
    PlaceIsSweep(b, Effective(b, o));
  }

  // ---- the sides are determined by their orders in priority order ----

  predicate HomedLevels(ls: seq<Level>) {
    forall i, j | 0 <= i < |ls| && 0 <= j < |ls[i].orders| :: ls[i].orders[j].price == ls[i].price
  }

  lemma FlattenFirst(ls: seq<Level>)
    requires ls != [] && NoEmptyLevel(ls) && HomedLevels(ls)
    ensures Flatten(ls) != [] && Flatten(ls)[0].price == ls[0].price
  {
    assert Flatten(ls)[0] == ls[0].orders[0];
  }

  lemma {:induction false} FlattenWorse(side: Side, p: Price, ls: seq<Level>)
    requires Below(side, p, ls) && HomedLevels(ls)
    ensures forall k | 0 <= k < |Flatten(ls)| :: Better(side, p, Flatten(ls)[k].price)
  {
    if ls != [] {
      BelowTail(side, p, ls);
      assert forall i | 0 <= i < |ls[1..]| :: ls[1..][i] == ls[i + 1];
      FlattenWorse(side, p, ls[1..]);
      forall k | 0 <= k < |Flatten(ls)| ensures Better(side, p, Flatten(ls)[k].price) {
        if k < |ls[0].orders| {
          assert Flatten(ls)[k] == ls[0].orders[k];
        } else {
          assert Flatten(ls)[k] == Flatten(ls[1..])[k - |ls[0].orders|];
        }
      }
    }
  }

  /** Two well-formed sides listing the same orders have the same levels. */
  lemma {:induction false} FlattenInjective(side: Side, a: seq<Level>, b: seq<Level>)
    requires Sorted(side, a) && NoEmptyLevel(a) && HomedLevels(a)
    requires Sorted(side, b) && NoEmptyLevel(b) && HomedLevels(b)
    requires Flatten(a) == Flatten(b)
    ensures a == b
  {
    if a == [] || b == [] {
      if a != [] { FlattenFirst(a); }
      if b != [] { FlattenFirst(b); }
    } else {
      FlattenFirst(a);
      FlattenFirst(b);
      SortedTail(side, a);
      SortedTail(side, b);
      assert forall i | 0 <= i < |a[1..]| :: a[1..][i] == a[i + 1];
      assert forall i | 0 <= i < |b[1..]| :: b[1..][i] == b[i + 1];
      SameFirstList(side, a, b);
      FlattenInjective(side, a[1..], b[1..]);
    }
  }

  lemma FirstRun(side: Side, ls: seq<Level>)
    requires ls != [] && HomedLevels(ls) && Sorted(side, ls)
    ensures |Flatten(ls)| >= |ls[0].orders|
    ensures forall k | 0 <= k < |Flatten(ls)| :: k < |ls[0].orders| <==> Flatten(ls)[k].price == ls[0].price
  {
    SortedTail(side, ls);
    assert forall i | 0 <= i < |ls[1..]| :: ls[1..][i] == ls[i + 1];
    FlattenWorse(side, ls[0].price, ls[1..]);
    var n, rest := |ls[0].orders|, Flatten(ls[1..]);
    forall k | 0 <= k < |Flatten(ls)| ensures k < n <==> Flatten(ls)[k].price == ls[0].price {
      if k < n {
        assert Flatten(ls)[k] == ls[0].orders[k];
      } else {
        assert Flatten(ls)[k] == rest[k - n];
      }
    }
  }

  lemma SameFirstList(side: Side, a: seq<Level>, b: seq<Level>)
    requires a != [] && b != [] && a[0].price == b[0].price && HomedLevels(a) && HomedLevels(b)
    requires Sorted(side, a) && Sorted(side, b) && Flatten(a) == Flatten(b)
    ensures a[0] == b[0] && Flatten(a[1..]) == Flatten(b[1..])
  {
    var n, m, all := |a[0].orders|, |b[0].orders|, Flatten(a);
    FirstRun(side, a);
    FirstRun(side, b);
    assert n < |all| ==> (n < m <==> all[n].price == a[0].price);
    assert m < |all| ==> (m < n <==> all[m].price == a[0].price);
    assert all[..n] == a[0].orders && all[n..] == Flatten(a[1..]);
    assert all[..n] == b[0].orders && all[n..] == Flatten(b[1..]);
  }

  // ---- a valid book stays valid ----

  predicate FlatLasting(orders: seq<OrderRecord>) {
    forall k | 0 <= k < |orders| :: Lasting(orders[k])
  }

  lemma {:induction false} LastingFlat(ls: seq<Level>)
    ensures AllLasting(ls) <==> FlatLasting(Flatten(ls))
  {
    if ls != [] {
      var first, rest := ls[0].orders, Flatten(ls[1..]);
      LastingFlat(ls[1..]);
      assert forall i | 0 <= i < |ls[1..]| :: ls[1..][i] == ls[i + 1];
      if AllLasting(ls) {
        forall k | 0 <= k < |Flatten(ls)| ensures Lasting(Flatten(ls)[k]) {
          assert Flatten(ls)[k] == if k < |first| then first[k] else rest[k - |first|];
        }
      }
      if FlatLasting(Flatten(ls)) {
        forall k | 0 <= k < |first| ensures Lasting(first[k]) {
          assert Flatten(ls)[k] == first[k];
        }
        forall k | 0 <= k < |rest| ensures Lasting(rest[k]) {
          assert Flatten(ls)[|first| + k] == rest[k];
        }
        forall i, j | 0 <= i < |ls| && 0 <= j < |ls[i].orders| ensures Lasting(ls[i].orders[j]) {
          if i > 0 { assert ls[i] == ls[1..][i - 1]; }
        }
      }
    }
  }

  lemma {:induction false} InsertLasting(side: Side, ls: seq<Level>, o: OrderRecord)
    requires AllLasting(ls) && Lasting(o)
    ensures AllLasting(Insert(side, ls, o))
  {
    if ls != [] && !Better(side, o.price, ls[0].price) && ls[0].price != o.price {
      assert forall i | 0 <= i < |ls[1..]| :: ls[1..][i] == ls[i + 1];
      InsertLasting(side, ls[1..], o);
    }
  }

  lemma LeftLasting(o: OrderRecord, queue: seq<OrderRecord>)
    requires FlatLasting(queue)
    ensures FlatLasting(Sweep(o, queue).left)
  {
    var r := Sweep(o, queue);
    SweepKeepsOrder(o, queue);
    forall j | 0 <= j < |r.left| ensures Lasting(r.left[j]) {
      var k := |queue| - |r.left| + j;
      assert r.left[j].(remaining := 0) == queue[k].(remaining := 0);
      assert r.left[j].(remaining := 0).kind == r.left[j].kind;
      assert Lasting(queue[k]);
    }
  }

  lemma QueueLasting(b: Book, e: OrderRecord)
    requires AllLasting(Opposing(b, e))
    ensures FlatLasting(Queue(b, e)) && FlatLasting(Beyond(b, e))
  {
    var opposing := Opposing(b, e);
    var n := Reach(e, opposing);
    LastingFlat(opposing[..n]);
    LastingFlat(opposing[n..]);
  }

  lemma SweptLasting(b: Book, e: OrderRecord, out: Outcome)
    requires AllLasting(Levels(b, e.side)) && AllLasting(Opposing(b, e)) && !e.kind.Market?
    requires SweptOutcome(b, e, out)
    ensures AllLasting(Levels(out.book, e.side)) && AllLasting(Opposing(out.book, e))
  {
    var r := Sweep(e, Queue(b, e));
    QueueLasting(b, e);
    LeftLasting(e, Queue(b, e));
    LastingFlat(Opposing(out.book, e));
    SweepQuantities(e, Queue(b, e));
    if r.taker.Some? && !e.kind.FillAndKill? {
      InsertLasting(e.side, Levels(b, e.side), r.taker.value);
    }
  }

  /** AddOrder keeps a book valid, whatever the order; in particular no FillAndKill or Market order rests. */
  lemma AddOrderValid(b: Book, o: OrderRecord)
    requires Valid(b)
    ensures Valid(AddOrder(b, o).book)
  {
    RefusedOrAccepted(b, o);
    if Accepted(b, o) {
      var e := Effective(b, o);
      AddOrderIsSweep(b, o);
      SweptLasting(b, e, AddOrder(b, o));
      RestConsistent(b, e);
      RestProper(b, e);
      MatchOrdersConsistent(Rest(b, e));
    }
  }

  lemma {:induction false} RemoveCalm(ls: seq<Level>, p: Price, id: OrderId)
    requires Calm(ls)
    ensures Calm(Ladder.Remove(ls, p, id))
  {
    if ls != [] {
      assert forall i | 0 <= i < |ls[1..]| :: ls[1..][i] == ls[i + 1];
      if ls[0].price == p {
        WithoutLasting(ls[0].orders, id);
      } else {
        RemoveCalm(ls[1..], p, id);
      }
    }
  }

  lemma {:induction false} WithoutLasting(orders: seq<OrderRecord>, id: OrderId)
    requires FlatLasting(orders)
    ensures FlatLasting(Without(orders, id))
  {
    if orders != [] {
      WithoutLasting(orders[1..], id);
    }
  }

  /** A removal leaves the best price of a side as it was or makes it worse. */
  lemma RemoveHead(side: Side, ls: seq<Level>, p: Price, id: OrderId)
    requires Sorted(side, ls)
    ensures var r := Ladder.Remove(ls, p, id);
            r == [] || (ls != [] && (r[0].price == ls[0].price || Better(side, ls[0].price, r[0].price)))
  {
    if ls != [] && |ls| > 1 {
      assert Better(side, ls[0].price, ls[1].price);
    }
  }

  lemma CancelValid(b: Book, id: OrderId)
    requires Valid(b)
    ensures Valid(Cancel(b, id))
  {
    CancelConsistent(b, id);
    if Resting(b, id).Some? {
      var o := Resting(b, id).value;
      RemoveCalm(Levels(b, o.side), o.price, id);
      RemoveHead(o.side, Levels(b, o.side), o.price, id);
    }
  }

  lemma {:induction false} ModifyValid(b: Book, id: OrderId, side: Side, price: Price, quantity: nat)
    requires Valid(b)
    ensures Valid(Modify(b, id, side, price, quantity).book)
  {
    CancelValid(b, id);
    if Resting(b, id).Some? {
      AddOrderValid(Cancel(b, id), NewOrder(Resting(b, id).value.kind, id, side, price, quantity));
    }
  }

  // ---- what that means for Market and FillAndKill orders ----

  lemma {:induction false} AllWithin(side: Side, limit: Price, opposing: seq<Level>)
    requires forall i | 0 <= i < |opposing| :: Crosses(side, limit, opposing[i].price)
    ensures Depth(side, limit, opposing) == |opposing|
  {
    if opposing != [] {
      assert forall i | 0 <= i < |opposing[1..]| :: opposing[1..][i] == opposing[i + 1];
      AllWithin(side, limit, opposing[1..]);
    }
  }

  /** `out` is a sweep of the whole opposing side by a GoodTillCancel order limited to `worst`, which is either filled
      or uses the side up and then stays. */
  ghost predicate WholeSideOutcome(b: Book, o: OrderRecord, worst: Price, out: Outcome) {
    var opposing := Flatten(Opposing(b, o));
    var e := OrderRecord(GoodTillCancel, o.id, o.side, worst, o.initial, o.remaining);
    var all := Sum(opposing);
    && out.trades == Sweep(e, opposing).trades
    && Traded(o.side, out.trades) == Min(o.remaining, all)
    && (forall i | 0 <= i < |out.trades| ::
          Taken(o.side, out.trades[i]).orderId == o.id && Taken(o.side, out.trades[i]).price == worst)
    && (o.remaining <= all ==> Levels(out.book, o.side) == Levels(b, o.side))
    && (o.remaining > all ==>
          && Opposing(out.book, o) == []
          && Levels(out.book, o.side) == Insert(o.side, Levels(b, o.side), e.(remaining := o.remaining - all))
          && At(out.book, o.side, worst) == At(b, o.side, worst) +
               [OrderRecord(GoodTillCancel, o.id, o.side, worst, o.initial, o.remaining - all)])
  }

  lemma RestOfMarket(ls: seq<Level>, e: OrderRecord, after: seq<Level>)
    requires Sorted(e.side, ls) && after == Insert(e.side, ls, e)
    ensures OrdersAt(after, e.price) == OrdersAt(ls, e.price) + [e]
  {
    InsertLookup(e.side, ls, e, e.price);
  }

  lemma {:induction false} WholeSideSwept(b: Book, o: OrderRecord, worst: Price, out: Outcome)
    requires o.kind.Market? && Opposing(b, o) != [] && Sorted(o.side, Levels(b, o.side))
    requires Converted(b, o) == OrderRecord(GoodTillCancel, o.id, o.side, worst, o.initial, o.remaining)
    requires Queue(b, Converted(b, o)) == Flatten(Opposing(b, o)) && Beyond(b, Converted(b, o)) == []
    requires Flatten(Opposing(b, o)) != []
    requires SweptOutcome(b, Converted(b, o), out)
    requires NoEmptyLevel(Opposing(out.book, o))
    ensures WholeSideOutcome(b, o, worst, out)
  {
    SweepQuantities(Converted(b, o), Flatten(Opposing(b, o)));
    SweepPriority(Converted(b, o), Flatten(Opposing(b, o)));
    EmptyFlatten(Opposing(out.book, o));
    var all := Sum(Flatten(Opposing(b, o)));
    if o.remaining > all {
      var rest := OrderRecord(GoodTillCancel, o.id, o.side, worst, o.initial, o.remaining - all);
      RestOfMarket(Levels(b, o.side), rest, Levels(out.book, o.side));
    }
  }

  /** A Market order trades its whole quantity, or everything on the opposing side, in priority order and at the worst
      opposing price on its own leg; only then does the rest of it stay, as a GoodTillCancel order at that price. */
  lemma MarketFillsOrEmpties(b: Book, o: OrderRecord, worst: Price)
    requires Valid(b) && Accepted(b, o) && o.kind.Market? && WorstOpposing(b, o, worst)
    ensures WholeSideOutcome(b, o, worst, AddOrder(b, o))
  {
    MarketQueue(b, o);
    EffectiveEnters(b, o);
    EntersAsOne(b, o, OrderRecord(GoodTillCancel, o.id, o.side, worst, o.initial, o.remaining));
    AddOrderIsSweep(b, o);
    AddOrderValid(b, o);
    WholeSideSwept(b, o, worst, AddOrder(b, o));
  }

  lemma MarketQueue(b: Book, o: OrderRecord)
    requires Valid(b) && Opposing(b, o) != []
    ensures var e, opposing := Converted(b, o), Opposing(b, o);
            Queue(b, e) == Flatten(opposing) && Beyond(b, e) == [] && Flatten(opposing) != []
  {
    var e, opposing := Converted(b, o), Opposing(b, o);
    forall i | 0 <= i < |opposing| ensures Crosses(o.side, e.price, opposing[i].price) {
      assert i < |opposing| - 1 ==> Better(o.side.Opposite(), opposing[i].price, opposing[|opposing| - 1].price);
    }
    AllWithin(o.side, e.price, opposing);
    assert opposing[..|opposing|] == opposing && opposing[|opposing|..] == [];
    EmptyFlatten(opposing);
  }

  lemma EmptyFlatten(ls: seq<Level>)
    requires NoEmptyLevel(ls)
    ensures Flatten(ls) == [] ==> ls == []
  {
    assert ls != [] ==> |Flatten(ls)| >= |ls[0].orders|;
  }

  lemma BestQueue(b: Book, o: OrderRecord)
    requires o.kind.FillAndKill? && CanMatch(b, o.side, o.price)
    ensures Queue(b, o) == Opposing(b, o)[0].orders && Beyond(b, o) == Flatten(Opposing(b, o)[1..])
  {
    var opposing := Opposing(b, o);
    assert opposing[..1] == [opposing[0]] + [];
    FlattenCons(opposing[0], []);
    assert opposing[0].orders + [] == opposing[0].orders;
  }

  /** `out` is one sweep of the best opposing level, the rest of the order killed. */
  ghost predicate OneLevelOutcome(b: Book, o: OrderRecord, out: Outcome)
    requires Opposing(b, o) != []
  {
    var best := Opposing(b, o)[0];
    && out.trades == Sweep(o, best.orders).trades
    && Traded(o.side, out.trades) == Min(o.remaining, Sum(best.orders))
    && Levels(out.book, o.side) == Levels(b, o.side)
    && Flatten(Opposing(out.book, o)) == Sweep(o, best.orders).left + Flatten(Opposing(b, o)[1..])
    && out.killed == (if o.remaining > Sum(best.orders)
                      then [o.(remaining := o.remaining - Sum(best.orders))] else [])
  }

  lemma OneLevelSwept(b: Book, o: OrderRecord, out: Outcome)
    requires o.kind.FillAndKill? && CanMatch(b, o.side, o.price) && Opposing(b, o)[0].orders != []
    requires SweptOutcome(b, o, out)
    ensures OneLevelOutcome(b, o, out)
  {
    BestQueue(b, o);
    SweepQuantities(o, Opposing(b, o)[0].orders);
  }

  /** A FillAndKill trades only with the best opposing level, even when deeper levels are within its limit;
      what that level could not fill is killed, and nothing of the order rests. */
  lemma FillAndKillOneLevel(b: Book, o: OrderRecord)
    requires Valid(b) && Accepted(b, o) && o.kind.FillAndKill?
    ensures OneLevelOutcome(b, o, AddOrder(b, o))
  {
    AddOrderIsSweep(b, o);
    OneLevelSwept(b, o, AddOrder(b, o));
  }
}

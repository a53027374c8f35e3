/** Exactly when a call loses a price level from the cache. */
module LostLevels {
  import opened Domain
  import opened Ladder
  import opened Matching
  import opened Consistency
  import opened Sweeping
  import opened Engine
  import opened LevelCache

  /** The quantity is just enough for the queue, with the last order of it needed. */
  predicate Exhausts(quantity: nat, queue: seq<OrderRecord>) {
    && queue != []
    && quantity == Sum(queue)
    && (|queue| == 1 || Sum(queue[..|queue| - 1]) < quantity)
  }

  /** The order ends up sharing its limit price with opposing orders, and the sweep does not clear both sides
      of that price. `opposing` is the side it meets. */
  predicate LosesLevel(o: OrderRecord, opposing: seq<Level>) {
    && OrdersAt(opposing, o.price) != []
    && (if o.kind.FillAndKill? && opposing[0].price != o.price then o.remaining <= Sum(opposing[0].orders)
        else !Exhausts(o.remaining, Flatten(opposing[..Reach(o, opposing)])))
  }

  lemma SumFront(a: seq<OrderRecord>)
    requires |a| > 1
    ensures a[1..][..|a[1..]| - 1] == a[..|a| - 1][1..]
    ensures Sum(a[..|a| - 1]) == a[0].remaining + Sum(a[1..][..|a[1..]| - 1])
  {
  }

  /** Both the taker and the queue are gone after the sweep exactly when the quantity exhausts the queue. */
  lemma {:induction false} ExhaustsMeans(taker: OrderRecord, queue: seq<OrderRecord>)
    ensures Exhausts(taker.remaining, queue) <==> Sweep(taker, queue).taker.None? && Sweep(taker, queue).left == []
    decreases |queue|
  {
    if queue != [] {
      var quantity := Min(taker.remaining, queue[0].remaining);
      if quantity < taker.remaining {
        ExhaustsMeans(Filled(taker, quantity), queue[1..]);
        if |queue| > 1 { SumFront(queue); }
      } else if |queue| > 1 {
        SumFront(queue);
      }
    }
  }

  // ---- looking up prices near the top ----

  lemma LookupTop(side: Side, p: Price, orders: seq<OrderRecord>, rest: seq<Level>, q: Price)
    requires Below(side, p, rest) && Sorted(side, rest)
    ensures OrdersAt(LevelLeft(p, orders) + rest, q) == if q == p then orders else OrdersAt(rest, q)
  {
    if orders == [] {
      assert LevelLeft(p, orders) + rest == rest;
      if q == p { OrdersAtBeyond(side, rest, p); }
    } else {
      assert (LevelLeft(p, orders) + rest)[1..] == rest;
    }
  }

  lemma OwnHasNone(side: Side, own: seq<Level>, q: Price)
    requires Sorted(side, own) && (own == [] || !Crosses(side, own[0].price, q))
    ensures OrdersAt(own, q) == []
  {
    OrdersAtBeyond(side, own, q);
  }

  lemma NotWithinReach(side: Side, limit: Price, opposing: seq<Level>)
    requires Sorted(side.Opposite(), opposing) && (opposing == [] || !Crosses(side, limit, opposing[0].price))
    ensures OrdersAt(opposing, limit) == []
  {
    OrdersAtBeyond(side.Opposite(), opposing, limit);
  }

  /** The situation in the middle of a match: the incoming order meets a crossing level. */
  ghost predicate Meeting(b: Book, o: OrderRecord, own: seq<Level>, opposing: seq<Level>) {
    && Consistent(b) && Proper(b) && Facing(b, o, own, opposing) && Calm(own) && Calm(opposing)
    && Apart(o.side, own, opposing) && !o.kind.Market?
    && opposing != [] && Crosses(o.side, o.price, opposing[0].price)
  }

  lemma MeetingShape(b: Book, o: OrderRecord, own: seq<Level>, opposing: seq<Level>)
    requires Meeting(b, o, own, opposing)
    ensures Crossed(b)
    ensures Sorted(o.side, own) && Below(o.side, o.price, own)
    ensures Sorted(o.side.Opposite(), opposing[1..]) && Below(o.side.Opposite(), opposing[0].price, opposing[1..])
    ensures OrdersAt(own, opposing[0].price) == []
    ensures OrdersAt(own, o.price) == []
    ensures OrdersAt(opposing[1..], opposing[0].price) == []
    ensures opposing[0].price == o.price ==>
              Reach(o, opposing) == 1 && (opposing[1..] == [] || !Crosses(o.side, o.price, opposing[1].price))
    ensures opposing[0].price != o.price ==> OrdersAt(opposing, o.price) == OrdersAt(opposing[1..], o.price)
  {
    var mine := Levels(b, o.side);
    SortedTail(o.side, mine);
    assert mine[1..] == own;
    SortedTail(o.side.Opposite(), opposing);
    OwnHasNone(o.side, own, opposing[0].price);
    OrdersAtBeyond(o.side, own, o.price);
    OrdersAtBeyond(o.side.Opposite(), opposing[1..], opposing[0].price);
    if opposing[0].price == o.price && opposing[1..] != [] {
      assert Better(o.side.Opposite(), opposing[0].price, opposing[1..][0].price);
      assert Depth(o.side, o.price, opposing[1..]) == 0;
    }
  }

  /** Who rests at a price after the erases of a round. */
  lemma SweptLookup(b: Book, o: OrderRecord, own: seq<Level>, opposing: seq<Level>, p: Price)
    requires Meeting(b, o, own, opposing)
    ensures var r := Sweep(o, opposing[0].orders);
            && At(Swept(b), o.side, p) == (if p == o.price then Survivor(r.taker) else OrdersAt(own, p))
            && At(Swept(b), o.side.Opposite(), p) ==
                 (if p == opposing[0].price then r.left else OrdersAt(opposing[1..], p))
  {
    MeetingShape(b, o, own, opposing);
    SweptLevels(b, o, own, opposing);
    var r := Sweep(o, opposing[0].orders);
    LookupTop(o.side, o.price, Survivor(r.taker), own, p);
    LookupTop(o.side.Opposite(), opposing[0].price, r.left, opposing[1..], p);
  }

  /** The round leaves the limit price to opposing orders alone, or to the incoming order alone. */
  predicate LostInRound(o: OrderRecord, opposing: seq<Level>)
    requires opposing != []
  {
    var r := Sweep(o, opposing[0].orders);
    if opposing[0].price == o.price then !(r.taker.None? && r.left == [])
    else r.taker.None? && OrdersAt(opposing[1..], o.price) != []
  }

  /** Of the prices that are right, the one a round can lose is the limit of the incoming order. */
  lemma SweptAgreement(b: Book, o: OrderRecord, own: seq<Level>, opposing: seq<Level>, p: Price)
    requires Meeting(b, o, own, opposing) && AgreesAt(b, p)
    ensures AgreesAt(Swept(b), p) <==> !(p == o.price && LostInRound(o, opposing))
    ensures p == o.price && LostInRound(o, opposing) ==> Entry(Swept(b).cache, p) == None && Count(Swept(b), p) > 0
  {
    MeetingShape(b, o, own, opposing);
    SweepQuantities(o, opposing[0].orders);
    SweptLookup(b, o, own, opposing, p);
    SweptAgreesAt(b, o, own, opposing, p);
    SweptLevels(b, o, own, opposing);
  }

  lemma SameViewAgrees(b: Book, r: Book, p: Price)
    requires b.bids == r.bids && b.asks == r.asks && b.cache == r.cache
    ensures AgreesAt(b, p) <==> AgreesAt(r, p)
  {
  }

  lemma FilledLoses(b: Book, o: OrderRecord, own: seq<Level>, opposing: seq<Level>)
    requires Meeting(b, o, own, opposing) && Sweep(o, opposing[0].orders).taker.None?
    ensures LosesLevel(o, opposing) <==>
            if opposing[0].price == o.price then Sweep(o, opposing[0].orders).left != []
            else OrdersAt(opposing[1..], o.price) != []
  {
    var n := Reach(o, opposing);
    MeetingShape(b, o, own, opposing);
    SweepQuantities(o, opposing[0].orders);
    ExhaustsMeans(o, Flatten(opposing[..n]));
    if opposing[0].price == o.price {
      OneLevel(opposing);
    } else if OrdersAt(opposing[1..], o.price) != [] && !o.kind.FillAndKill? {
      FirstLevel(o, opposing, n);
      SweepConcat(o, opposing[0].orders, Flatten(opposing[1..][..n - 1]));
      LimitWithinReach(o, opposing[1..]);
    }
  }

  /** Filled at the best level: matching is over, and the limit price is lost if opposing orders still rest there. */
  lemma FilledOutcome(b: Book, o: OrderRecord, own: seq<Level>, opposing: seq<Level>, p: Price)
    requires Meeting(b, o, own, opposing) && AgreesAt(b, p) && Sweep(o, opposing[0].orders).taker.None?
    ensures AgreesAt(MatchOrders(b).book, p) <==> !(p == o.price && LosesLevel(o, opposing))
  {
    StopsAfterRound(b, o, own, opposing, p);
    SweptAgreement(b, o, own, opposing, p);
    FilledLoses(b, o, own, opposing);
  }

  /** A level priced at the limit is within reach, so the orders within reach are not none. */
  lemma LimitWithinReach(o: OrderRecord, opposing: seq<Level>)
    requires Sorted(o.side.Opposite(), opposing) && NoEmptyLevel(opposing) && OrdersAt(opposing, o.price) != []
    ensures Depth(o.side, o.price, opposing) > 0
    ensures Flatten(opposing[..Depth(o.side, o.price, opposing)]) != []
  {
    if opposing == [] || !Crosses(o.side, o.price, opposing[0].price) {
      NotWithinReach(o.side, o.price, opposing);
    }
    var n := Depth(o.side, o.price, opposing);
    assert opposing[..n][0] == opposing[0];
    assert Flatten(opposing[..n])[0] == opposing[0].orders[0];
  }

  lemma StopsAfterRound(b: Book, o: OrderRecord, own: seq<Level>, opposing: seq<Level>, p: Price)
    requires Meeting(b, o, own, opposing) && (o.kind.FillAndKill? || Sweep(o, opposing[0].orders).taker.None?)
    ensures MatchOrders(b).book == MatchRound(b).0
    ensures Sweep(o, opposing[0].orders).taker.None? ==>
              (AgreesAt(MatchRound(b).0, p) <==> AgreesAt(Swept(b), p))
  {
    MeetingShape(b, o, own, opposing);
    RoundShrinks(b);
    RoundIsSweep(b, o, own, opposing);
    ApartFromRest(o.side, own, opposing, Sweep(o, opposing[0].orders).left);
    NothingBefore(own);
    StopsWhenApart(MatchRound(b).0, o.side);
    if Sweep(o, opposing[0].orders).taker.None? {
      SweptLevels(b, o, own, opposing);
      SameViewAgrees(MatchRound(b).0, Swept(b), p);
    }
  }

  /** A removal recorded at a price without an entry leaves a bogus entry whose count wrapped below zero. */
  lemma RemoveFromNothing(cache: map<Price, LevelData>, p: Price, quantity: nat)
    requires Entry(cache, p) == None
    ensures Entry(UpdateLevelData(cache, p, quantity, Action.Remove), p) ==
            Some(LevelData(Wrap(0 - quantity), TWO_32 - 1))
  {
  }

  lemma NothingBefore<T>(s: seq<T>)
    ensures [] + s == s
  {
  }

  lemma {:induction false} KilledRound(b: Book, o: OrderRecord, own: seq<Level>, opposing: seq<Level>)
    requires Meeting(b, o, own, opposing) && o.kind.FillAndKill? && Sweep(o, opposing[0].orders).taker.Some?
    ensures var r, b4 := Sweep(o, opposing[0].orders), MatchRound(b).0;
            && MatchOrders(b).book == b4
            && Levels(b4, o.side) == own && Levels(b4, o.side.Opposite()) == opposing[1..]
            && b4.cache == UpdateLevelData(Swept(b).cache, o.price, r.taker.value.remaining, Action.Remove)
  {
    StopsAfterRound(b, o, own, opposing, o.price);
    SweepQuantities(o, opposing[0].orders);
    RoundIsSweep(b, o, own, opposing);
    NothingBefore(own);
    NothingBefore(opposing[1..]);
  }

  lemma EitherSideFirst(b: Book, side: Side, p: Price)
    ensures Count(b, p) == |At(b, side, p)| + |At(b, side.Opposite(), p)|
    ensures Quantity(b, p) == Sum(At(b, side, p)) + Sum(At(b, side.Opposite(), p))
  {
  }

  lemma KilledCounts(b: Book, o: OrderRecord, own: seq<Level>, opposing: seq<Level>, b4: Book, p: Price)
    requires Meeting(b, o, own, opposing) && Sweep(o, opposing[0].orders).taker.Some?
    requires Levels(b4, o.side) == own && Levels(b4, o.side.Opposite()) == opposing[1..]
    ensures var left := Sweep(o, opposing[0].orders).taker.value.remaining;
            && Count(b4, p) == Count(Swept(b), p) - (if p == o.price then 1 else 0)
            && Quantity(b4, p) == Quantity(Swept(b), p) - if p == o.price then left else 0
  {
    MeetingShape(b, o, own, opposing);
    SweepQuantities(o, opposing[0].orders);
    SweptLookup(b, o, own, opposing, p);
    EitherSideFirst(b4, o.side, p);
    EitherSideFirst(Swept(b), o.side, p);
  }

  /** The kill is recorded correctly where the cache was right before it. */
  lemma KilledAgreement(b: Book, o: OrderRecord, own: seq<Level>, opposing: seq<Level>, b4: Book, p: Price)
    requires Meeting(b, o, own, opposing) && Sweep(o, opposing[0].orders).taker.Some? && AgreesAt(Swept(b), p)
    requires Levels(b4, o.side) == own && Levels(b4, o.side.Opposite()) == opposing[1..]
    requires b4.cache == UpdateLevelData(Swept(b).cache, o.price,
                                         Sweep(o, opposing[0].orders).taker.value.remaining, Action.Remove)
    ensures AgreesAt(b4, p)
  {
    KilledCounts(b, o, own, opposing, b4, p);
    StepAgrees(Swept(b), b4, o.price, Sweep(o, opposing[0].orders).taker.value.remaining, Action.Remove, p);
  }

  lemma OneLevel(opposing: seq<Level>)
    requires opposing != []
    ensures Flatten(opposing[..1]) == opposing[0].orders
  {
    assert opposing[..1] == [opposing[0]] + [];
    FlattenCons(opposing[0], []);
    assert opposing[0].orders + [] == opposing[0].orders;
  }

  /** A FillAndKill with something left is killed after the best level: the limit price is lost, and a bogus
      entry left behind, if that was the level. */
  lemma KilledOutcome(b: Book, o: OrderRecord, own: seq<Level>, opposing: seq<Level>, p: Price)
    requires Meeting(b, o, own, opposing) && AgreesAt(b, p)
    requires o.kind.FillAndKill? && Sweep(o, opposing[0].orders).taker.Some?
    ensures AgreesAt(MatchOrders(b).book, p) <==> !(p == o.price && LosesLevel(o, opposing))
  {
    var r, b4 := Sweep(o, opposing[0].orders), MatchOrders(b).book;
    MeetingShape(b, o, own, opposing);
    SweptAgreement(b, o, own, opposing, p);
    SweepQuantities(o, opposing[0].orders);
    KilledRound(b, o, own, opposing);
    if opposing[0].price == o.price && p == o.price {
      KilledCounts(b, o, own, opposing, b4, p);
      OneLevel(opposing);
      ExhaustsMeans(o, opposing[0].orders);
      RemoveFromNothing(Swept(b).cache, p, r.taker.value.remaining);
      assert Count(b4, p) == 0;
    } else {
      KilledAgreement(b, o, own, opposing, b4, p);
    }
  }

  /** Passing on to the next level: what will be lost is decided there, or nothing is. */
  lemma LosesLevelTail(b: Book, o: OrderRecord, own: seq<Level>, opposing: seq<Level>)
    requires Meeting(b, o, own, opposing) && !o.kind.FillAndKill?
    requires Sweep(o, opposing[0].orders).taker.Some? && opposing[0].price != o.price
    ensures LosesLevel(o, opposing) <==> LosesLevel(Sweep(o, opposing[0].orders).taker.value, opposing[1..])
  {
    var r := Sweep(o, opposing[0].orders);
    var n := Reach(o, opposing);
    MeetingShape(b, o, own, opposing);
    SweepQuantities(o, opposing[0].orders);
    FirstLevel(o, opposing, n);
    var more := Flatten(opposing[1..][..n - 1]);
    SweepConcat(o, opposing[0].orders, more);
    ExhaustsMeans(o, Flatten(opposing[..n]));
    ExhaustsMeans(r.taker.value, more);
  }

  /** Matching keeps every price right that was, except the incoming order's limit when that level is lost. */
  lemma {:induction false} LostByMatching(b: Book, o: OrderRecord, own: seq<Level>, opposing: seq<Level>, p: Price)
    requires Meeting(b, o, own, opposing) && AgreesAt(b, p)
    ensures AgreesAt(MatchOrders(b).book, p) <==> !(p == o.price && LosesLevel(o, opposing))
    decreases |opposing|
  {
    var r := Sweep(o, opposing[0].orders);
    if r.taker.None? {
      FilledOutcome(b, o, own, opposing, p);
    } else if o.kind.FillAndKill? {
      KilledOutcome(b, o, own, opposing, p);
    } else {
      ContinuedOutcome(b, o, own, opposing, p);
    }
  }

  lemma {:induction false} ContinuedRound(b: Book, o: OrderRecord, own: seq<Level>, opposing: seq<Level>, p: Price)
    requires Meeting(b, o, own, opposing) && !o.kind.FillAndKill? && Sweep(o, opposing[0].orders).taker.Some?
    ensures var b1, tail, o' := MatchRound(b).0, opposing[1..], Sweep(o, opposing[0].orders).taker.value;
            && Consistent(b1) && Proper(b1) && Facing(b1, o', own, tail) && Calm(tail) && Apart(o.side, own, tail)
            && MatchOrders(b).book == MatchOrders(b1).book
            && (AgreesAt(b1, p) <==> AgreesAt(Swept(b), p))
            && o' == o.(remaining := o'.remaining)
  {
    MeetingShape(b, o, own, opposing);
    SweepQuantities(o, opposing[0].orders);
    RoundShrinks(b);
    RoundConsistent(b);
    RoundIsSweep(b, o, own, opposing);
    LeftCalm(o, opposing);
    ApartFromRest(o.side, own, opposing, []);
    assert [] + opposing[1..] == opposing[1..];
    SweptLevels(b, o, own, opposing);
    SameViewAgrees(MatchRound(b).0, Swept(b), p);
  }

  lemma {:induction false} ContinuedOutcome(b: Book, o: OrderRecord, own: seq<Level>, opposing: seq<Level>, p: Price)
    requires Meeting(b, o, own, opposing) && AgreesAt(b, p)
    requires !o.kind.FillAndKill? && Sweep(o, opposing[0].orders).taker.Some?
    ensures AgreesAt(MatchOrders(b).book, p) <==> !(p == o.price && LosesLevel(o, opposing))
    decreases |opposing|, 0
  {
    var tail, o' := opposing[1..], Sweep(o, opposing[0].orders).taker.value;
    MeetingShape(b, o, own, opposing);
    SweptAgreement(b, o, own, opposing, p);
    SweepQuantities(o, opposing[0].orders);
    ContinuedRound(b, o, own, opposing, p);
    var b1 := MatchRound(b).0;
    if opposing[0].price == o.price {
      StopsWhenApart(b1, o.side);
      OneLevel(opposing);
      ExhaustsMeans(o, opposing[0].orders);
    } else {
      LosesLevelTail(b, o, own, opposing);
      if tail == [] || !Crosses(o.side, o.price, tail[0].price) {
        StopsWhenApart(b1, o.side);
        NotWithinReach(o.side, o.price, tail);
      } else {
        LostByMatching(b1, o', own, tail, p);
      }
    }
  }

  // ---- the public calls ----

  /** The condition a caller can check beforehand under which AddOrder loses a level from the cache. */
  predicate AddLosesLevel(b: Book, o: OrderRecord) {
    Accepted(b, o) && LosesLevel(Effective(b, o), Opposing(b, o))
  }

  /** Price by price, whatever the cache says of the other prices: AddOrder leaves a right price right if and only
      if it is not the order's limit at which a level is lost. */
  lemma AddOrderCacheAt(b: Book, o: OrderRecord, p: Price)
    requires Valid(b) && AgreesAt(b, p) && o.initial == o.remaining
    requires p == Effective(b, o).price ==> Count(b, p) + 1 < TWO_32
    ensures AgreesAt(AddOrder(b, o).book, p) <==> !(p == Effective(b, o).price && AddLosesLevel(b, o))
  {
    RefusedOrAccepted(b, o);
    if Accepted(b, o) {
      var e := Effective(b, o);
      RestConsistent(b, e);
      RestProper(b, e);
      RestAgrees(b, e, p);
      if CanMatch(b, e.side, e.price) {
        CrossingGoesOnTop(b, e);
        LostByMatching(Rest(b, e), e, Levels(b, e.side), Opposing(b, e), p);
        SameViewAgrees(AddOrder(b, o).book, MatchOrders(Rest(b, e)).book, p);
      } else {
        PlaceQuiet(b, e);
        NotWithinReach(e.side, e.price, Opposing(b, e));
      }
    }
  }

  /** A new order that crosses nothing is counted with its initial quantity, whatever is left of it. */
  lemma QuietAddEntry(b: Book, o: OrderRecord)
    requires Valid(b) && Accepted(b, o) && !o.kind.Market? && !CanMatch(b, o.side, o.price)
    ensures var before := if o.price in b.cache then b.cache[o.price] else LevelData(0, 0);
            before.count + 1 < TWO_32 ==>
              Entry(AddOrder(b, o).book.cache, o.price) ==
              Some(LevelData((before.quantity + o.initial) % TWO_32, before.count + 1))
  {
    RefusedOrAccepted(b, o);
    PlaceQuiet(b, o);
  }

  /** On a valid book with a right cache, AddOrder leaves the cache right if and only if it does not lose a level. */
  lemma AddOrderCache(b: Book, o: OrderRecord)
    requires Valid(b) && CacheAgrees(b) && o.initial == o.remaining
    requires Count(b, Effective(b, o).price) + 1 < TWO_32
    ensures CacheAgrees(AddOrder(b, o).book) <==> !AddLosesLevel(b, o)
  {
    forall p: Price
      ensures AgreesAt(AddOrder(b, o).book, p) <==> !(p == Effective(b, o).price && AddLosesLevel(b, o))
    {
      assert AgreesAt(b, p);
      AddOrderCacheAt(b, o, p);
    }
    assert CacheAgrees(AddOrder(b, o).book) ==> AgreesAt(AddOrder(b, o).book, Effective(b, o).price);
  }

  /** A modification is judged as the AddOrder that follows its cancel, price by price. */
  lemma ModifyCacheAt(b: Book, id: OrderId, side: Side, price: Price, quantity: nat, p: Price)
    requires Valid(b) && AgreesAt(b, p) && Resting(b, id).Some?
    requires var o := NewOrder(Resting(b, id).value.kind, id, side, price, quantity);
             p == Effective(Cancel(b, id), o).price ==> Count(Cancel(b, id), p) + 1 < TWO_32
    ensures var b1, o := Cancel(b, id), NewOrder(Resting(b, id).value.kind, id, side, price, quantity);
            AgreesAt(Modify(b, id, side, price, quantity).book, p) <==>
            !(p == Effective(b1, o).price && AddLosesLevel(b1, o))
  {
    CancelValid(b, id);
    CancelAgrees(b, id, p);
    AddOrderCacheAt(Cancel(b, id), NewOrder(Resting(b, id).value.kind, id, side, price, quantity), p);
  }
}

/** Where the quantity goes: conservation, trade prices and the number of trades, for calls and whole runs. */
module Ledger {
  import opened Domain
  import opened Ladder
  import opened Matching
  import opened Consistency
  import opened Sweeping
  import opened Engine

  /** Quantity resting on a side. */
  function Total(b: Book, side: Side): nat {
    Sum(Flatten(Levels(b, side)))
  }

  /** Remaining quantity of those orders of the list that are on `side`. */
  function SideSum(side: Side, orders: seq<OrderRecord>): nat {
    if orders == [] then 0
    else (if orders[0].side == side then orders[0].remaining else 0) + SideSum(side, orders[1..])
  }

  lemma {:induction false} SideSumConcat(side: Side, a: seq<OrderRecord>, b: seq<OrderRecord>)
    ensures SideSum(side, a + b) == SideSum(side, a) + SideSum(side, b)
  {
    if a == [] {
      assert a + b == b;
    } else {
      SideSumConcat(side, a[1..], b);
      assert (a + b)[1..] == a[1..] + b;
    }
  }

  // ---- single steps ----

  lemma FrontFillSum(ls: seq<Level>, quantity: nat)
    requires ls != [] && ls[0].orders != [] && quantity <= ls[0].orders[0].remaining
    ensures Sum(Flatten(FrontAfterFill(ls, Filled(ls[0].orders[0], quantity)))) == Sum(Flatten(ls)) - quantity
  {
    var o := Filled(ls[0].orders[0], quantity);
    var front := if o.remaining == 0 then [] else [o];
    var rest := ls[0].orders[1..];
    FlattenCons(Level(ls[0].price, front + rest), ls[1..]);
    SumConcat(front + rest, Flatten(ls[1..]));
    SumConcat(front, rest);
    SumConcat(ls[0].orders, Flatten(ls[1..]));
  }

  lemma MatchFrontsSum(b: Book, side: Side)
    requires BothFronts(b)
    ensures Total(MatchFronts(b).0, side) == Total(b, side) - Taken(side, MatchFronts(b).1).quantity
  {
    var quantity := Min(b.bids[0].orders[0].remaining, b.asks[0].orders[0].remaining);
    FrontFillSum(b.bids, quantity);
    FrontFillSum(b.asks, quantity);
  }

  lemma {:induction false} MatchLevelSum(b: Book, side: Side)
    ensures Total(MatchLevel(b).0, side) + Traded(side, MatchLevel(b).1) == Total(b, side)
    decreases FrontSize(b)
  {
    if BothFronts(b) {
      var b1 := MatchFronts(b).0;
      MatchFrontsSum(b, side);
      MatchLevelSum(b1, side);
      assert MatchLevel(b).1[1..] == MatchLevel(b1).1;
    }
  }

  lemma EraseSum(b: Book, erased: Side, side: Side)
    ensures Total(EraseIfEmpty(b, erased), side) == Total(b, side)
  {
    var ls := Levels(b, erased);
    if ls != [] && ls[0].orders == [] {
      assert Flatten(ls) == Flatten(ls[1..]);
    }
  }

  lemma {:induction false} RemoveSum(ls: seq<Level>, p: Price, k: nat)
    requires k < |OrdersAt(ls, p)| && Distinct(OrdersAt(ls, p))
    ensures Sum(Flatten(Ladder.Remove(ls, p, OrdersAt(ls, p)[k].id))) == Sum(Flatten(ls)) - OrdersAt(ls, p)[k].remaining
  {
    var id := OrdersAt(ls, p)[k].id;
    SumConcat(ls[0].orders, Flatten(ls[1..]));
    if ls[0].price == p {
      WithoutCut(ls[0].orders, k);
      SumCut(ls[0].orders, k);
      var rest := Without(ls[0].orders, id);
      FlattenLeft(p, rest, ls[1..]);
      SumConcat(rest, Flatten(ls[1..]));
      assert Ladder.Remove(ls, p, id) == LevelLeft(p, rest) + ls[1..];
    } else {
      RemoveSum(ls[1..], p, k);
      FlattenCons(ls[0], Ladder.Remove(ls[1..], p, id));
      SumConcat(ls[0].orders, Flatten(Ladder.Remove(ls[1..], p, id)));
    }
  }

  /** A cancel takes exactly the remaining quantity of its order off the order's side. */
  lemma CancelSum(b: Book, id: OrderId, side: Side)
    requires Consistent(b)
    ensures Total(Cancel(b, id), side) ==
            Total(b, side) - SideSum(side, Survivor(Resting(b, id)))
  {
    if id in b.index {
      var k := RestingFound(b, id);
      var o := Resting(b, id).value;
      assert ListOk(b.index, o.side, o.price, At(b, o.side, o.price));
      RemoveSum(Levels(b, o.side), o.price, k);
    }
  }

  lemma KillSum(b: Book, killed: Side, side: Side)
    requires Consistent(b)
    ensures Total(KillFront(b, killed).0, side) + SideSum(side, KillFront(b, killed).1) == Total(b, side)
  {
    var ls := Levels(b, killed);
    if ls != [] && ls[0].orders != [] && ls[0].orders[0].kind.FillAndKill? {
      var o := ls[0].orders[0];
      FrontHomed(b, killed);
      CancelSum(b, o.id, side);
      CancelConsistent(b, o.id);
      assert Resting(b, o.id) == Some(o);
    }
  }

  lemma RoundSum(b: Book, side: Side)
    requires Consistent(b)
    ensures var (b', ts, ks) := MatchRound(b);
            Total(b', side) + Traded(side, ts) + SideSum(side, ks) == Total(b, side)
  {
    MatchLevelSum(b, side);
    SweptConsistent(b);
    EraseSum(MatchLevel(b).0, Buy, side);
    EraseSum(EraseIfEmpty(MatchLevel(b).0, Buy), Sell, side);
    var b2 := Swept(b);
    KillConsistent(b2, Buy);
    KillSum(b2, Buy, side);
    KillSum(KillFront(b2, Buy).0, Sell, side);
    SideSumConcat(side, KillFront(b2, Buy).1, KillFront(KillFront(b2, Buy).0, Sell).1);
  }

  /** Matching moves quantity from the book into trades and kills and nowhere else. */
  lemma {:induction false} MatchOrdersSum(b: Book, side: Side)
    requires Consistent(b) && Proper(b)
    ensures var out := MatchOrders(b);
            Total(out.book, side) + Traded(side, out.trades) + SideSum(side, out.killed) == Total(b, side)
    decreases Orders(b)
  {
    if Crossed(b) {
      var (b1, ts, ks) := MatchRound(b);
      RoundShrinks(b);
      RoundConsistent(b);
      RoundSum(b, side);
      MatchOrdersSum(b1, side);
      TradedConcat(side, ts, MatchOrders(b1).trades);
      SideSumConcat(side, ks, MatchOrders(b1).killed);
    }
  }

  lemma {:induction false} SumMiddle(a: seq<OrderRecord>, o: OrderRecord, c: seq<OrderRecord>)
    ensures Sum(a + [o] + c) == Sum(a + c) + o.remaining
  {
    SumConcat(a, c);
    SumConcat(a + [o], c);
    SumConcat(a, [o]);
  }

  lemma {:induction false} InsertSum(side: Side, ls: seq<Level>, o: OrderRecord)
    requires Sorted(side, ls)
    ensures Sum(Flatten(Insert(side, ls, o))) == Sum(Flatten(ls)) + o.remaining
  {
    var k := Ahead(side, ls, o.price);
    InsertFlatten(side, ls, o);
    assert ls == ls[..k] + ls[k..];
    FlattenConcat(ls[..k], ls[k..]);
    SumMiddle(Flatten(ls[..k]), o, Flatten(ls[k..]));
  }

  lemma RestSum(b: Book, o: OrderRecord, side: Side)
    requires Sorted(o.side, Levels(b, o.side))
    ensures Total(Rest(b, o), side) == Total(b, side) + SideSum(side, [o])
  {
    InsertSum(o.side, Levels(b, o.side), o);
  }

  /** One AddOrder: what came in equals what now rests more, traded, or was killed. */
  lemma {:induction false} AddOrderSum(b: Book, o: OrderRecord, side: Side)
    requires Valid(b)
    ensures var out := AddOrder(b, o);
            Total(b, side) + SideSum(side, Survivor(out.placed)) ==
            Total(out.book, side) + Traded(side, out.trades) + SideSum(side, out.killed)
  {
    RefusedOrAccepted(b, o);
    if Accepted(b, o) {
      var e := Effective(b, o);
      RestConsistent(b, e);
      RestProper(b, e);
      RestSum(b, e, side);
      MatchOrdersSum(Rest(b, e), side);
    }
  }

  // ---- trades: limit prices respected, equal legs, never more than the orders present ----

  predicate FairTrade(t: Trade) {
    t.bid.price >= t.ask.price && t.bid.quantity == t.ask.quantity
  }

  predicate FairTrades(ts: seq<Trade>) {
    forall i | 0 <= i < |ts| :: FairTrade(ts[i])
  }

  lemma IndexLosesOne(index: Index, id: OrderId)
    requires id in index
    ensures |index - {id}| == |index| - 1
  {
    assert (index - {id}).Keys == index.Keys - {id};
  }

  lemma FillFrontIndex(b: Book, side: Side, quantity: nat)
    requires Consistent(b) && Levels(b, side) != [] && Levels(b, side)[0].orders != []
    requires quantity <= Levels(b, side)[0].orders[0].remaining
    ensures |FillFront(b, side, quantity).index| ==
            |b.index| - if quantity == Levels(b, side)[0].orders[0].remaining then 1 else 0
  {
    FrontHomed(b, side);
    IndexLosesOne(b.index, Levels(b, side)[0].orders[0].id);
  }

  lemma MatchFrontsFair(b: Book)
    requires Consistent(b) && BothFronts(b) && Crossed(b)
    ensures FairTrade(MatchFronts(b).1)
    ensures Crossed(MatchFronts(b).0)
    ensures |MatchFronts(b).0.index| < |b.index|
  {
    FrontHomed(b, Buy);
    FrontHomed(b, Sell);
    var quantity := Min(b.bids[0].orders[0].remaining, b.asks[0].orders[0].remaining);
    FillFrontIndex(b, Buy, quantity);
    FillFrontConsistent(b, Buy, quantity);
    FillFrontIndex(FillFront(b, Buy, quantity), Sell, quantity);
  }

  lemma FairCons(t: Trade, ts: seq<Trade>)
    requires FairTrade(t) && FairTrades(ts)
    ensures FairTrades([t] + ts) && |[t] + ts| == 1 + |ts|
  {
  }

  lemma {:induction false} MatchLevelFair(b: Book)
    requires Consistent(b) && Crossed(b)
    ensures FairTrades(MatchLevel(b).1)
    ensures |MatchLevel(b).1| + |MatchLevel(b).0.index| <= |b.index|
    decreases FrontSize(b)
  {
    if BothFronts(b) {
      var (b1, t) := MatchFronts(b);
      MatchFrontsFair(b);
      MatchFrontsConsistent(b);
      MatchLevelFair(b1);
      FairCons(t, MatchLevel(b1).1);
    }
  }

  lemma KillIndex(b: Book, killed: Side)
    requires Consistent(b)
    ensures |KillFront(b, killed).0.index| + |KillFront(b, killed).1| == |b.index|
  {
    var ls := Levels(b, killed);
    if ls != [] && ls[0].orders != [] && ls[0].orders[0].kind.FillAndKill? {
      FrontHomed(b, killed);
      CancelConsistent(b, ls[0].orders[0].id);
      IndexLosesOne(b.index, ls[0].orders[0].id);
    }
  }

  /** Both kills of a round take exactly the killed orders off the index. */
  lemma KillsIndex(b: Book)
    requires Consistent(b)
    ensures var (b3, k1) := KillFront(b, Buy);
            var (b4, k2) := KillFront(b3, Sell);
            |k1 + k2| + |b4.index| == |b.index|
  {
    KillConsistent(b, Buy);
    KillIndex(b, Buy);
    KillIndex(KillFront(b, Buy).0, Sell);
  }

  lemma SweptIndex(b: Book)
    ensures Swept(b).index == MatchLevel(b).0.index
  {
  }

  lemma RoundFair(b: Book)
    requires Consistent(b) && Crossed(b)
    ensures var (b', ts, ks) := MatchRound(b);
            FairTrades(ts) && |ts| + |ks| + |b'.index| <= |b.index|
  {
    MatchLevelFair(b);
    SweptConsistent(b);
    SweptIndex(b);
    KillsIndex(Swept(b));
  }

  /** No trade is outside either limit, and every trade uses up at least one of the orders on the book, so
      the number of trades never exceeds the number of orders present at entry. */
  lemma {:induction false} MatchOrdersFair(b: Book)
    requires Consistent(b) && Proper(b)
    ensures var out := MatchOrders(b);
            FairTrades(out.trades) && |out.trades| + |out.killed| + |out.book.index| <= |b.index|
    decreases Orders(b)
  {
    if Crossed(b) {
      RoundShrinks(b);
      RoundConsistent(b);
      RoundFair(b);
      MatchOrdersFair(MatchRound(b).0);
    }
  }

  // ---- whole runs ----

  datatype Command =
    | Submit(kind: OrderType, id: OrderId, side: Side, price: Price, quantity: nat)
    | CancelOrder(id: OrderId)
    | ModifyOrder(id: OrderId, side: Side, price: Price, quantity: nat)

  function Apply(b: Book, c: Command): Outcome
    requires Proper(b)
  {
    match c
    case Submit(kind, id, side, price, quantity) => AddOrder(b, NewOrder(kind, id, side, price, quantity))
    case CancelOrder(id) => Refused(Cancel(b, id))
    case ModifyOrder(id, side, price, quantity) => Modify(b, id, side, price, quantity)
  }

  /** The order a command takes off the book before anything else happens. */
  function Withdrawn(b: Book, c: Command): seq<OrderRecord> {
    if c.Submit? then [] else Survivor(Resting(b, c.id))
  }

  /** Every public call keeps the book valid. */
  lemma ApplyValid(b: Book, c: Command)
    requires Valid(b)
    ensures Valid(Apply(b, c).book)
  {
    match c
    case Submit(kind, id, side, price, quantity) => AddOrderValid(b, NewOrder(kind, id, side, price, quantity));
    case CancelOrder(id) => CancelValid(b, id);
    case ModifyOrder(id, side, price, quantity) => ModifyValid(b, id, side, price, quantity);
  }

  lemma ApplySum(b: Book, c: Command, side: Side)
    requires Valid(b)
    ensures var out := Apply(b, c);
            Total(b, side) + SideSum(side, Survivor(out.placed)) ==
            Total(out.book, side) + Traded(side, out.trades) + SideSum(side, out.killed) +
            SideSum(side, Withdrawn(b, c))
  {
    match c
    case Submit(kind, id, s, price, quantity) =>
      AddOrderSum(b, NewOrder(kind, id, s, price, quantity), side);
    case CancelOrder(id) =>
      CancelSum(b, id, side);
    case ModifyOrder(id, s, price, quantity) =>
      CancelSum(b, id, side);
      if Resting(b, id).Some? {
        CancelValid(b, id);
        AddOrderSum(Cancel(b, id), NewOrder(Resting(b, id).value.kind, id, s, price, quantity), side);
      }
  }

  lemma ApplyFair(b: Book, c: Command)
    requires Valid(b)
    ensures FairTrades(Apply(b, c).trades)
  {
    if !c.CancelOrder? && (c.ModifyOrder? ==> Resting(b, c.id).Some?) {
      CancelValid(b, c.id);
      var base := if c.Submit? then b else Cancel(b, c.id);
      var o := if c.Submit? then NewOrder(c.kind, c.id, c.side, c.price, c.quantity)
               else NewOrder(Resting(b, c.id).value.kind, c.id, c.side, c.price, c.quantity);
      RefusedOrAccepted(base, o);
      if Accepted(base, o) {
        RestConsistent(base, Effective(base, o));
        RestProper(base, Effective(base, o));
        MatchOrdersFair(Rest(base, Effective(base, o)));
      }
    }
  }

  /** Everything that happened in a run of commands on an initially empty book. */
  datatype History = History(book: Book, placed: seq<OrderRecord>, trades: seq<Trade>,
                             killed: seq<OrderRecord>, withdrawn: seq<OrderRecord>)

  ghost function Run(commands: seq<Command>): (h: History)
    ensures Valid(h.book)
  {
    if commands == [] then
      EmptyValid();
      History(EMPTY_BOOK, [], [], [], [])
    else
      var n := |commands| - 1;
      var h := Run(commands[..n]);
      var out := Apply(h.book, commands[n]);
      ApplyValid(h.book, commands[n]);
      History(out.book, h.placed + Survivor(out.placed), h.trades + out.trades, h.killed + out.killed,
              h.withdrawn + Withdrawn(h.book, commands[n]))
  }

  lemma {:induction false} RunSnoc(commands: seq<Command>, c: Command)
    ensures Run(commands + [c]).book == Apply(Run(commands).book, c).book
  {
    assert (commands + [c])[..|commands|] == commands;
  }

  /** After any run the best bid is below the best ask, no level is empty, index and sides agree, and no
      FillAndKill or Market order rests. */
  lemma {:induction false} RunUncrossed(commands: seq<Command>)
    ensures var b := Run(commands).book;
            && Consistent(b)
            && (b.bids != [] && b.asks != [] ==> b.bids[0].price < b.asks[0].price)
            && NoEmptyLevel(b.bids) && NoEmptyLevel(b.asks)
            && AllLasting(b.bids) && AllLasting(b.asks)
  {
    assert Valid(Run(commands).book);
  }

  /** Conservation over any run, for each side: accepted = resting + traded + killed + withdrawn. */
  lemma {:induction false} RunConserves(commands: seq<Command>, side: Side)
    ensures var h := Run(commands);
            SideSum(side, h.placed) ==
            Total(h.book, side) + Traded(side, h.trades) + SideSum(side, h.killed) + SideSum(side, h.withdrawn)
    ensures FairTrades(Run(commands).trades)
    ensures Traded(Buy, Run(commands).trades) == Traded(Sell, Run(commands).trades)
  {
    if commands != [] {
      var n := |commands| - 1;
      var h := Run(commands[..n]);
      var out := Apply(h.book, commands[n]);
      RunConserves(commands[..n], side);
      ApplySum(h.book, commands[n], side);
      ApplyFair(h.book, commands[n]);
      SideSumConcat(side, h.placed, Survivor(out.placed));
      TradedConcat(side, h.trades, out.trades);
      SideSumConcat(side, h.killed, out.killed);
      SideSumConcat(side, h.withdrawn, Withdrawn(h.book, commands[n]));
    }
    EqualLegs(Run(commands).trades);
  }

  lemma {:induction false} EqualLegs(ts: seq<Trade>)
    requires FairTrades(ts)
    ensures Traded(Buy, ts) == Traded(Sell, ts)
  {
    if ts != [] {
      assert FairTrade(ts[0]);
      EqualLegs(ts[1..]);
    }
  }
}

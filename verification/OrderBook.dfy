/** The order book as the engine runs it: fields updated in place by loops, against the functions of Matching. */
module OrderBooks {
  import opened Domain
  import opened Ladder
  import opened Matching
  import opened Consistency
  import opened Sweeping
  import opened Engine
  import opened FillOrKill
  import opened BookViews

  class Order {
    const id: OrderId
    const side: Side
    const initial: nat
    var kind: OrderType
    var price: Price
    var remaining: nat

    constructor (kind: OrderType, id: OrderId, side: Side, price: Price, quantity: nat)
      ensures View() == NewOrder(kind, id, side, price, quantity)
    {
      this.id, this.side, this.initial := id, side, quantity;
      this.kind, this.price, this.remaining := kind, price, quantity;
    }

    /** The order's value at this moment. */
    function View(): OrderRecord
      reads this
    {
      OrderRecord(kind, id, side, price, initial, remaining)
    }

    /** Takes `quantity` off what remains; a fill larger than that is silently ignored. */
    method Fill(quantity: nat)
      modifies this`remaining
      ensures quantity <= old(remaining) ==> View() == Filled(old(View()), quantity)
      ensures quantity > old(remaining) ==> View() == old(View())
    {
      if quantity > remaining {
        return;
      }
      remaining := remaining - quantity;
    }

    /** Turns a Market order into a GoodTillCancel one at `price`; any other order is an error and stays as it is. */
    method ToGoodTillCancel(price: Price) returns (ok: bool)
      modifies this`price, this`kind
      ensures ok <==> old(kind).Market?
      ensures View() == if ok then old(View()).(kind := GoodTillCancel, price := price) else old(View())
    {
      if !kind.Market? {
        return false;
      }
      this.price := price;
      kind := GoodTillCancel;
      return true;
    }
  }

  /** An order after Fill: a fill larger than what remains is ignored. */
  function AfterFill(o: OrderRecord, quantity: nat): OrderRecord {
    if quantity > o.remaining then o else Filled(o, quantity)
  }

  /** An order after one trade, which fills it if it is the one named on its side. */
  function AfterTrade(o: OrderRecord, t: Trade): OrderRecord {
    if Taken(o.side, t).orderId == o.id then AfterFill(o, Taken(o.side, t).quantity) else o
  }

  function AfterTrades(o: OrderRecord, ts: seq<Trade>): OrderRecord
    decreases |ts|
  {
    if ts == [] then o else AfterTrades(AfterTrade(o, ts[0]), ts[1..])
  }

  lemma {:induction false} AfterTradesConcat(o: OrderRecord, a: seq<Trade>, b: seq<Trade>)
    ensures AfterTrades(o, a + b) == AfterTrades(AfterTrades(o, a), b)
    decreases |a|
  {
    if a == [] {
      assert a + b == b;
    } else {
      assert (a + b)[1..] == a[1..] + b;
      AfterTradesConcat(AfterTrade(o, a[0]), a[1..], b);
    }
  }

  lemma AfterTradesSnoc(o: OrderRecord, ts: seq<Trade>, t: Trade)
    ensures AfterTrades(o, ts + [t]) == AfterTrade(AfterTrades(o, ts), t)
  {
    AfterTradesConcat(o, ts, [t]);
  }

  /** No fill of a sweep is ever refused: what remains of the incoming order is what it did not trade. */
  lemma {:induction false} SweepFills(taker: OrderRecord, queue: seq<OrderRecord>)
    ensures var ts := Sweep(taker, queue).trades;
            && Traded(taker.side, ts) <= taker.remaining
            && AfterTrades(taker, ts) == Filled(taker, Traded(taker.side, ts))
    decreases |queue|
  {
    if queue != [] {
      var quantity := Min(taker.remaining, queue[0].remaining);
      var taker' := Filled(taker, quantity);
      if taker'.remaining != 0 {
        SweepFills(taker', queue[1..]);
        assert Sweep(taker, queue).trades[1..] == Sweep(taker', queue[1..]).trades;
      }
    }
  }

  lemma CachedSumGrows(cache: map<Price, LevelData>, s: set<Price>, t: set<Price>)
    requires s <= t <= cache.Keys
    ensures CachedSum(cache, s) <= CachedSum(cache, t)
    decreases t - s
  {
    if s != t {
      assert t == s + (t - s);
      EmptyOrInhabited(t - s);
      var x :| x in t - s;
      CachedSumAny(cache, s + {x}, x);
      assert s + {x} - {x} == s;
      CachedSumGrows(cache, s + {x}, t);
    }
  }

  /** One more turn of a 32-bit running sum. */
  lemma SumSnoc(os: seq<OrderRecord>, j: nat)
    requires j < |os|
    ensures Wrap(Sum(os[..j + 1])) == Wrap(Wrap(Sum(os[..j])) + os[j].remaining)
  {
    assert os[..j + 1] == os[..j] + [os[j]];
    SumConcat(os[..j], [os[j]]);
  }

  class OrderBook {
    var levelData: map<Price, LevelData>
    var bids: seq<Level>
    var asks: seq<Level>
    var orders: map<OrderId, Location>

    constructor ()
      ensures State() == EMPTY_BOOK && Valid(State())
    {
      levelData, bids, asks, orders := map[], [], [], map[];
      new;
      EmptyValid();
    }

    function State(): Book
      reads this
    {
      Book(bids, asks, orders, levelData)
    }

    // ---- queries ----

    method Size() returns (n: nat)
      requires Valid(State())
      ensures n == Orders(State())
    {
      IndexCounts(State());
      n := |orders|;
    }

    method CanMatch(side: Side, price: Price) returns (ok: bool)
      ensures ok <==> Matching.CanMatch(State(), side, price)
    {
      if side.Buy? {
        return asks != [] && price >= asks[0].price;
      } else {
        return bids != [] && price <= bids[0].price;
      }
    }

    /** The scan of the unordered cache: entries come in any order, and the first that covers the rest ends it. */
    method CanFullyFill(side: Side, price: Price, quantity: nat) returns (ok: bool)
      ensures ok <==> Matching.CanFullyFill(State(), side, price, quantity)
    {
      var crossing := CanMatch(side, price);
      if !crossing {
        return false;
      }
      var threshold := if side.Buy? then asks[0].price else bids[0].price;
      ghost var window := Window(State(), side, price);
      ghost var counted: set<Price> := {};
      var rest, todo := quantity, levelData.Keys;
      while todo != {}
        invariant todo <= levelData.Keys && counted <= window && counted == window - todo
        invariant quantity == rest + CachedSum(levelData, counted) && (counted != {} ==> rest > 0)
        decreases todo
      {
        EmptyOrInhabited(todo);
        var p :| p in todo;
        todo := todo - {p};
        if (side.Buy? && threshold > p) || (side.Sell? && threshold < p) {
          continue;
        }
        if (side.Buy? && p > price) || (side.Sell? && p < price) {
          continue;
        }
        assert p in window && counted + {p} == window - todo && counted + {p} - {p} == counted;
        CachedSumAny(levelData, counted + {p}, p);
        if rest <= levelData[p].quantity {
          CachedSumGrows(levelData, counted + {p}, window);
          return true;
        }
        rest := rest - levelData[p].quantity;
        counted := counted + {p};
      }
      assert counted == window;
      return false;
    }

    method GetOrderInfos() returns (bidInfos: seq<LevelInfo>, askInfos: seq<LevelInfo>)
      requires Valid(State())
      ensures Describes(State(), Buy, bidInfos) && Describes(State(), Sell, askInfos)
    {
      InfosDescribe(State(), Buy);
      InfosDescribe(State(), Sell);
      bidInfos := CreateLevelInfos(bids);
      askInfos := CreateLevelInfos(asks);
    }

    static method CreateLevelInfos(ls: seq<Level>) returns (infos: seq<LevelInfo>)
      ensures infos == LevelInfos(ls)
    {
      infos := [];
      for i := 0 to |ls|
        invariant |infos| == i && forall k | 0 <= k < i :: infos[k] == LevelInfos(ls)[k]
      {
        var runningSum := TotalRemaining(ls[i].orders);
        infos := infos + [LevelInfo(ls[i].price, runningSum)];
      }
    }

    static method TotalRemaining(os: seq<OrderRecord>) returns (runningSum: nat)
      ensures runningSum == Wrap(Sum(os))
    {
      runningSum := 0;
      for j := 0 to |os|
        invariant runningSum == Wrap(Sum(os[..j]))
      {
        SumSnoc(os, j);
        runningSum := Wrap(runningSum + os[j].remaining);
      }
      assert os[..|os|] == os;
    }

    // ---- steps ----

    method UpdateLevelData(price: Price, quantity: nat, action: Action)
      modifies this`levelData
      ensures levelData == Matching.UpdateLevelData(old(levelData), price, quantity, action)
    {
      var data := if price in levelData then levelData[price] else LevelData(0, 0);
      var change := if action.Remove? then -1 else if action.Add? then 1 else 0;
      var total := if action.Remove? || action.Match? then data.quantity - quantity else data.quantity + quantity;
      data := LevelData(Wrap(total), Wrap(data.count + change));
      if data.count == 0 {
        levelData := levelData - {price};
      } else {
        levelData := levelData[price := data];
      }
    }

    method OnOrderMatched(price: Price, quantity: nat, isFullyFilled: bool)
      modifies this`levelData
      ensures levelData == Matching.UpdateLevelData(old(levelData), price, quantity,
                                                    if isFullyFilled then Action.Remove else Action.Match)
    {
      UpdateLevelData(price, quantity, if isFullyFilled then Action.Remove else Action.Match);
    }

    method CancelOrderInternal(id: OrderId)
      modifies this
      ensures State() == Cancel(old(State()), id)
    {
      if id !in orders {
        return;
      }
      var found := Resting(State(), id);
      if found.None? {
        return;
      }
      var order := found.value;
      orders := orders - {id};
      if order.side.Buy? {
        bids := Ladder.Remove(bids, order.price, id);
      } else {
        asks := Ladder.Remove(asks, order.price, id);
      }
      UpdateLevelData(order.price, order.remaining, Action.Remove);
    }

    /** One turn of the inner loop of MatchOrders. `incoming` is the caller's order, which the trade may fill. */
    method MatchBest(incoming: Order) returns (trade: Trade)
      requires BothFronts(State())
      modifies this, incoming`remaining
      ensures (State(), trade) == MatchFronts(old(State()))
      ensures incoming.View() == AfterTrade(old(incoming.View()), trade)
    {
      var bid, ask := bids[0].orders[0], asks[0].orders[0];
      var quantity := Min(bid.remaining, ask.remaining);
      bid, ask := Filled(bid, quantity), Filled(ask, quantity);
      bids := FrontAfterFill(bids, bid);
      if bid.remaining == 0 {
        orders := orders - {bid.id};
      }
      asks := FrontAfterFill(asks, ask);
      if ask.remaining == 0 {
        orders := orders - {ask.id};
      }
      trade := Trade(TradeInfo(bid.id, bid.price, quantity), TradeInfo(ask.id, ask.price, quantity));
      OnOrderMatched(bid.price, quantity, bid.remaining == 0);
      OnOrderMatched(ask.price, quantity, ask.remaining == 0);
      if (if incoming.side.Buy? then bid.id else ask.id) == incoming.id {
        incoming.Fill(quantity);
      }
    }

    /** The inner loop of MatchOrders. */
    method MatchLevels(incoming: Order) returns (trades: seq<Trade>)
      requires bids != [] && asks != []
      modifies this, incoming`remaining
      ensures (State(), trades) == MatchLevel(old(State()))
      ensures incoming.View() == AfterTrades(old(incoming.View()), trades)
      ensures bids != [] && asks != []
    {
      trades := [];
      ghost var start, now := State(), State();
      assert trades + MatchLevel(now).1 == MatchLevel(now).1;
      while bids[0].orders != [] && asks[0].orders != []
        invariant bids != [] && asks != [] && now == State()
        invariant MatchLevel(start) == (MatchLevel(now).0, trades + MatchLevel(now).1)
        invariant incoming.View() == AfterTrades(old(incoming.View()), trades)
        decreases FrontSize(now)
      {
        var trade := MatchBest(incoming);
        ConcatAssociates(trades, [trade], MatchLevel(State()).1);
        AfterTradesSnoc(old(incoming.View()), trades, trade);
        trades, now := trades + [trade], State();
      }
      assert MatchLevel(now) == (now, []) && trades + [] == trades;
    }

    /** Drop the level of a side that ran empty, together with the cache entry of its price. */
    method DropEmptyLevel(side: Side)
      modifies this
      ensures State() == EraseIfEmpty(old(State()), side)
    {
      if side.Buy? && bids != [] && bids[0].orders == [] {
        levelData := levelData - {bids[0].price};
        bids := bids[1..];
      } else if side.Sell? && asks != [] && asks[0].orders == [] {
        levelData := levelData - {asks[0].price};
        asks := asks[1..];
      }
    }

    /** Cancel the front order of a side if it is a FillAndKill. */
    method KillIfTransient(side: Side)
      modifies this
      ensures State() == KillFront(old(State()), side).0
    {
      var ls := if side.Buy? then bids else asks;
      if ls != [] && ls[0].orders != [] && ls[0].orders[0].kind.FillAndKill? {
        CancelOrderInternal(ls[0].orders[0].id);
      }
    }

    /** One turn of the outer loop of MatchOrders. */
    method PlayRound(incoming: Order) returns (trades: seq<Trade>)
      requires Crossed(State())
      modifies this, incoming`remaining
      ensures State() == MatchRound(old(State())).0 && trades == MatchRound(old(State())).1
      ensures incoming.View() == AfterTrades(old(incoming.View()), trades)
    {
      trades := MatchLevels(incoming);
      DropEmptyLevel(Buy);
      DropEmptyLevel(Sell);
      KillIfTransient(Buy);
      KillIfTransient(Sell);
    }

    method MatchOrders(incoming: Order) returns (trades: seq<Trade>)
      requires Proper(State())
      modifies this, incoming`remaining
      ensures incoming.View() == AfterTrades(old(incoming.View()), trades)
      ensures var out := Matching.MatchOrders(old(State())); State() == out.book && trades == out.trades
    {
      trades := [];
      ghost var start, now := State(), State();
      assert trades + Matching.MatchOrders(now).trades == Matching.MatchOrders(now).trades;
      while true
        invariant Proper(now) && now == State()
        invariant Matching.MatchOrders(start).book == Matching.MatchOrders(now).book
        invariant Matching.MatchOrders(start).trades == trades + Matching.MatchOrders(now).trades
        invariant incoming.View() == AfterTrades(old(incoming.View()), trades)
        decreases Orders(now)
      {
        if bids == [] || asks == [] {
          break;
        }
        if bids[0].price < asks[0].price {
          break;
        }
        RoundShrinks(now);
        var made := PlayRound(incoming);
        AfterTradesConcat(old(incoming.View()), trades, made);
        ConcatAssociates(trades, made, Matching.MatchOrders(State()).trades);
        trades, now := trades + made, State();
      }
      assert trades + [] == trades;
    }

    // ---- public calls ----

    method AddOrder(order: Order) returns (trades: seq<Trade>)
      requires Valid(State())
      modifies this, order
      ensures var out := Matching.AddOrder(old(State()), old(order.View())); State() == out.book && trades == out.trades
      ensures Valid(State())
      ensures var b, o := old(State()), old(order.View());
              if TurnedDown(b, o) then order.View() == o && trades == [] && State() == b
              else
                && Traded(o.side, trades) <= o.remaining
                && order.remaining == o.remaining - Traded(o.side, trades)
                && EntersAs(b, o, order.View().(remaining := o.remaining))
    {
      ghost var b, o := State(), order.View();
      RefusedExactly(b, o);
      AddOrderValid(b, o);
      RefusedOrAccepted(b, o);
      var admitted := Admit(order);
      if !admitted {
        return [];
      }
      AddOrderIsSweep(b, o);
      SweepFills(Effective(b, o), Queue(b, Effective(b, o)));
      EffectiveEnters(b, o);
      trades := Enter(order);
    }

    /** The checks before an order may enter the book; a Market order gets its limit here. */
    method Admit(order: Order) returns (ok: bool)
      modifies order
      ensures ok <==> Accepted(State(), old(order.View()))
      ensures order.View() == if ok then Effective(State(), old(order.View())) else old(order.View())
    {
      if order.id in orders {
        return false;
      }
      if order.kind.FillAndKill? {
        ok := CanMatch(order.side, order.price);
        if !ok {
          return false;
        }
      }
      if order.kind.Market? {
        if order.side.Buy? && asks != [] {
          ok := order.ToGoodTillCancel(asks[|asks| - 1].price);
        } else if order.side.Sell? && bids != [] {
          ok := order.ToGoodTillCancel(bids[|bids| - 1].price);
        } else {
          return false;
        }
      }
      if order.kind.FillOrKill? {
        ok := CanFullyFill(order.side, order.price, order.initial);
        if !ok {
          return false;
        }
      }
      return true;
    }

    /** Put an admitted order at the back of its level and match. */
    method Enter(order: Order) returns (trades: seq<Trade>)
      requires Proper(State())
      modifies this, order`remaining
      ensures var out := Place(old(State()), old(order.View())); State() == out.book && trades == out.trades
      ensures order.View() == AfterTrades(old(order.View()), trades)
    {
      RestProper(State(), order.View());
      ghost var rested := Rest(State(), order.View());
      if order.side.Buy? {
        bids := Insert(Buy, bids, order.View());
      } else {
        asks := Insert(Sell, asks, order.View());
      }
      orders := orders[order.id := Location(order.side, order.price)];
      UpdateLevelData(order.price, order.initial, Action.Add);
      assert State() == rested;
      trades := MatchOrders(order);
    }

    method CancelOrder(id: OrderId)
      requires Valid(State())
      modifies this
      ensures State() == Cancel(old(State()), id) && Valid(State())
      ensures id !in old(orders) ==> State() == old(State())
    {
      CancelValid(State(), id);
      CancelOrderInternal(id);
    }

    method ModifyOrder(id: OrderId, side: Side, price: Price, quantity: nat) returns (trades: seq<Trade>)
      requires Valid(State())
      modifies this
      ensures var out := Modify(old(State()), id, side, price, quantity); State() == out.book && trades == out.trades
      ensures id !in old(orders) ==> State() == old(State()) && trades == []
      ensures Valid(State())
    {
      if id !in orders {
        return [];
      }
      var existing := Resting(State(), id);
      ghost var k := RestingFound(State(), id);
      CancelOrder(id);
      var order := new Order(existing.value.kind, id, side, price, quantity);
      trades := AddOrder(order);
    }
  }
}

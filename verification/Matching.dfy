/** The order book as a value, and its operations written branch by branch as the engine performs them. */
module Matching {
  import opened Domain
  import opened Ladder

  datatype LevelData = LevelData(quantity: nat, count: nat)

  datatype Action = Add | Remove | Match

  /** Where an indexed order rests; stands for the list iterator kept beside each order. */
  datatype Location = Location(side: Side, price: Price)

  datatype Book = Book(bids: seq<Level>, asks: seq<Level>, index: map<OrderId, Location>, cache: map<Price, LevelData>)

  /** What a call did: the new book, the trades it returned, the orders the FillAndKill branch removed,
      and the order it put on the book, if any. The last two are read off the run, not returned by the engine. */
  datatype Outcome = Outcome(book: Book, trades: seq<Trade>, killed: seq<OrderRecord>, placed: Option<OrderRecord>)

  const EMPTY_BOOK := Book([], [], map[], map[])

  function Levels(b: Book, side: Side): seq<Level> {
    if side.Buy? then b.bids else b.asks
  }

  function WithLevels(b: Book, side: Side, ls: seq<Level>): Book {
    if side.Buy? then b.(bids := ls) else b.(asks := ls)
  }

  function At(b: Book, side: Side, p: Price): seq<OrderRecord> {
    OrdersAt(Levels(b, side), p)
  }

  // ---- the per-price cache ----

  function Entry(cache: map<Price, LevelData>, p: Price): Option<LevelData> {
    if p in cache then Some(cache[p]) else None
  }

  function UpdateLevelData(cache: map<Price, LevelData>, p: Price, quantity: nat,
                           action: Action): map<Price, LevelData> {
    var data := if p in cache then cache[p] else LevelData(0, 0);
    var count := Wrap(data.count + match action case Remove => -1 case Add => 1 case Match => 0);
    var total := Wrap(if action.Add? then data.quantity + quantity else data.quantity - quantity);
    if count == 0 then cache - {p} else cache[p := LevelData(total, count)]
  }

  // ---- cancellation ----

  function Lookup(orders: seq<OrderRecord>, id: OrderId): Option<OrderRecord> {
    if orders == [] then None
    else if orders[0].id == id then Some(orders[0])
    else Lookup(orders[1..], id)
  }

  /** The order an indexed id stands for. */
  function Resting(b: Book, id: OrderId): Option<OrderRecord> {
    if id in b.index then Lookup(At(b, b.index[id].side, b.index[id].price), id) else None
  }

  function Cancel(b: Book, id: OrderId): Book {
    match Resting(b, id)
    case None => b
    case Some(o) =>
      WithLevels(b, o.side, Ladder.Remove(Levels(b, o.side), o.price, id))
        .(index := b.index - {id}, cache := UpdateLevelData(b.cache, o.price, o.remaining, Action.Remove))
  }

  // ---- matching ----

  predicate BothFronts(b: Book) {
    b.bids != [] && b.asks != [] && b.bids[0].orders != [] && b.asks[0].orders != []
  }

  /** The best level after its front order was filled down to `o`: popped when nothing is left of it. */
  function FrontAfterFill(ls: seq<Level>, o: OrderRecord): seq<Level>
    requires ls != [] && ls[0].orders != []
  {
    [Level(ls[0].price, (if o.remaining == 0 then [] else [o]) + ls[0].orders[1..])] + ls[1..]
  }

  function Filled(o: OrderRecord, quantity: nat): OrderRecord
    requires quantity <= o.remaining
  {
    o.(remaining := o.remaining - quantity)
  }

  function MatchedAction(o: OrderRecord): Action {
    if o.remaining == 0 then Action.Remove else Action.Match
  }

  function TradeOf(bid: OrderRecord, ask: OrderRecord, quantity: nat): Trade {
    Trade(TradeInfo(bid.id, bid.price, quantity), TradeInfo(ask.id, ask.price, quantity))
  }

  /** Fill the front order of one side: its list, the index and the cache all change. */
  function FillFront(b: Book, side: Side, quantity: nat): Book
    requires Levels(b, side) != [] && Levels(b, side)[0].orders != []
    requires quantity <= Levels(b, side)[0].orders[0].remaining
  {
    var o := Filled(Levels(b, side)[0].orders[0], quantity);
    WithLevels(b, side, FrontAfterFill(Levels(b, side), o))
      .(index := if o.remaining == 0 then b.index - {o.id} else b.index,
        cache := UpdateLevelData(b.cache, o.price, quantity, MatchedAction(o)))
  }

  /** One turn of the inner loop: the two front orders trade the smaller of their remaining quantities. */
  function MatchFronts(b: Book): (r: (Book, Trade))
    requires BothFronts(b)
  {
    var bid, ask := b.bids[0].orders[0], b.asks[0].orders[0];
    var quantity := Min(bid.remaining, ask.remaining);
    (FillFront(FillFront(b, Buy, quantity), Sell, quantity), TradeOf(bid, ask, quantity))
  }

  function FrontSize(b: Book): nat {
    (if b.bids == [] then 0 else |b.bids[0].orders|) + if b.asks == [] then 0 else |b.asks[0].orders|
  }

  /** The inner loop: trade the fronts of the two best levels until one of them is empty. */
  function MatchLevel(b: Book): (r: (Book, seq<Trade>))
    decreases FrontSize(b)
  {
    if !BothFronts(b) then (b, [])
    else
      var (b1, t) := MatchFronts(b);
      var (b2, ts) := MatchLevel(b1);
      (b2, [t] + ts)
  }

  /** Drop the best level of a side when it ran empty, and its cache entry whoever else is still at that price. */
  function EraseIfEmpty(b: Book, side: Side): Book {
    var ls := Levels(b, side);
    if ls == [] || ls[0].orders != [] then b
    else WithLevels(b, side, ls[1..]).(cache := b.cache - {ls[0].price})
  }

  /** Cancel the front order of a side when it is a FillAndKill; also yields that order. */
  function KillFront(b: Book, side: Side): (Book, seq<OrderRecord>) {
    var ls := Levels(b, side);
    if ls == [] || ls[0].orders == [] || !ls[0].orders[0].kind.FillAndKill? then (b, [])
    else (Cancel(b, ls[0].orders[0].id), [ls[0].orders[0]])
  }

  predicate Crossed(b: Book) {
    b.bids != [] && b.asks != [] && b.bids[0].price >= b.asks[0].price
  }

  /** One turn of the outer loop. */
  function MatchRound(b: Book): (Book, seq<Trade>, seq<OrderRecord>) {
    var (b1, ts) := MatchLevel(b);
    var b2 := EraseIfEmpty(EraseIfEmpty(b1, Buy), Sell);
    var (b3, k1) := KillFront(b2, Buy);
    var (b4, k2) := KillFront(b3, Sell);
    (b4, ts, k1 + k2)
  }

  function Orders(b: Book): nat {
    |Flatten(b.bids)| + |Flatten(b.asks)|
  }

  predicate Proper(b: Book) {
    NoEmptyLevel(b.bids) && NoEmptyLevel(b.asks)
  }

  // ---- every round takes at least one order off the book ----

  lemma {:induction false} RemoveShrinks(ls: seq<Level>, p: Price, id: OrderId)
    ensures |Flatten(Ladder.Remove(ls, p, id))| <= |Flatten(ls)|
    ensures NoEmptyLevel(ls) ==> NoEmptyLevel(Ladder.Remove(ls, p, id))
  {
    if ls == [] {
    } else if ls[0].price == p {
      WithoutShrinks(ls[0].orders, id);
      var rest := Without(ls[0].orders, id);
      if rest != [] {
        assert ([Level(p, rest)] + ls[1..])[1..] == ls[1..];
      }
    } else {
      RemoveShrinks(ls[1..], p, id);
      assert Ladder.Remove(ls, p, id)[1..] == Ladder.Remove(ls[1..], p, id);
    }
  }

  lemma {:induction false} WithoutShrinks(orders: seq<OrderRecord>, id: OrderId)
    ensures |Without(orders, id)| <= |orders|
  {
    if orders != [] {
      WithoutShrinks(orders[1..], id);
    }
  }

  lemma KillShrinks(b: Book, side: Side)
    requires Proper(b)
    ensures Proper(KillFront(b, side).0) && Orders(KillFront(b, side).0) <= Orders(b)
  {
    var ls := Levels(b, side);
    if ls != [] {
      var id := ls[0].orders[0].id;
      if Resting(b, id).Some? {
        var o := Resting(b, id).value;
        RemoveShrinks(Levels(b, o.side), o.price, id);
      }
    }
  }

  lemma FrontFillSize(ls: seq<Level>, o: OrderRecord)
    requires ls != [] && ls[0].orders != []
    ensures |Flatten(FrontAfterFill(ls, o))| == |Flatten(ls)| - if o.remaining == 0 then 1 else 0
  {
    assert FrontAfterFill(ls, o)[1..] == ls[1..];
  }

  lemma {:induction false} MatchLevelShrinks(b: Book)
    requires b.bids != [] && b.asks != []
    ensures MatchLevel(b).0.bids != [] && MatchLevel(b).0.asks != []
    ensures MatchLevel(b).0.bids[1..] == b.bids[1..] && MatchLevel(b).0.asks[1..] == b.asks[1..]
    ensures !BothFronts(MatchLevel(b).0)
    ensures Orders(MatchLevel(b).0) <= Orders(b) && (BothFronts(b) ==> Orders(MatchLevel(b).0) < Orders(b))
    decreases FrontSize(b)
  {
    if BothFronts(b) {
      var bid, ask := b.bids[0].orders[0], b.asks[0].orders[0];
      var quantity := Min(bid.remaining, ask.remaining);
      FrontFillSize(b.bids, Filled(bid, quantity));
      FrontFillSize(b.asks, Filled(ask, quantity));
      MatchLevelShrinks(MatchFronts(b).0);
    }
  }

  lemma EraseProper(b: Book, side: Side)
    requires Levels(b, side) != []
    ensures NoEmptyLevel(Levels(b, side)[1..]) ==> NoEmptyLevel(Levels(EraseIfEmpty(b, side), side))
    ensures Orders(EraseIfEmpty(b, side)) == Orders(b)
    ensures Levels(EraseIfEmpty(b, side), side.Opposite()) == Levels(b, side.Opposite())
  {
    var ls := Levels(b, side);
    if ls[0].orders == [] {
      assert Flatten(ls) == Flatten(ls[1..]);
    } else {
      assert forall i | 1 <= i < |ls| :: ls[i] == ls[1..][i - 1];
    }
  }

  /** The termination measure of the outer loop: a crossed book loses an order in every round. */
  lemma RoundShrinks(b: Book)
    requires Proper(b) && Crossed(b)
    ensures Proper(MatchRound(b).0) && Orders(MatchRound(b).0) < Orders(b)
  {
    MatchLevelShrinks(b);
    var b1 := MatchLevel(b).0;
    assert NoEmptyLevel(b1.bids[1..]) && NoEmptyLevel(b1.asks[1..]) by {
      assert forall i | 0 <= i < |b.bids[1..]| :: b.bids[1..][i] == b.bids[i + 1];
      assert forall i | 0 <= i < |b.asks[1..]| :: b.asks[1..][i] == b.asks[i + 1];
    }
    EraseProper(b1, Buy);
    var bb := EraseIfEmpty(b1, Buy);
    EraseProper(bb, Sell);
    var b2 := EraseIfEmpty(bb, Sell);
    KillShrinks(b2, Buy);
    KillShrinks(KillFront(b2, Buy).0, Sell);
  }

  /** The outer loop: rounds until the best prices no longer cross. */
  function MatchOrders(b: Book): (r: Outcome)
    requires Proper(b)
    decreases Orders(b)
  {
    if !Crossed(b) then Outcome(b, [], [], None)
    else
      RoundShrinks(b);
      var (b1, ts, ks) := MatchRound(b);
      var rest := MatchOrders(b1);
      Outcome(rest.book, ts + rest.trades, ks + rest.killed, None)
  }

  // ---- the public calls ----

  predicate CanMatch(b: Book, side: Side, price: Price) {
    Levels(b, side.Opposite()) != [] && Crosses(side, price, Levels(b, side.Opposite())[0].price)
  }

  /** The cached prices CanFullyFill counts: from the best opposing price up to the limit. */
  predicate InWindow(side: Side, best: Price, limit: Price, p: Price) {
    !Better(side.Opposite(), p, best) && Crosses(side, limit, p)
  }

  function Window(b: Book, side: Side, limit: Price): set<Price> {
    if Levels(b, side.Opposite()) == [] then {}
    else set p | p in b.cache && InWindow(side, Levels(b, side.Opposite())[0].price, limit, p)
  }

  /** Total cached quantity over a set of prices. */
  function CachedSum(cache: map<Price, LevelData>, s: set<Price>): nat
    requires s <= cache.Keys
    decreases s
  {
    if s == {} then 0
    else
      HasLeastPrice(s);
      var p :| IsLeast(p, s);
      cache[p].quantity + CachedSum(cache, s - {p})
  }

  /** What the loop over the unordered cache decides; it stops at the first entry that covers the rest. */
  predicate CanFullyFill(b: Book, side: Side, price: Price, quantity: nat) {
    CanMatch(b, side, price) &&
    Window(b, side, price) != {} && quantity <= CachedSum(b.cache, Window(b, side, price))
  }

  /** The book with `o` at the back of its level, indexed and counted, before any matching. */
  function Rest(b: Book, o: OrderRecord): Book {
    WithLevels(b, o.side, Insert(o.side, Levels(b, o.side), o))
      .(index := b.index[o.id := Location(o.side, o.price)],
        cache := UpdateLevelData(b.cache, o.price, o.initial, Action.Add))
  }

  lemma RestProper(b: Book, o: OrderRecord)
    requires Proper(b)
    ensures Proper(Rest(b, o))
  {
    InsertNoEmpty(o.side, Levels(b, o.side), o);
  }

  lemma {:induction false} InsertNoEmpty(side: Side, ls: seq<Level>, o: OrderRecord)
    requires NoEmptyLevel(ls)
    ensures NoEmptyLevel(Insert(side, ls, o))
  {
    if ls != [] && !Better(side, o.price, ls[0].price) && ls[0].price != o.price {
      InsertNoEmpty(side, ls[1..], o);
    }
  }

  function Place(b: Book, o: OrderRecord): Outcome
    requires Proper(b)
  {
    RestProper(b, o);
    MatchOrders(Rest(b, o)).(placed := Some(o))
  }

  function Refused(b: Book): Outcome {
    Outcome(b, [], [], None)
  }

  /** A Market order becomes GoodTillCancel at the worst opposing price. */
  function Converted(b: Book, o: OrderRecord): OrderRecord
    requires Levels(b, o.side.Opposite()) != []
  {
    var opposing := Levels(b, o.side.Opposite());
    o.(kind := GoodTillCancel, price := opposing[|opposing| - 1].price)
  }

  function AddOrder(b: Book, o: OrderRecord): Outcome
    requires Proper(b)
  {
    if o.id in b.index then Refused(b)
    else if o.kind.FillAndKill? && !CanMatch(b, o.side, o.price) then Refused(b)
    else if o.kind.Market? then
      if Levels(b, o.side.Opposite()) == [] then Refused(b) else Place(b, Converted(b, o))
    else if o.kind.FillOrKill? && !CanFullyFill(b, o.side, o.price, o.initial) then Refused(b)
    else Place(b, o)
  }

  lemma CancelProper(b: Book, id: OrderId)
    requires Proper(b)
    ensures Proper(Cancel(b, id))
  {
    if Resting(b, id).Some? {
      var o := Resting(b, id).value;
      RemoveShrinks(Levels(b, o.side), o.price, id);
    }
  }

  /** A freshly constructed order. */
  function NewOrder(kind: OrderType, id: OrderId, side: Side, price: Price, quantity: nat): OrderRecord {
    OrderRecord(kind, id, side, price, quantity, quantity)
  }

  function Modify(b: Book, id: OrderId, side: Side, price: Price, quantity: nat): Outcome
    requires Proper(b)
  {
    match Resting(b, id)
    case None => Refused(b)
    case Some(existing) =>
      CancelProper(b, id);
      AddOrder(Cancel(b, id), NewOrder(existing.kind, id, side, price, quantity))
  }
}

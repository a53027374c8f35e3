/** Matching an incoming order is one pass over the opposing orders, best price first and first come first. */
module Sweeping {
  import opened Domain
  import opened Ladder
  import opened Matching
  import opened Consistency

  // ---- the reference: a fold over a flat queue that knows nothing of levels, index or cache ----

  /** `taker` is what survives of the incoming order, `left` what stays of the queue. */
  datatype SweepResult = SweepResult(taker: Option<OrderRecord>, left: seq<OrderRecord>, trades: seq<Trade>)

  function TradeBetween(taker: OrderRecord, maker: OrderRecord, quantity: nat): Trade {
    if taker.side.Buy? then TradeOf(taker, maker, quantity) else TradeOf(maker, taker, quantity)
  }

  function Sweep(taker: OrderRecord, queue: seq<OrderRecord>): SweepResult
    decreases |queue|
  {
    if queue == [] then SweepResult(Some(taker), [], [])
    else
      var quantity := Min(taker.remaining, queue[0].remaining);
      var t := TradeBetween(taker, queue[0], quantity);
      var taker', maker' := Filled(taker, quantity), Filled(queue[0], quantity);
      if taker'.remaining == 0 then
        SweepResult(None, (if maker'.remaining == 0 then [] else [maker']) + queue[1..], [t])
      else
        var r := Sweep(taker', queue[1..]);
        SweepResult(r.taker, r.left, [t] + r.trades)
  }

  // ---- what the fold means ----

  function Taken(side: Side, t: Trade): TradeInfo {
    if side.Buy? then t.bid else t.ask
  }

  function Traded(side: Side, trades: seq<Trade>): nat {
    if trades == [] then 0 else Taken(side, trades[0]).quantity + Traded(side, trades[1..])
  }

  lemma {:induction false} TradedConcat(side: Side, a: seq<Trade>, b: seq<Trade>)
    ensures Traded(side, a + b) == Traded(side, a) + Traded(side, b)
  {
    if a == [] {
      assert a + b == b;
    } else {
      TradedConcat(side, a[1..], b);
      assert (a + b)[1..] == a[1..] + b;
    }
  }

  /** How much trades, who is left, and that nobody gains or loses quantity. */
  lemma {:induction false} SweepQuantities(taker: OrderRecord, queue: seq<OrderRecord>)
    ensures var r := Sweep(taker, queue);
            && (r.taker.None? <==> queue != [] && taker.remaining <= Sum(queue))
            && (r.taker.Some? ==> r.left == [] && r.taker.value == taker.(remaining := taker.remaining - Sum(queue)))
            && Sum(r.left) == Sum(queue) - Traded(taker.side, r.trades)
            && Traded(taker.side, r.trades) == Min(taker.remaining, Sum(queue))
            && Traded(taker.side.Opposite(), r.trades) == Traded(taker.side, r.trades)
    decreases |queue|
  {
    if queue != [] {
      var quantity := Min(taker.remaining, queue[0].remaining);
      if quantity < taker.remaining {
        SweepQuantities(Filled(taker, quantity), queue[1..]);
        var r := Sweep(Filled(taker, quantity), queue[1..]);
        assert Sweep(taker, queue).trades[1..] == r.trades;
      } else {
        var maker := Filled(queue[0], quantity);
        if maker.remaining == 0 {
          assert Sweep(taker, queue).left == queue[1..];
        } else {
          assert Sweep(taker, queue).left[1..] == queue[1..];
        }
        assert Sweep(taker, queue).trades[1..] == [];
      }
    }
  }

  /** Time priority: trade number i is between the incoming order and queue position i, at both limit
      prices, and every maker but the last is filled whole. */
  lemma {:induction false} SweepPriority(taker: OrderRecord, queue: seq<OrderRecord>)
    ensures var trades := Sweep(taker, queue).trades;
            && |trades| <= |queue| && (queue != [] ==> trades != [])
            && (forall i | 0 <= i < |trades| ::
                  && Taken(taker.side, trades[i]) ==
                       TradeInfo(taker.id, taker.price, Taken(taker.side, trades[i]).quantity)
                  && Taken(taker.side.Opposite(), trades[i]) ==
                       TradeInfo(queue[i].id, queue[i].price, Taken(taker.side, trades[i]).quantity)
                  && (i + 1 < |trades| ==> Taken(taker.side, trades[i]).quantity == queue[i].remaining))
    decreases |queue|
  {
    if queue != [] {
      var quantity := Min(taker.remaining, queue[0].remaining);
      if quantity < taker.remaining {
        var taker' := Filled(taker, quantity);
        SweepPriority(taker', queue[1..]);
        var trades, tail := Sweep(taker, queue).trades, Sweep(taker', queue[1..]).trades;
        forall i | 1 <= i < |trades| ensures trades[i] == tail[i - 1] && queue[i] == queue[1..][i - 1] {
        }
      }
    }
  }

  /** What is left is the rest of the queue in its old order, the first of it possibly with less remaining. */
  lemma {:induction false} SweepKeepsOrder(taker: OrderRecord, queue: seq<OrderRecord>)
    ensures var r := Sweep(taker, queue);
            && |queue| - |r.trades| <= |r.left| <= |queue| - |r.trades| + 1
            && |r.left| <= |queue|
            && (forall j | 0 <= j < |r.left| ::
                  r.left[j].(remaining := 0) == queue[|queue| - |r.left| + j].(remaining := 0))
    decreases |queue|
  {
    if queue != [] {
      var quantity := Min(taker.remaining, queue[0].remaining);
      if quantity < taker.remaining {
        SweepKeepsOrder(Filled(taker, quantity), queue[1..]);
        assert |Sweep(taker, queue).trades| == 1 + |Sweep(Filled(taker, quantity), queue[1..]).trades|;
      }
    }
  }

  /** Sweeping two queues in a row is sweeping the first and then, with what survives, the second. */
  lemma {:induction false} SweepConcat(taker: OrderRecord, a: seq<OrderRecord>, b: seq<OrderRecord>)
    ensures var r := Sweep(taker, a);
            && (r.taker.Some? ==> r.left == [])
            && Sweep(taker, a + b) ==
               match r.taker
               case None => SweepResult(None, r.left + b, r.trades)
               case Some(rest) =>
                 var r2 := Sweep(rest, b);
                 SweepResult(r2.taker, r2.left, r.trades + r2.trades)
    decreases |a|
  {
    if a == [] {
      assert a + b == b;
      assert Sweep(taker, a).trades + Sweep(taker, b).trades == Sweep(taker, b).trades;
    } else {
      assert (a + b)[1..] == a[1..] + b;
      var quantity := Min(taker.remaining, a[0].remaining);
      if quantity < taker.remaining {
        SweepConcat(Filled(taker, quantity), a[1..], b);
      } else {
        var maker := Filled(a[0], quantity);
        assert (if maker.remaining == 0 then [] else [maker]) + (a[1..] + b)
            == (if maker.remaining == 0 then [] else [maker]) + a[1..] + b;
      }
    }
  }

  // ---- one round of the engine is one sweep of the best opposing level ----

  /** The incoming order `o` stands alone on its own best level, `opposing` faces it. */
  predicate Facing(b: Book, o: OrderRecord, own: seq<Level>, opposing: seq<Level>) {
    Levels(b, o.side) == [Level(o.price, [o])] + own && Levels(b, o.side.Opposite()) == opposing
  }

  function Survivor(taker: Option<OrderRecord>): seq<OrderRecord> {
    match taker case None => [] case Some(o) => [o]
  }

  /** What one trade does to the two sides, in terms of the incoming order. */
  lemma FrontsFacing(b: Book, o: OrderRecord, own: seq<Level>, opposing: seq<Level>)
    requires Facing(b, o, own, opposing) && opposing != [] && opposing[0].orders != []
    ensures BothFronts(b)
    ensures var maker := opposing[0].orders[0];
            var quantity := Min(o.remaining, maker.remaining);
            var o', maker' := Filled(o, quantity), Filled(maker, quantity);
            && MatchFronts(b).1 == TradeBetween(o, maker, quantity)
            && Levels(MatchFronts(b).0, o.side) == [Level(o.price, if o'.remaining == 0 then [] else [o'])] + own
            && Levels(MatchFronts(b).0, o.side.Opposite()) == FrontAfterFill(opposing, maker')
  {
    var quantity := Min(o.remaining, opposing[0].orders[0].remaining);
    var o' := Filled(o, quantity);
    var mine := [Level(o.price, [o])] + own;
    var front := if o'.remaining == 0 then [] else [o'];
    assert mine[1..] == own && mine[0].orders[1..] == [];
    assert front + [] == front;
    assert FrontAfterFill(mine, o') == [Level(o.price, if o'.remaining == 0 then [] else [o'])] + own;
    assert BothFronts(b);
  }

  lemma {:induction false} MatchLevelIsSweep(b: Book, o: OrderRecord, own: seq<Level>, opposing: seq<Level>)
    requires Facing(b, o, own, opposing) && opposing != [] && opposing[0].orders != []
    ensures var r := Sweep(o, opposing[0].orders);
            && MatchLevel(b).1 == r.trades
            && Levels(MatchLevel(b).0, o.side) == [Level(o.price, Survivor(r.taker))] + own
            && Levels(MatchLevel(b).0, o.side.Opposite()) == [Level(opposing[0].price, r.left)] + opposing[1..]
    decreases |opposing[0].orders|
  {
    var queue := opposing[0].orders;
    var quantity := Min(o.remaining, queue[0].remaining);
    var o' := Filled(o, quantity);
    var b1 := MatchFronts(b).0;
    FrontsFacing(b, o, own, opposing);
    var opposing' := FrontAfterFill(opposing, Filled(queue[0], quantity));
    if o'.remaining == 0 {
      assert MatchLevel(b1) == (b1, []);
    } else {
      assert opposing'[0].orders == queue[1..];
      assert opposing'[1..] == opposing[1..];
      if queue[1..] == [] {
        assert MatchLevel(b1) == (b1, []);
      } else {
        MatchLevelIsSweep(b1, o', own, opposing');
      }
    }
  }

  predicate Lasting(o: OrderRecord) {
    !o.kind.FillAndKill? && !o.kind.Market?
  }

  predicate AllLasting(ls: seq<Level>) {
    forall i, j | 0 <= i < |ls| && 0 <= j < |ls[i].orders| :: Lasting(ls[i].orders[j])
  }

  predicate Calm(ls: seq<Level>) {
    NoEmptyLevel(ls) && AllLasting(ls)
  }

  lemma KillNothing(b: Book, side: Side)
    requires Calm(Levels(b, side))
    ensures KillFront(b, side) == (b, [])
  {
  }

  lemma KillAlone(b: Book, o: OrderRecord, own: seq<Level>)
    requires Consistent(b) && Levels(b, o.side) == [Level(o.price, [o])] + own && o.kind.FillAndKill?
    ensures KillFront(b, o.side).1 == [o]
    ensures Levels(KillFront(b, o.side).0, o.side) == own
    ensures Levels(KillFront(b, o.side).0, o.side.Opposite()) == Levels(b, o.side.Opposite())
    ensures KillFront(b, o.side).0.cache == UpdateLevelData(b.cache, o.price, o.remaining, Action.Remove)
  {
    FrontHomed(b, o.side);
    assert Resting(b, o.id) == Some(o);
    assert Without([o], o.id) == [];
  }

  function LevelLeft(p: Price, orders: seq<OrderRecord>): seq<Level> {
    if orders == [] then [] else [Level(p, orders)]
  }

  lemma LeftCalm(o: OrderRecord, opposing: seq<Level>)
    requires Calm(opposing) && opposing != []
    ensures Calm(opposing[1..])
    ensures Calm(LevelLeft(opposing[0].price, Sweep(o, opposing[0].orders).left) + opposing[1..])
  {
    var r := Sweep(o, opposing[0].orders);
    SweepKeepsOrder(o, opposing[0].orders);
    forall j | 0 <= j < |r.left| ensures Lasting(r.left[j]) {
      assert r.left[j].(remaining := 0) == opposing[0].orders[|opposing[0].orders| - |r.left| + j].(remaining := 0);
      assert Lasting(opposing[0].orders[|opposing[0].orders| - |r.left| + j]);
    }
    assert forall i | 0 <= i < |opposing[1..]| :: opposing[1..][i] == opposing[i + 1];
  }

  /** The book after the inner loop and the two erases of a round. */
  function Swept(b: Book): Book {
    EraseIfEmpty(EraseIfEmpty(MatchLevel(b).0, Buy), Sell)
  }

  lemma EraseFront(b: Book, side: Side, p: Price, orders: seq<OrderRecord>, rest: seq<Level>)
    requires Levels(b, side) == [Level(p, orders)] + rest
    ensures var r := EraseIfEmpty(b, side);
            && Levels(r, side) == LevelLeft(p, orders) + rest
            && Levels(r, side.Opposite()) == Levels(b, side.Opposite())
            && forall q :: Entry(r.cache, q) == if orders == [] && q == p then None else Entry(b.cache, q)
  {
    assert Levels(b, side)[1..] == rest;
    assert [] + rest == rest;
  }

  /** Both erases of a round, whichever side is first. */
  lemma ErasedLevels(b: Book, buy: Level, bids: seq<Level>, sell: Level, asks: seq<Level>)
    requires b.bids == [buy] + bids && b.asks == [sell] + asks
    ensures var r := EraseIfEmpty(EraseIfEmpty(b, Buy), Sell);
            && r.bids == LevelLeft(buy.price, buy.orders) + bids
            && r.asks == LevelLeft(sell.price, sell.orders) + asks
            && forall q :: Entry(r.cache, q) ==
                           if (buy.orders == [] && q == buy.price) || (sell.orders == [] && q == sell.price) then None
                           else Entry(b.cache, q)
  {
    EraseFront(b, Buy, buy.price, buy.orders, bids);
    EraseFront(EraseIfEmpty(b, Buy), Sell, sell.price, sell.orders, asks);
  }

  lemma SweptLevels(b: Book, o: OrderRecord, own: seq<Level>, opposing: seq<Level>)
    requires Facing(b, o, own, opposing) && opposing != [] && opposing[0].orders != []
    ensures var r := Sweep(o, opposing[0].orders);
            && Levels(Swept(b), o.side) == LevelLeft(o.price, Survivor(r.taker)) + own
            && Levels(Swept(b), o.side.Opposite()) == LevelLeft(opposing[0].price, r.left) + opposing[1..]
            && forall p :: Entry(Swept(b).cache, p) ==
                           if (r.taker.None? && p == o.price) || (r.left == [] && p == opposing[0].price) then None
                           else Entry(MatchLevel(b).0.cache, p)
  {
    MatchLevelIsSweep(b, o, own, opposing);
    var r := Sweep(o, opposing[0].orders);
    var mine, theirs := Level(o.price, Survivor(r.taker)), Level(opposing[0].price, r.left);
    if o.side.Buy? {
      ErasedLevels(MatchLevel(b).0, mine, own, theirs, opposing[1..]);
    } else {
      ErasedLevels(MatchLevel(b).0, theirs, opposing[1..], mine, own);
    }
  }

  /** What the two FillAndKill checks do after the sweep of a level. */
  lemma KillsAfter(b: Book, o: OrderRecord, own: seq<Level>, taker: Option<OrderRecord>)
    requires Consistent(b) && Calm(own) && Calm(Levels(b, o.side.Opposite()))
    requires taker.Some? ==> taker.value == o.(remaining := taker.value.remaining)
    requires Levels(b, o.side) == LevelLeft(o.price, Survivor(taker)) + own && !o.kind.Market?
    ensures var (b3, k1) := KillFront(b, Buy);
            var (b4, k2) := KillFront(b3, Sell);
            && k1 + k2 == (if o.kind.FillAndKill? then Survivor(taker) else [])
            && Levels(b4, o.side) == (if o.kind.FillAndKill? then own else Levels(b, o.side))
            && Levels(b4, o.side.Opposite()) == Levels(b, o.side.Opposite())
            && b4.cache == (if taker.Some? && o.kind.FillAndKill?
                            then UpdateLevelData(b.cache, o.price, taker.value.remaining, Action.Remove)
                            else b.cache)
  {
    KillNothing(b, o.side.Opposite());
    if taker.Some? && o.kind.FillAndKill? {
      KillAlone(b, taker.value, own);
      KillNothing(KillFront(b, o.side).0, o.side.Opposite());
    } else if taker.Some? {
      assert Levels(b, o.side)[0].orders[0] == taker.value;
      assert KillFront(b, o.side) == (b, []);
    } else {
      assert [] + own == own;
      KillNothing(b, o.side);
    }
  }

  lemma RoundParts(b: Book)
    ensures var (b3, k1) := KillFront(Swept(b), Buy);
            var (b4, k2) := KillFront(b3, Sell);
            MatchRound(b) == (b4, MatchLevel(b).1, k1 + k2)
  {
  }

  lemma RoundIsSweep(b: Book, o: OrderRecord, own: seq<Level>, opposing: seq<Level>)
    requires Consistent(b) && Facing(b, o, own, opposing) && Calm(own) && Calm(opposing) && opposing != []
    requires !o.kind.Market?
    ensures var r := Sweep(o, opposing[0].orders);
            var stays := r.taker.Some? && !o.kind.FillAndKill?;
            && MatchRound(b).1 == r.trades
            && MatchRound(b).2 == (if o.kind.FillAndKill? then Survivor(r.taker) else [])
            && Levels(MatchRound(b).0, o.side) == (if stays then [Level(o.price, [r.taker.value])] else []) + own
            && Levels(MatchRound(b).0, o.side.Opposite()) == LevelLeft(opposing[0].price, r.left) + opposing[1..]
            && MatchRound(b).0.cache ==
                 (if r.taker.Some? && o.kind.FillAndKill?
                  then UpdateLevelData(Swept(b).cache, o.price, r.taker.value.remaining, Action.Remove)
                  else Swept(b).cache)
  {
    var r := Sweep(o, opposing[0].orders);
    SweepQuantities(o, opposing[0].orders);
    MatchLevelIsSweep(b, o, own, opposing);
    SweptLevels(b, o, own, opposing);
    LeftCalm(o, opposing);
    SweptConsistent(b);
    KillsAfter(Swept(b), o, own, r.taker);
    RoundParts(b);
    assert [] + own == own;
  }

  lemma SweptConsistent(b: Book)
    requires Consistent(b)
    ensures Consistent(Swept(b))
  {
    MatchLevelConsistent(b);
    EraseConsistent(MatchLevel(b).0, Buy);
    EraseConsistent(EraseIfEmpty(MatchLevel(b).0, Buy), Sell);
  }

  // ---- the whole match ----

  /** How many leading opposing levels an order limited to `limit` may trade against. */
  function Depth(side: Side, limit: Price, opposing: seq<Level>): (n: nat)
    ensures n <= |opposing|
  {
    if opposing == [] || !Crosses(side, limit, opposing[0].price) then 0 else 1 + Depth(side, limit, opposing[1..])
  }

  /** The levels matching reaches: all that cross, but only the best one for a FillAndKill. */
  function Reach(o: OrderRecord, opposing: seq<Level>): (n: nat)
    ensures n <= |opposing|
  {
    var n := Depth(o.side, o.price, opposing);
    if o.kind.FillAndKill? && n > 1 then 1 else n
  }

  predicate Apart(side: Side, own: seq<Level>, opposing: seq<Level>) {
    own == [] || opposing == [] || !Crosses(side, own[0].price, opposing[0].price)
  }

  lemma StopsWhenApart(b: Book, side: Side)
    requires Proper(b) && Apart(side, Levels(b, side), Levels(b, side.Opposite()))
    ensures !Crossed(b)
    ensures MatchOrders(b) == Outcome(b, [], [], None)
  {
  }

  lemma ApartFromRest(side: Side, own: seq<Level>, opposing: seq<Level>, left: seq<OrderRecord>)
    requires opposing != [] && Sorted(side.Opposite(), opposing) && Apart(side, own, opposing)
    ensures Apart(side, own, LevelLeft(opposing[0].price, left) + opposing[1..])
  {
    if |opposing| > 1 {
      assert Better(side.Opposite(), opposing[0].price, opposing[1].price);
    }
  }

  lemma FlattenLeft(p: Price, orders: seq<OrderRecord>, rest: seq<Level>)
    ensures Flatten(LevelLeft(p, orders) + rest) == orders + Flatten(rest)
  {
    if orders == [] {
      assert LevelLeft(p, orders) + rest == rest;
    } else {
      assert (LevelLeft(p, orders) + rest)[1..] == rest;
    }
  }

  /** `out` is what the sweep of the orders within reach says: trades, kills, and both sides afterwards. */
  ghost predicate LikeSweep(out: Outcome, o: OrderRecord, own: seq<Level>, opposing: seq<Level>) {
    var n := Reach(o, opposing);
    LikeResult(out, o, own, Sweep(o, Flatten(opposing[..n])), Flatten(opposing[n..]))
  }

  /** Trades, kills and both sides are those of the sweep `r`, with `rest` out of reach. */
  ghost predicate LikeResult(out: Outcome, o: OrderRecord, own: seq<Level>, r: SweepResult, rest: seq<OrderRecord>) {
    && out.trades == r.trades
    && out.killed == (if o.kind.FillAndKill? then Survivor(r.taker) else [])
    && Levels(out.book, o.side) ==
         (if r.taker.Some? && !o.kind.FillAndKill? then [Level(o.price, [r.taker.value])] else []) + own
    && Flatten(Levels(out.book, o.side.Opposite())) == r.left + rest
  }

  lemma FirstLevel(o: OrderRecord, opposing: seq<Level>, n: nat)
    requires 0 < n <= |opposing|
    ensures Sweep(o, Flatten(opposing[..n])) ==
            Sweep(o, opposing[0].orders + Flatten(opposing[1..][..n - 1]))
    ensures Flatten(opposing[1..]) == Flatten(opposing[1..][..n - 1]) + Flatten(opposing[n..])
    ensures opposing[1..][n - 1..] == opposing[n..]
  {
    var tail := opposing[1..];
    assert opposing[..n] == [opposing[0]] + tail[..n - 1];
    FlattenCons(opposing[0], tail[..n - 1]);
    assert tail == tail[..n - 1] + opposing[n..];
    FlattenConcat(tail[..n - 1], opposing[n..]);
  }

  /** The incoming order is filled or killed at the best level: matching stops there. */
  lemma MatchStops(b: Book, o: OrderRecord, own: seq<Level>, opposing: seq<Level>)
    requires Consistent(b) && Proper(b) && Facing(b, o, own, opposing) && Calm(own) && Calm(opposing)
    requires Apart(o.side, own, opposing) && !o.kind.Market? && Reach(o, opposing) > 0
    requires o.kind.FillAndKill? || Sweep(o, opposing[0].orders).taker.None?
    ensures LikeSweep(MatchOrders(b), o, own, opposing)
  {
    var r1 := Sweep(o, opposing[0].orders);
    RoundShrinks(b);
    RoundIsSweep(b, o, own, opposing);
    var (b1, ts, ks) := MatchRound(b);
    ApartFromRest(o.side, own, opposing, r1.left);
    assert [] + own == own;
    StopsWhenApart(b1, o.side);
    assert ts + [] == ts && ks + [] == ks;
    StoppedLikeSweep(Outcome(b1, ts, ks, None), o, own, opposing);
    assert MatchOrders(b) == Outcome(b1, ts, ks, None);
  }

  lemma StoppedLikeSweep(out: Outcome, o: OrderRecord, own: seq<Level>, opposing: seq<Level>)
    requires Reach(o, opposing) > 0
    requires o.kind.FillAndKill? || Sweep(o, opposing[0].orders).taker.None?
    requires var r1 := Sweep(o, opposing[0].orders);
             && out.trades == r1.trades
             && out.killed == (if o.kind.FillAndKill? then Survivor(r1.taker) else [])
             && Levels(out.book, o.side) == own
             && Levels(out.book, o.side.Opposite()) == LevelLeft(opposing[0].price, r1.left) + opposing[1..]
    ensures LikeSweep(out, o, own, opposing)
  {
    var n, tail := Reach(o, opposing), opposing[1..];
    var r1 := Sweep(o, opposing[0].orders);
    FlattenLeft(opposing[0].price, r1.left, tail);
    FirstLevel(o, opposing, n);
    assert [] + own == own;
    if r1.taker.Some? {
      assert tail[..0] == [];
      assert opposing[0].orders + [] == opposing[0].orders;
    } else {
      SweepConcat(o, opposing[0].orders, Flatten(tail[..n - 1]));
      ConcatAssociates(r1.left, Flatten(tail[..n - 1]), Flatten(opposing[n..]));
    }
  }

  /** Matching an order that stands alone on top of its side is one sweep of the orders within its reach. */
  lemma {:induction false} MatchIsSweep(b: Book, o: OrderRecord, own: seq<Level>, opposing: seq<Level>)
    requires Consistent(b) && Proper(b) && Facing(b, o, own, opposing) && Calm(own) && Calm(opposing)
    requires Apart(o.side, own, opposing) && !o.kind.Market?
    requires o.kind.FillAndKill? ==> Depth(o.side, o.price, opposing) > 0
    ensures LikeSweep(MatchOrders(b), o, own, opposing)
    decreases |opposing|
  {
    var n := Reach(o, opposing);
    if n == 0 {
      StopsWhenApart(b, o.side);
      assert opposing[..0] == [] && opposing[0..] == opposing;
      assert [] + Flatten(opposing) == Flatten(opposing);
    } else if o.kind.FillAndKill? || Sweep(o, opposing[0].orders).taker.None? {
      MatchStops(b, o, own, opposing);
    } else {
      MatchContinues(b, o, own, opposing);
    }
  }

  /** The best level is used up and the order goes on to the next. */
  lemma {:induction false} MatchContinues(b: Book, o: OrderRecord, own: seq<Level>, opposing: seq<Level>)
    requires Consistent(b) && Proper(b) && Facing(b, o, own, opposing) && Calm(own) && Calm(opposing)
    requires Apart(o.side, own, opposing) && !o.kind.Market? && !o.kind.FillAndKill? && Reach(o, opposing) > 0
    requires Sweep(o, opposing[0].orders).taker.Some?
    ensures LikeSweep(MatchOrders(b), o, own, opposing)
    decreases |opposing|, 0
  {
    var tail, r1 := opposing[1..], Sweep(o, opposing[0].orders);
    RoundShrinks(b);
    RoundConsistent(b);
    RoundIsSweep(b, o, own, opposing);
    LeftCalm(o, opposing);
    SweepQuantities(o, opposing[0].orders);
    var (b1, ts, ks) := MatchRound(b);
    ApartFromRest(o.side, own, opposing, []);
    assert [] + tail == tail;
    MatchIsSweep(b1, r1.taker.value, own, tail);
    ContinuedLikeSweep(MatchOrders(b1), ts, o, own, opposing);
  }

  lemma ReachTail(o: OrderRecord, o': OrderRecord, opposing: seq<Level>)
    requires Reach(o, opposing) > 0 && !o.kind.FillAndKill? && o' == o.(remaining := o'.remaining)
    ensures Reach(o', opposing[1..]) == Reach(o, opposing) - 1
  {
  }

  lemma ContinuedResult(out: Outcome, ts: seq<Trade>, o: OrderRecord, o': OrderRecord, own: seq<Level>,
                        r: SweepResult, rest: seq<OrderRecord>)
    requires LikeResult(out, o', own, r, rest) && !o.kind.FillAndKill? && o' == o.(remaining := o'.remaining)
    ensures LikeResult(Outcome(out.book, ts + out.trades, [] + out.killed, None), o, own,
                       SweepResult(r.taker, r.left, ts + r.trades), rest)
  {
  }

  /** The sweep of everything within reach, when the best level does not fill the order. */
  lemma SweepPastFirst(o: OrderRecord, opposing: seq<Level>)
    requires Reach(o, opposing) > 0 && !o.kind.FillAndKill?
    requires var r1 := Sweep(o, opposing[0].orders);
             r1.taker.Some? && r1.taker.value == o.(remaining := r1.taker.value.remaining)
    ensures var n, r1 := Reach(o, opposing), Sweep(o, opposing[0].orders);
            var r2 := Sweep(r1.taker.value, Flatten(opposing[1..][..n - 1]));
            && Reach(r1.taker.value, opposing[1..]) == n - 1
            && opposing[1..][n - 1..] == opposing[n..]
            && Sweep(o, Flatten(opposing[..n])) == SweepResult(r2.taker, r2.left, r1.trades + r2.trades)
  {
    var n, tail := Reach(o, opposing), opposing[1..];
    FirstLevel(o, opposing, n);
    SweepConcat(o, opposing[0].orders, Flatten(tail[..n - 1]));
    ReachTail(o, Sweep(o, opposing[0].orders).taker.value, opposing);
  }

  lemma ContinuedLikeSweep(out: Outcome, ts: seq<Trade>, o: OrderRecord, own: seq<Level>, opposing: seq<Level>)
    requires Reach(o, opposing) > 0 && !o.kind.FillAndKill?
    requires var r1 := Sweep(o, opposing[0].orders);
             && r1.taker.Some? && r1.taker.value == o.(remaining := r1.taker.value.remaining)
             && ts == r1.trades
             && LikeSweep(out, r1.taker.value, own, opposing[1..])
    ensures LikeSweep(Outcome(out.book, ts + out.trades, [] + out.killed, None), o, own, opposing)
  {
    var n, o' := Reach(o, opposing), Sweep(o, opposing[0].orders).taker.value;
    SweepPastFirst(o, opposing);
    ContinuedResult(out, ts, o, o', own, Sweep(o', Flatten(opposing[1..][..n - 1])), Flatten(opposing[n..]));
  }
}

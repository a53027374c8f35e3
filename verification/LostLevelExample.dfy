/** Concrete runs on which a lost cache level makes FillOrKill fail, in both directions, and a cancel fail to undo
    an add. */
module LostLevelExample {
  import opened Domain
  import opened Ladder
  import opened Matching
  import opened Consistency
  import opened Sweeping
  import opened Engine
  import opened Ledger
  import opened LostLevels
  import opened FillOrKill
  import opened CancelModify
  import opened SmallBooks

  // Ask 5, then bid 10 at 100: the remaining bid of 5 rests at a price the cache no longer has.
  const LOST_LEVEL := Book([Level(100.0, [Bid(2, 100.0, 10).(remaining := 5)])], [],
                           map[2 := Location(Buy, 100.0)], map[])

  // Then cancel the bid: nothing rests, but the cache now has a bogus entry.
  const BOGUS_ENTRY := Book([], [], map[], map[100.0 := LevelData(TWO_32 - 5, TWO_32 - 1)])

  // Then ask 1 at 99.
  const BOGUS_BOOK := Book([], [Level(99.0, [Ask(3, 99.0, 1)])], map[3 := Location(Sell, 99.0)],
                           map[100.0 := LevelData(TWO_32 - 5, TWO_32 - 1), 99.0 := LevelData(1, 1)])

  lemma FrontAlone(p: Price, o: OrderRecord, o': OrderRecord)
    ensures FrontAfterFill([Level(p, [o])], o') == [Level(p, if o'.remaining == 0 then [] else [o'])]
  {
    var ls := [Level(p, [o])];
    var front := if o'.remaining == 0 then [] else [o'];
    assert ls[1..] == [] && ls[0].orders[1..] == [];
    assert front + [] == front;
    assert [Level(p, front)] + [] == [Level(p, front)];
  }

  lemma LargerBidTrades(b: Book, bid: OrderRecord, ask: OrderRecord)
    requires b.bids == [Level(bid.price, [bid])] && b.asks == [Level(ask.price, [ask])]
    requires ask.remaining < bid.remaining
    ensures var left := bid.(remaining := bid.remaining - ask.remaining);
            var cache := UpdateLevelData(b.cache, bid.price, ask.remaining, Action.Match);
            MatchFronts(b) == (Book([Level(bid.price, [left])], [Level(ask.price, [])], b.index - {ask.id},
                                    UpdateLevelData(cache, ask.price, ask.remaining, Action.Remove)),
                               TradeOf(bid, ask, ask.remaining))
  {
    FrontAlone(bid.price, bid, bid.(remaining := bid.remaining - ask.remaining));
    FrontAlone(ask.price, ask, ask.(remaining := 0));
  }

  lemma AskErased(b: Book, bid: OrderRecord, p: Price)
    requires b.bids == [Level(bid.price, [bid])] && b.asks == [Level(p, [])] && !bid.kind.FillAndKill?
    ensures MatchLevel(b) == (b, [])
    ensures var r := b.(asks := [], cache := b.cache - {p});
            Swept(b) == r && KillFront(r, Buy) == (r, []) && KillFront(r, Sell) == (r, []) && !Crossed(r)
  {
    assert b.asks[1..] == [];
  }

  /** Two orders alone on their sides, the bid larger: one trade, and the ask's level is erased. */
  lemma LargerBid(b: Book, bid: OrderRecord, ask: OrderRecord)
    requires b.bids == [Level(bid.price, [bid])] && b.asks == [Level(ask.price, [ask])]
    requires bid.price >= ask.price && ask.remaining < bid.remaining && !bid.kind.FillAndKill?
    ensures var b1 := MatchFronts(b).0;
            MatchOrders(b) == Outcome(b1.(asks := [], cache := b1.cache - {ask.price}),
                                      [TradeOf(bid, ask, ask.remaining)], [], None)
  {
    var (b1, t) := MatchFronts(b);
    LargerBidTrades(b, bid, ask);
    AskErased(b1, bid.(remaining := bid.remaining - ask.remaining), ask.price);
    assert BothFronts(b);
    assert [t] + [] == [t];
    assert MatchLevel(b) == (b1, [t]);
    assert MatchRound(b) == (b1.(asks := [], cache := b1.cache - {ask.price}), [t], []);
  }

  lemma LargerBidPlaced(b: Book, bid: OrderRecord, ask: OrderRecord)
    requires Proper(b) && Accepted(b, bid) && bid.kind.GoodTillCancel?
    requires Rest(b, bid).bids == [Level(bid.price, [bid])] && Rest(b, bid).asks == [Level(ask.price, [ask])]
    requires bid.price >= ask.price && ask.remaining < bid.remaining
    ensures var left := bid.(remaining := bid.remaining - ask.remaining);
            var cache := UpdateLevelData(Rest(b, bid).cache, bid.price, ask.remaining, Action.Match);
            AddOrder(b, bid).book ==
            Book([Level(bid.price, [left])], [], Rest(b, bid).index - {ask.id},
                 UpdateLevelData(cache, ask.price, ask.remaining, Action.Remove) - {ask.price})
  {
    LargerBid(Rest(b, bid), bid, ask);
    LargerBidTrades(Rest(b, bid), bid, ask);
    RefusedOrAccepted(b, bid);
  }

  lemma CrossingBidAccepted(b: Book, bid: OrderRecord)
    requires b == ONE_ASK && bid == Bid(2, 100.0, 10)
    ensures Proper(b) && Accepted(b, bid)
    ensures Rest(b, bid) == Book([Level(100.0, [bid])], [Level(100.0, [Ask(1, 100.0, 5)])],
                                 map[1 := Location(Sell, 100.0), 2 := Location(Buy, 100.0)],
                                 map[100.0 := LevelData(15, 2)])
  {
  }

  lemma OneOf(index: Index)
    requires index == map[1 := Location(Sell, 100.0), 2 := Location(Buy, 100.0)]
    ensures index - {1} == map[2 := Location(Buy, 100.0)]
  {
  }

  lemma LostLevelReached(b: Book, bid: OrderRecord)
    requires b == ONE_ASK && bid == Bid(2, 100.0, 10)
    ensures Proper(b) && AddOrder(b, bid).book == LOST_LEVEL
  {
    CrossingBidAccepted(b, bid);
    LargerBidPlaced(b, bid, Ask(1, 100.0, 5));
    TwoUpdates();
    OneOf(Rest(b, bid).index);
  }

  lemma TwoUpdates()
    ensures var cache := UpdateLevelData(map[100.0 := LevelData(15, 2)], 100.0, 5, Action.Match);
            UpdateLevelData(cache, 100.0, 5, Action.Remove) - {100.0} == map[]
  {
  }

  lemma BogusBookReached()
    ensures Cancel(LOST_LEVEL, 2) == BOGUS_ENTRY
    ensures AddOrder(BOGUS_ENTRY, Ask(3, 99.0, 1)).book == BOGUS_BOOK
  {
    var bid := Bid(2, 100.0, 10).(remaining := 5);
    assert Without([bid], 2) == [];
    assert Ladder.Remove(LOST_LEVEL.bids, 100.0, 2) == [];
    assert Resting(LOST_LEVEL, 2) == Some(bid);
    assert Wrap(0 - 5) == TWO_32 - 5;
    assert UpdateLevelData(map[], 100.0, 5, Action.Remove) == map[100.0 := LevelData(TWO_32 - 5, TWO_32 - 1)];
  }

  const LARGER_BID := Submit(GoodTillCancel, 2, Buy, 100.0, 10)
  const SECOND_ASK := Submit(GoodTillCancel, 3, Sell, 99.0, 1)

  const LOSING_RUN := [] + [FIRST_ASK] + [LARGER_BID]

  const BOGUS_RUN := LOSING_RUN + [CancelOrder(2)] + [SECOND_ASK]

  lemma {:induction false} LosingRun(start: seq<Command>)
    requires start == []
    ensures Run(start + [FIRST_ASK] + [LARGER_BID]).book == LOST_LEVEL
  {
    OneAskReached(start);
    LostLevelReached(ONE_ASK, Bid(2, 100.0, 10));
    RunSnoc(start + [FIRST_ASK], LARGER_BID);
  }

  lemma {:induction false} BogusEntryRun(start: seq<Command>)
    requires start == LOSING_RUN
    ensures Run(start + [CancelOrder(2)]).book == BOGUS_ENTRY
  {
    LosingRun([]);
    BogusBookReached();
    RunSnoc(start, CancelOrder(2));
  }

  lemma {:induction false} BogusRun(start: seq<Command>)
    requires start == LOSING_RUN
    ensures Run(start + [CancelOrder(2)] + [SECOND_ASK]).book == BOGUS_BOOK
  {
    BogusEntryRun(start);
    BogusBookReached();
    RunSnoc(start + [CancelOrder(2)], SECOND_ASK);
  }

  lemma BothReached()
    ensures Run(LOSING_RUN).book == LOST_LEVEL && Run(BOGUS_RUN).book == BOGUS_BOOK
  {
    LosingRun([]);
    BogusRun(LOSING_RUN);
  }

  lemma FillableRefused()
    ensures Liquidity(LOST_LEVEL, Sell, 100.0) == 5
    ensures !CanFullyFill(LOST_LEVEL, Sell, 100.0, 5)
  {
    OneLevel(LOST_LEVEL.bids);
    assert Depth(Sell, 100.0, LOST_LEVEL.bids) == 1;
    assert Sum([Bid(2, 100.0, 10).(remaining := 5)]) == 5;
    assert Window(LOST_LEVEL, Sell, 100.0) == {};
  }

  /** A FillOrKill the book could fill is refused: 5 rest at 100 but the cache has no entry there. */
  lemma FillOrKillWronglyRefused()
    ensures Run(LOSING_RUN).book == LOST_LEVEL && Valid(LOST_LEVEL) && Liquidity(LOST_LEVEL, Sell, 100.0) == 5
    ensures AddOrder(LOST_LEVEL, NewOrder(FillOrKill, 3, Sell, 100.0, 5)) == Refused(LOST_LEVEL)
  {
    BothReached();
    FillableRefused();
    RefusedOrAccepted(LOST_LEVEL, NewOrder(FillOrKill, 3, Sell, 100.0, 5));
  }

  lemma BogusWindow()
    ensures CanFullyFill(BOGUS_BOOK, Buy, 100.0, 1000)
  {
    var window := Window(BOGUS_BOOK, Buy, 100.0);
    assert 100.0 in window;
    CachedSumAny(BOGUS_BOOK.cache, window, 100.0);
  }

  lemma PartTraded()
    requires Valid(BOGUS_BOOK)
    ensures Liquidity(BOGUS_BOOK, Buy, 100.0) == 1
    ensures var o := NewOrder(FillOrKill, 4, Buy, 100.0, 1000);
            Levels(AddOrder(BOGUS_BOOK, o).book, Buy) == [Level(100.0, [o.(remaining := 999)])]
  {
    var o := NewOrder(FillOrKill, 4, Buy, 100.0, 1000);
    BogusWindow();
    OneLevel(BOGUS_BOOK.asks);
    AddOrderIsSweep(BOGUS_BOOK, o);
    SweepQuantities(o, Queue(BOGUS_BOOK, o));
  }

  /** A FillOrKill the book cannot fill is accepted on the strength of a bogus entry, trades 1 of 1000, and rests. */
  lemma FillOrKillRests()
    ensures Run(BOGUS_RUN).book == BOGUS_BOOK && Valid(BOGUS_BOOK) && Liquidity(BOGUS_BOOK, Buy, 100.0) == 1
    ensures var o := NewOrder(FillOrKill, 4, Buy, 100.0, 1000);
            Levels(AddOrder(BOGUS_BOOK, o).book, Buy) == [Level(100.0, [o.(remaining := 999)])]
  {
    BothReached();
    PartTraded();
  }

  lemma BidNotUndone(b: Book, o: OrderRecord)
    requires Valid(b) && b == BOGUS_ENTRY && o == Bid(3, 100.0, 7)
    ensures Cancel(AddOrder(b, o).book, o.id) != b
  {
    CancelUndoesAdd(b, o);
    assert Wrap(0 - 7) == TWO_32 - 7;
  }

  /** On a book with a full count, a bid of 7 that crosses nothing and its cancel do not cancel out. */
  lemma CancelDoesNotUndoAdd()
    ensures Run(LOSING_RUN + [CancelOrder(2)]).book == BOGUS_ENTRY && Valid(BOGUS_ENTRY)
    ensures var o := Bid(3, 100.0, 7);
            !CanMatch(BOGUS_ENTRY, o.side, o.price) && Cancel(AddOrder(BOGUS_ENTRY, o).book, o.id) != BOGUS_ENTRY
  {
    BogusEntryRun(LOSING_RUN);
    BidNotUndone(BOGUS_ENTRY, Bid(3, 100.0, 7));
  }
}

/** What stopping after the best level costs a FillAndKill. */
module FillAndKill {
  import opened Domain
  import opened Ladder
  import opened Matching
  import opened Sweeping
  import opened Engine
  import opened Ledger
  import opened SmallBooks

  /** The liquidity within the limit is at least that of the best level, which is within it. */
  lemma BestOfLiquidity(b: Book, side: Side, limit: Price)
    requires CanMatch(b, side, limit)
    ensures Sum(Levels(b, side.Opposite())[0].orders) <= Liquidity(b, side, limit)
  {
    var opposing := Levels(b, side.Opposite());
    var n := Depth(side, limit, opposing);
    assert opposing[..n] == [opposing[0]] + opposing[1..n];
    FlattenCons(opposing[0], opposing[1..n]);
    SumConcat(opposing[0].orders, Flatten(opposing[1..n]));
  }

  /** A FillAndKill trades all that the book has for it within its limit if and only if the best level covers the
      order or is everything there is within the limit. */
  lemma FillAndKillFillsAll(b: Book, o: OrderRecord)
    requires Valid(b) && Accepted(b, o) && o.kind.FillAndKill?
    ensures Traded(o.side, AddOrder(b, o).trades) == Min(o.remaining, Liquidity(b, o.side, o.price)) <==>
            var best := Sum(Opposing(b, o)[0].orders);
            o.remaining <= best || best == Liquidity(b, o.side, o.price)
  {
    FillAndKillOneLevel(b, o);
    BestOfLiquidity(b, o.side, o.price);
  }

  // ---- a run on which it costs a fill ----

  // Ask 5 at 100, then 5 at 102.
  const TWO_LEVELS := Book([], [Level(100.0, [Ask(1, 100.0, 5)]), Level(102.0, [Ask(2, 102.0, 5)])],
                           map[1 := Location(Sell, 100.0), 2 := Location(Sell, 102.0)],
                           map[100.0 := LevelData(5, 1), 102.0 := LevelData(5, 1)])

  const TWO_ASKS := [] + [FIRST_ASK] + [Submit(GoodTillCancel, 2, Sell, 102.0, 5)]

  lemma SecondAskRests(b: Book, ask: OrderRecord)
    requires Valid(b) && b == ONE_ASK && ask == Ask(2, 102.0, 5)
    ensures AddOrder(b, ask).book == TWO_LEVELS
  {
    PlaceQuiet(b, ask);
    RefusedOrAccepted(b, ask);
  }

  lemma {:induction false} TwoAsks(start: seq<Command>)
    requires start == []
    ensures Run(start + [FIRST_ASK] + [Submit(GoodTillCancel, 2, Sell, 102.0, 5)]).book == TWO_LEVELS
  {
    OneAskReached(start);
    RunSnoc(start + [FIRST_ASK], Submit(GoodTillCancel, 2, Sell, 102.0, 5));
    SecondAskRests(ONE_ASK, Ask(2, 102.0, 5));
  }

  lemma TwoWithinLimit()
    ensures Liquidity(TWO_LEVELS, Buy, 102.0) == 10 && Sum(TWO_LEVELS.asks[0].orders) == 5
  {
    var asks := TWO_LEVELS.asks;
    assert Depth(Buy, 102.0, asks[1..]) == 1 && Depth(Buy, 102.0, asks) == 2;
    assert asks[..2] == asks;
    FlattenCons(asks[0], asks[1..]);
    FlattenCons(asks[1], []);
    SumConcat(asks[0].orders, Flatten(asks[1..]));
  }

  lemma CutOutcome(b: Book, o: OrderRecord, out: Outcome)
    requires b == TWO_LEVELS && o == NewOrder(FillAndKill, 3, Buy, 102.0, 10) && OneLevelOutcome(b, o, out)
    ensures Traded(Buy, out.trades) == 5 && out.killed == [o.(remaining := 5)]
  {
    TwoWithinLimit();
  }

  lemma CutShort(b: Book, o: OrderRecord)
    requires Valid(b) && b == TWO_LEVELS && o == NewOrder(FillAndKill, 3, Buy, 102.0, 10)
    ensures var out := AddOrder(b, o); Traded(Buy, out.trades) == 5 && out.killed == [o.(remaining := 5)]
  {
    FillAndKillOneLevel(b, o);
    CutOutcome(b, o, AddOrder(b, o));
  }

  /** Asks of 5 at 100 and at 102 rest; a FillAndKill for 10 limited to 102 could fill, but trades 5 and is killed. */
  lemma FillAndKillCutShort()
    ensures Run(TWO_ASKS).book == TWO_LEVELS && Valid(TWO_LEVELS) && Liquidity(TWO_LEVELS, Buy, 102.0) == 10
    ensures var o := NewOrder(FillAndKill, 3, Buy, 102.0, 10);
            var out := AddOrder(TWO_LEVELS, o);
            Traded(Buy, out.trades) == 5 && out.killed == [o.(remaining := 5)]
  {
    TwoAsks([]);
    TwoWithinLimit();
    CutShort(TWO_LEVELS, NewOrder(FillAndKill, 3, Buy, 102.0, 10));
  }
}

/** The first steps of the concrete runs. */
module SmallBooks {
  import opened Domain
  import opened Ladder
  import opened Matching
  import opened Ledger

  function Ask(id: OrderId, price: Price, quantity: nat): OrderRecord {
    NewOrder(GoodTillCancel, id, Sell, price, quantity)
  }

  function Bid(id: OrderId, price: Price, quantity: nat): OrderRecord {
    NewOrder(GoodTillCancel, id, Buy, price, quantity)
  }

  const FIRST_ASK := Submit(GoodTillCancel, 1, Sell, 100.0, 5)

  const ONE_ASK := Book([], [Level(100.0, [Ask(1, 100.0, 5)])], map[1 := Location(Sell, 100.0)],
                        map[100.0 := LevelData(5, 1)])

  lemma FirstAskRests()
    ensures AddOrder(EMPTY_BOOK, Ask(1, 100.0, 5)).book == ONE_ASK
  {
  }

  lemma {:induction false} OneAskReached(start: seq<Command>)
    requires start == []
    ensures Run(start + [FIRST_ASK]).book == ONE_ASK
  {
    FirstAskRests();
    RunSnoc(start, FIRST_ASK);
  }
}

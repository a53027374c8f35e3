/** Prices, sides, order types and the records that travel through the system. */
module Domain {

  datatype Option<+T> = None | Some(value: T)

  type OrderId = nat

  // Prices are totally ordered; rounding and not-a-number are not modelled.
  type Price = real

  // One more than the largest 32-bit quantity.
  const TWO_32 := 0x1_0000_0000

  /** What is stored when an integer is put into an unsigned 32-bit field. */
  function Wrap(n: int): nat {
    n % TWO_32
  }

  datatype Side = Buy | Sell {
    function Opposite(): Side {
      if Buy? then Sell else Buy
    }
  }

  datatype OrderType = GoodTillCancel | FillAndKill | FillOrKill | Market

  /** The order in which a side's sorted map lists its prices: bids highest first, asks lowest first. */
  predicate Better(side: Side, p: Price, q: Price) {
    if side.Buy? then p > q else p < q
  }

  /** An order of `side` limited to `limit` may trade with an opposing order priced `q`. */
  predicate Crosses(side: Side, limit: Price, q: Price) {
    if side.Buy? then limit >= q else limit <= q
  }

  /** The value of one order at one moment. */
  datatype OrderRecord = OrderRecord(kind: OrderType, id: OrderId, side: Side, price: Price,
                                     initial: nat, remaining: nat)

  datatype TradeInfo = TradeInfo(orderId: OrderId, price: Price, quantity: nat)

  datatype Trade = Trade(bid: TradeInfo, ask: TradeInfo)

  function Min(a: nat, b: nat): nat {
    if a <= b then a else b
  }

  predicate IsLeast(p: Price, s: set<Price>) {
    p in s && forall q | q in s :: p <= q
  }

  lemma EmptyOrInhabited(s: set<Price>)
    ensures s == {} || exists p :: p in s
  {
    if !exists p :: p in s { assert s == {}; }
  }

  lemma LeastOfTwo(s: set<Price>, p: Price, r: Price)
    requires p in s && IsLeast(r, s - {p})
    ensures IsLeast(if r < p then r else p, s)
  {
    forall q | q in s ensures (if r < p then r else p) <= q {
      assert q == p || q in s - {p};
    }
  }

  lemma {:induction false} HasLeastPrice(s: set<Price>)
    requires s != {}
    ensures exists p :: IsLeast(p, s)
    decreases s
  {
    EmptyOrInhabited(s);
    var p :| p in s;
    if s - {p} == {} {
      assert forall q | q in s :: q == p || q in s - {p};
      assert IsLeast(p, s);
    } else {
      HasLeastPrice(s - {p});
      var r :| IsLeast(r, s - {p});
      LeastOfTwo(s, p, r);
    }
  }
}

/** Average-cost position and profit tracking in exact arithmetic. */
module Positions {
  import opened Domain

  type Symbol = string

  datatype Fill = Fill(symbol: Symbol, side: Side, price: real, quantity: real)

  datatype Position = Position(quantity: real, averageCost: real, realizedPnl: real)

  const FLAT := Position(0.0, 0.0, 0.0)

  function Abs(x: real): real {
    if x < 0.0 then -x else x
  }

  /** The product of two amounts. Statements about whole histories name their products. */
  function Times(a: real, b: real): real {
    a * b
  }

  function SignedQuantity(f: Fill): real {
    if f.side.Buy? then f.quantity else -f.quantity
  }

  // ---- one fill on one position ----

  predicate Extends(p: Position, signed: real) {
    p.quantity == 0.0 || ((p.quantity > 0.0) == (signed > 0.0))
  }

  function OpenOrAdd(p: Position, price: real, signed: real): Position {
    var quantity := p.quantity + signed;
    if quantity != 0.0
    then Position(quantity, (Times(p.averageCost, p.quantity) + Times(price, signed)) / quantity, p.realizedPnl)
    else p.(quantity := quantity)
  }

  /** Profit booked by a fill against the position. */
  function Booked(p: Position, price: real, signed: real): real {
    var closing := if Abs(signed) < Abs(p.quantity) then Abs(signed) else Abs(p.quantity);
    var direction := if p.quantity > 0.0 then 1.0 else -1.0;
    Times(closing * direction, price - p.averageCost)
  }

  function ReduceCloseOrReverse(p: Position, price: real, signed: real): Position {
    var realized := p.realizedPnl + Booked(p, price, signed);
    var remaining := signed + p.quantity;
    if Abs(signed) > Abs(p.quantity) then Position(remaining, price, realized)
    else Position(remaining, if remaining == 0.0 then 0.0 else p.averageCost, realized)
  }

  function AfterFill(p: Position, price: real, signed: real): Position {
    if Extends(p, signed) then OpenOrAdd(p, price, signed) else ReduceCloseOrReverse(p, price, signed)
  }

  function PnlOf(p: Position, price: real, signed: real): real {
    if Extends(p, signed) then 0.0 else Booked(p, price, signed)
  }

  // ---- the accounting identity for one fill ----

  /** What the trading so far cost, valued at cost: realized profit minus what is tied up in the position. */
  function Equity(p: Position): real {
    p.realizedPnl - Times(p.quantity, p.averageCost)
  }

  lemma DivideBack(a: real, q: real)
    requires q != 0.0
    ensures q * (a / q) == a
  {
  }

  lemma OpenOrAddIdentity(p: Position, price: real, signed: real)
    requires Extends(p, signed)
    ensures Equity(OpenOrAdd(p, price, signed)) == Equity(p) - Times(price, signed)
  {
    var quantity := p.quantity + signed;
    if quantity != 0.0 {
      DivideBack(Times(p.averageCost, p.quantity) + Times(price, signed), quantity);
    } else {
      assert p.quantity == 0.0 && signed == 0.0;
    }
  }

  lemma ReduceIdentity(p: Position, price: real, signed: real)
    requires !Extends(p, signed)
    ensures Equity(ReduceCloseOrReverse(p, price, signed)) == Equity(p) - Times(price, signed)
  {
    var c, q, s := p.averageCost, p.quantity, signed;
    var r := ReduceCloseOrReverse(p, price, signed);
    var remaining := s + q;
    if Abs(s) > Abs(q) {
      assert Booked(p, price, s) == q * (price - c);
      assert remaining * price == s * price + q * price;
    } else {
      assert Booked(p, price, s) == -s * (price - c);
      assert remaining * c == s * c + q * c;
      if remaining == 0.0 {
        assert remaining * c == 0.0;
      }
    }
  }

  /** Every fill lowers the equity at cost by exactly the cash it takes, whichever branch it goes through. */
  lemma FillIdentity(p: Position, price: real, signed: real)
    ensures Equity(AfterFill(p, price, signed)) == Equity(p) - Times(price, signed)
    ensures AfterFill(p, price, signed).quantity == p.quantity + signed
  {
    if Extends(p, signed) {
      OpenOrAddIdentity(p, price, signed);
    } else {
      ReduceIdentity(p, price, signed);
    }
  }

  lemma FillBooks(p: Position, price: real, signed: real)
    ensures AfterFill(p, price, signed).realizedPnl == p.realizedPnl + PnlOf(p, price, signed)
  {
  }

  // ---- a history of fills, per symbol ----

  function After(fills: seq<Fill>, symbol: Symbol): Position {
    if fills == [] then FLAT
    else
      var p, f := After(fills[..|fills| - 1], symbol), fills[|fills| - 1];
      if f.symbol == symbol then AfterFill(p, f.price, SignedQuantity(f)) else p
  }

  /** Quantity of a symbol's fills on one side. */
  function Volume(side: Side, fills: seq<Fill>, symbol: Symbol): real {
    if fills == [] then 0.0
    else
      var f := fills[|fills| - 1];
      Volume(side, fills[..|fills| - 1], symbol) + if f.symbol == symbol && f.side == side then f.quantity else 0.0
  }

  /** Price times quantity over a symbol's fills on one side. */
  function Value(side: Side, fills: seq<Fill>, symbol: Symbol): real {
    if fills == [] then 0.0
    else
      var f := fills[|fills| - 1];
      Value(side, fills[..|fills| - 1], symbol) +
      if f.symbol == symbol && f.side == side then Times(f.price, f.quantity) else 0.0
  }

  /** Net cash taken in: what was sold for less what was bought for. */
  function Cash(fills: seq<Fill>, symbol: Symbol): real {
    Value(Sell, fills, symbol) - Value(Buy, fills, symbol)
  }

  /** Net quantity: bought less sold. */
  function Net(fills: seq<Fill>, symbol: Symbol): real {
    Volume(Buy, fills, symbol) - Volume(Sell, fills, symbol)
  }

  lemma SignedTimes(f: Fill)
    ensures Times(f.price, SignedQuantity(f)) ==
            if f.side.Buy? then Times(f.price, f.quantity) else -Times(f.price, f.quantity)
  {
    TimesNegated(f.price, f.quantity);
  }

  lemma {:induction false} EquityIsCash(fills: seq<Fill>, symbol: Symbol)
    ensures Equity(After(fills, symbol)) == Cash(fills, symbol)
    ensures After(fills, symbol).quantity == Net(fills, symbol)
  {
    if fills != [] {
      var prefix, f := fills[..|fills| - 1], fills[|fills| - 1];
      EquityIsCash(prefix, symbol);
      FillIdentity(After(prefix, symbol), f.price, SignedQuantity(f));
      SignedTimes(f);
    }
  }

  lemma EquityOf(p: Position, cash: real)
    requires Equity(p) == cash
    ensures p.realizedPnl == cash + Times(p.quantity, p.averageCost)
  {
  }

  /** The accounting identity: through opens, additions, reductions, closes and reversals, realized profit is net
      cash flow plus the position at its average cost, and the position is the net of the fills. */
  lemma {:induction false} AccountingIdentity(fills: seq<Fill>, symbol: Symbol)
    ensures var p := After(fills, symbol);
            && p.realizedPnl == Cash(fills, symbol) + Times(p.quantity, p.averageCost)
            && p.quantity == Net(fills, symbol)
  {
    EquityIsCash(fills, symbol);
    EquityOf(After(fills, symbol), Cash(fills, symbol));
  }

  /** What the fills of a symbol earned: net cash, and the net position at its average cost. */
  function EarnedIn(fills: seq<Fill>, symbol: Symbol): real {
    Cash(fills, symbol) + Times(Net(fills, symbol), After(fills, symbol).averageCost)
  }

  lemma {:induction false} EarnedRealized(fills: seq<Fill>, symbol: Symbol)
    ensures After(fills, symbol).realizedPnl == EarnedIn(fills, symbol)
  {
    AccountingIdentity(fills, symbol);
  }

  lemma TimesMinus(q: real, mark: real, cost: real)
    ensures Times(q, mark - cost) == Times(q, mark) - Times(q, cost)
  {
  }

  /** Unrealized profit of a position at a mark. */
  function UnrealizedAt(p: Position, mark: real): real {
    Times(p.quantity, mark - p.averageCost)
  }

  lemma AtMark(p: Position, mark: real)
    ensures p.realizedPnl + UnrealizedAt(p, mark) == Equity(p) + Times(p.quantity, mark)
  {
    TimesMinus(p.quantity, mark, p.averageCost);
  }

  lemma MarkedOf(p: Position, cash: real, mark: real)
    requires Equity(p) == cash
    ensures p.realizedPnl + UnrealizedAt(p, mark) == cash + Times(p.quantity, mark)
  {
    AtMark(p, mark);
  }

  /** Profit at a mark does not depend on how cost was averaged: realized plus unrealized is cash plus position at
      mark. */
  lemma {:induction false} MarkToMarket(fills: seq<Fill>, symbol: Symbol, mark: real)
    ensures var p := After(fills, symbol);
            p.realizedPnl + UnrealizedAt(p, mark) == Cash(fills, symbol) + Times(p.quantity, mark)
  {
    EquityIsCash(fills, symbol);
    MarkedOf(After(fills, symbol), Cash(fills, symbol), mark);
  }

  // ---- what one fill does, branch by branch ----

  /** A fill on the side the position has, or on a flat one, books nothing, and what the position cost grows by what
      the fill cost. */
  predicate Extended(p: Position, p': Position, f: Fill) {
    && p'.realizedPnl == p.realizedPnl
    && Times(Abs(p'.quantity), p'.averageCost) == Times(Abs(p.quantity), p.averageCost) + Times(f.price, f.quantity)
  }

  /** The profit per unit of closing at a price. */
  function Spread(p: Position, price: real): real {
    if p.quantity > 0.0 then price - p.averageCost else p.averageCost - price
  }

  /** A smaller fill on the other side keeps the average cost, resets it when nothing is left, and books the spread on
      what it closes; a larger one books it on all of the position and opens a new one at its own price. */
  predicate Reduced(p: Position, p': Position, f: Fill) {
    var closed := if f.quantity <= Abs(p.quantity) then f.quantity else Abs(p.quantity);
    && p'.realizedPnl == p.realizedPnl + Times(closed, Spread(p, f.price))
    && p'.averageCost ==
         if f.quantity > Abs(p.quantity) then f.price
         else if f.quantity == Abs(p.quantity) then 0.0
         else p.averageCost
  }

  predicate OnItsSide(p: Position, f: Fill) {
    p.quantity == 0.0 || (p.quantity > 0.0) == f.side.Buy?
  }

  lemma ExtendedBy(p: Position, f: Fill)
    requires f.quantity >= 0.0 && OnItsSide(p, f)
    ensures Extended(p, AfterFill(p, f.price, SignedQuantity(f)), f)
  {
    var signed := SignedQuantity(f);
    var quantity := p.quantity + signed;
    if Extends(p, signed) && quantity != 0.0 {
      DivideBack(Times(p.averageCost, p.quantity) + Times(f.price, signed), quantity);
      SignedTimes(f);
      if quantity < 0.0 {
        TimesNegated(OpenOrAdd(p, f.price, signed).averageCost, quantity);
        TimesNegated(p.averageCost, p.quantity);
      }
    }
  }

  lemma ReducedBy(p: Position, f: Fill)
    requires f.quantity >= 0.0 && !OnItsSide(p, f)
    ensures Reduced(p, AfterFill(p, f.price, SignedQuantity(f)), f)
  {
    var closed := if f.quantity <= Abs(p.quantity) then f.quantity else Abs(p.quantity);
    var signed := SignedQuantity(f);
    if Extends(p, signed) {
      assert f.quantity == 0.0;
      DivideBack(Times(p.averageCost, p.quantity), p.quantity);
    } else if p.quantity < 0.0 {
      assert Times(closed * -1.0, f.price - p.averageCost) == Times(closed, p.averageCost - f.price);
    }
  }

  /** What the next fill of a symbol does to its position, for every history before it. */
  lemma {:induction false} NextFill(fills: seq<Fill>, f: Fill)
    requires f.quantity >= 0.0
    ensures var p, p' := After(fills, f.symbol), After(fills + [f], f.symbol);
            if OnItsSide(p, f) then Extended(p, p', f) else Reduced(p, p', f)
    ensures forall s | s != f.symbol :: After(fills + [f], s) == After(fills, s)
  {
    AfterSnoc(fills, f, f.symbol);
    forall s | s != f.symbol ensures After(fills + [f], s) == After(fills, s) {
      AfterSnoc(fills, f, s);
    }
    var p := After(fills, f.symbol);
    if OnItsSide(p, f) {
      ExtendedBy(p, f);
    } else {
      ReducedBy(p, f);
    }
  }

  // ---- average cost stays among the prices paid ----

  /** Prices of the fills that opened or added to the position since it was last flat or reversed. */
  function EntryPrices(fills: seq<Fill>, symbol: Symbol): seq<real> {
    if fills == [] then []
    else
      var prefix, f := fills[..|fills| - 1], fills[|fills| - 1];
      var p, before, signed := After(prefix, symbol), EntryPrices(prefix, symbol), SignedQuantity(f);
      if f.symbol != symbol then before
      else if p.quantity == 0.0 then [f.price]
      else if Extends(p, signed) then before + [f.price]
      else if Abs(signed) > Abs(p.quantity) then [f.price]
      else if signed + p.quantity == 0.0 then []
      else before
  }

  predicate Within(lo: real, hi: real, prices: seq<real>) {
    forall i | 0 <= i < |prices| :: lo <= prices[i] <= hi
  }

  lemma ScaleUp(a: real, b: real, q: real)
    ensures a <= b && q >= 0.0 ==> a * q <= b * q
    ensures a < b && q > 0.0 ==> a * q < b * q
  {
  }

  lemma QuotientBetween(lo: real, hi: real, x: real, q: real)
    requires q > 0.0 && lo * q <= x <= hi * q
    ensures lo <= x / q <= hi
  {
    DivideBack(x, q);
    ScaleUp(x / q, lo, q);
    ScaleUp(hi, x / q, q);
  }

  lemma Scaled(lo: real, a: real, hi: real, q: real)
    requires lo <= a <= hi && q >= 0.0
    ensures Times(lo, q) <= Times(a, q) <= Times(hi, q)
  {
    ScaleUp(lo, a, q);
    ScaleUp(a, hi, q);
  }

  lemma TimesPlus(x: real, q: real, s: real)
    ensures x * (q + s) == Times(x, q) + Times(x, s)
  {
  }

  lemma AverageBetweenPositive(lo: real, hi: real, a: real, q: real, b: real, s: real)
    requires lo <= a <= hi && lo <= b <= hi && q > 0.0 && s >= 0.0
    ensures lo <= (Times(a, q) + Times(b, s)) / (q + s) <= hi
  {
    Scaled(lo, a, hi, q);
    Scaled(lo, b, hi, s);
    TimesPlus(lo, q, s);
    TimesPlus(hi, q, s);
    QuotientBetween(lo, hi, Times(a, q) + Times(b, s), q + s);
  }

  /** A weighted average with weights of one sign lies between its parts. */
  lemma AverageBetween(lo: real, hi: real, a: real, q: real, b: real, s: real)
    requires lo <= a <= hi && lo <= b <= hi && ((q > 0.0 && s >= 0.0) || (q < 0.0 && s <= 0.0))
    ensures lo <= (Times(a, q) + Times(b, s)) / (q + s) <= hi
  {
    if q > 0.0 {
      AverageBetweenPositive(lo, hi, a, q, b, s);
    } else {
      AverageBetweenPositive(lo, hi, a, -q, b, -s);
      TimesNegated(a, q);
      TimesNegated(b, s);
      NegateBoth(Times(a, q) + Times(b, s), q + s);
    }
  }

  lemma TimesNegated(a: real, q: real)
    ensures Times(a, -q) == -Times(a, q)
  {
  }

  lemma OpenedAtPrice(p: Position, price: real, signed: real)
    requires p.quantity == 0.0 && signed != 0.0
    ensures OpenOrAdd(p, price, signed).averageCost == price
  {
    DivideBack(price * signed, signed);
    SameQuotient(price, signed);
  }

  lemma AddedWithin(p: Position, price: real, signed: real, lo: real, hi: real)
    requires p.quantity != 0.0 && Extends(p, signed)
    requires lo <= p.averageCost <= hi && lo <= price <= hi
    ensures lo <= OpenOrAdd(p, price, signed).averageCost <= hi
  {
    AverageBetween(lo, hi, p.averageCost, p.quantity, price, signed);
  }

  lemma SameQuotient(x: real, q: real)
    requires q != 0.0
    ensures (x * q) / q == x
  {
  }

  lemma NegateBoth(x: real, q: real)
    requires q != 0.0
    ensures (-x) / (-q) == x / q
  {
    DivideBack(x, q);
    SameQuotient(x / q, -q);
  }

  /** An open position's average cost lies within any bounds of the prices it was entered at. */
  lemma {:induction false} AverageCostWithin(fills: seq<Fill>, symbol: Symbol, lo: real, hi: real)
    requires After(fills, symbol).quantity != 0.0 && Within(lo, hi, EntryPrices(fills, symbol))
    ensures EntryPrices(fills, symbol) != []
    ensures lo <= After(fills, symbol).averageCost <= hi
  {
    var prefix, f := fills[..|fills| - 1], fills[|fills| - 1];
    var p, signed := After(prefix, symbol), SignedQuantity(f);
    var before, prices := EntryPrices(prefix, symbol), EntryPrices(fills, symbol);
    if f.symbol != symbol {
      AverageCostWithin(prefix, symbol, lo, hi);
    } else if p.quantity == 0.0 {
      assert prices[0] == f.price;
      OpenedAtPrice(p, f.price, signed);
    } else if Extends(p, signed) {
      assert forall i | 0 <= i < |before| :: prices[i] == before[i];
      assert prices[|before|] == f.price;
      AverageCostWithin(prefix, symbol, lo, hi);
      AddedWithin(p, f.price, signed, lo, hi);
    } else if Abs(signed) > Abs(p.quantity) {
      assert prices[0] == f.price;
    } else {
      AverageCostWithin(prefix, symbol, lo, hi);
    }
  }

  // ---- the tracker ----

  /** The tracker's dictionary: positions, and its keys in insertion order. */
  ghost predicate Tracks(states: map<Symbol, Position>, keys: seq<Symbol>, fills: seq<Fill>) {
    && (forall s | s in states :: states[s] == After(fills, s))
    && (forall s | s !in states :: After(fills, s) == FLAT && Cash(fills, s) == 0.0)
    && (forall s :: s in keys <==> s in states)
    && (forall i, j | 0 <= i < j < |keys| :: keys[i] != keys[j])
  }

  function Realized(states: map<Symbol, Position>, keys: seq<Symbol>): real
    requires forall s | s in keys :: s in states
  {
    if keys == [] then 0.0 else Realized(states, keys[..|keys| - 1]) + states[keys[|keys| - 1]].realizedPnl
  }

  function UnrealizedOf(p: Position, symbol: Symbol, marks: map<Symbol, real>): real {
    if p.quantity == 0.0 || symbol !in marks then 0.0 else UnrealizedAt(p, marks[symbol])
  }

  function Unrealized(states: map<Symbol, Position>, keys: seq<Symbol>, marks: map<Symbol, real>): real
    requires forall s | s in keys :: s in states
  {
    if keys == [] then 0.0
    else
      var s := keys[|keys| - 1];
      Unrealized(states, keys[..|keys| - 1], marks) + UnrealizedOf(states[s], s, marks)
  }

  /** A position at its mark, or at average cost where no mark is given. */
  function ValueOf(p: Position, s: Symbol, marks: map<Symbol, real>): real {
    if s in marks then Times(p.quantity, marks[s]) else Times(p.quantity, p.averageCost)
  }

  /** Cash plus position of one symbol. */
  function WorthOf(fills: seq<Fill>, s: Symbol, marks: map<Symbol, real>): real {
    Cash(fills, s) + ValueOf(After(fills, s), s, marks)
  }

  function Worth(fills: seq<Fill>, keys: seq<Symbol>, marks: map<Symbol, real>): real {
    if keys == [] then 0.0 else Worth(fills, keys[..|keys| - 1], marks) + WorthOf(fills, keys[|keys| - 1], marks)
  }

  lemma PositionIdentity(p: Position, s: Symbol, marks: map<Symbol, real>)
    ensures p.realizedPnl + UnrealizedOf(p, s, marks) == Equity(p) + ValueOf(p, s, marks)
  {
    if s in marks {
      AtMark(p, marks[s]);
    }
  }

  lemma SymbolIdentity(fills: seq<Fill>, s: Symbol, marks: map<Symbol, real>)
    ensures After(fills, s).realizedPnl + UnrealizedOf(After(fills, s), s, marks) == WorthOf(fills, s, marks)
  {
    EquityIsCash(fills, s);
    PositionIdentity(After(fills, s), s, marks);
  }

  lemma WorthSnoc(fills: seq<Fill>, keys: seq<Symbol>, marks: map<Symbol, real>, w: real)
    requires keys != [] && w == WorthOf(fills, keys[|keys| - 1], marks)
    ensures Worth(fills, keys, marks) == Worth(fills, keys[..|keys| - 1], marks) + w
  {
  }

  /** Over all symbols, realized plus unrealized profit is cash plus positions at their marks; a symbol without a
      mark counts at cost. */
  lemma {:induction false} PortfolioIdentity(states: map<Symbol, Position>, keys: seq<Symbol>, fills: seq<Fill>,
                                             marks: map<Symbol, real>)
    requires forall s | s in keys :: s in states && states[s] == After(fills, s)
    ensures Realized(states, keys) + Unrealized(states, keys, marks) == Worth(fills, keys, marks)
  {
    if keys != [] {
      var s := keys[|keys| - 1];
      assert forall t | t in keys[..|keys| - 1] :: t in keys;
      PortfolioIdentity(states, keys[..|keys| - 1], fills, marks);
      SymbolIdentity(fills, s, marks);
      WorthSnoc(fills, keys, marks, states[s].realizedPnl + UnrealizedOf(states[s], s, marks));
    }
  }

  lemma {:induction false} RealizedUpdate(states: map<Symbol, Position>, keys: seq<Symbol>, symbol: Symbol, p: Position)
    requires forall s | s in keys :: s in states
    requires forall i, j | 0 <= i < j < |keys| :: keys[i] != keys[j]
    ensures Realized(states[symbol := p], keys) ==
            Realized(states, keys) + if symbol in keys then p.realizedPnl - states[symbol].realizedPnl else 0.0
  {
    if keys != [] {
      var front, last := keys[..|keys| - 1], keys[|keys| - 1];
      assert keys == front + [last];
      assert last !in front;
      RealizedUpdate(states, front, symbol, p);
    }
  }

  /** By how much each fill of a history changed the realized profit of its symbol, in order. */
  function PnlSeries(fills: seq<Fill>): seq<real> {
    if fills == [] then []
    else
      var prefix, f := fills[..|fills| - 1], fills[|fills| - 1];
      PnlSeries(prefix) + [After(fills, f.symbol).realizedPnl - After(prefix, f.symbol).realizedPnl]
  }

  lemma {:induction false} SeriesGrows(fills: seq<Fill>, f: Fill)
    ensures PnlSeries(fills + [f]) ==
            PnlSeries(fills) + [After(fills + [f], f.symbol).realizedPnl - After(fills, f.symbol).realizedPnl]
  {
    assert (fills + [f])[..|fills|] == fills;
  }

  lemma {:induction false} FillChange(fills: seq<Fill>, f: Fill)
    ensures After(fills + [f], f.symbol).realizedPnl ==
            After(fills, f.symbol).realizedPnl + PnlOf(After(fills, f.symbol), f.price, SignedQuantity(f))
  {
    AfterSnoc(fills, f, f.symbol);
    FillBooks(After(fills, f.symbol), f.price, SignedQuantity(f));
  }

  lemma SameElement(xs: seq<real>, ys: seq<real>, after: real, before: real, x: real)
    requires ys == xs + [after - before] && after == before + x
    ensures ys == xs + [x]
  {
  }

  lemma {:induction false} SeriesLast(fills: seq<Fill>, f: Fill)
    ensures PnlSeries(fills + [f]) ==
            PnlSeries(fills) + [PnlOf(After(fills, f.symbol), f.price, SignedQuantity(f))]
  {
    SeriesGrows(fills, f);
    FillChange(fills, f);
    SameElement(PnlSeries(fills), PnlSeries(fills + [f]), After(fills + [f], f.symbol).realizedPnl,
                After(fills, f.symbol).realizedPnl, PnlOf(After(fills, f.symbol), f.price, SignedQuantity(f)));
  }

  function Total(xs: seq<real>): real {
    if xs == [] then 0.0 else Total(xs[..|xs| - 1]) + xs[|xs| - 1]
  }

  function NonZero(xs: seq<real>): seq<real> {
    if xs == [] then []
    else NonZero(xs[..|xs| - 1]) + if xs[|xs| - 1] != 0.0 then [xs[|xs| - 1]] else []
  }

  lemma PnlSnoc(fills: seq<Fill>, f: Fill)
    ensures Total(PnlSeries(fills + [f])) ==
            Total(PnlSeries(fills)) + PnlOf(After(fills, f.symbol), f.price, SignedQuantity(f))
  {
    SeriesLast(fills, f);
    var xs, x := PnlSeries(fills), PnlOf(After(fills, f.symbol), f.price, SignedQuantity(f));
    assert (xs + [x])[..|xs|] == xs;
  }

  lemma AfterSnoc(fills: seq<Fill>, f: Fill, s: Symbol)
    ensures After(fills + [f], s) ==
            if f.symbol == s then AfterFill(After(fills, s), f.price, SignedQuantity(f)) else After(fills, s)
    ensures f.symbol != s ==> Cash(fills + [f], s) == Cash(fills, s)
  {
    assert (fills + [f])[..|fills|] == fills;
  }

  lemma TracksNext(states: map<Symbol, Position>, keys: seq<Symbol>, fills: seq<Fill>, f: Fill)
    requires Tracks(states, keys, fills) && f.symbol in states
    ensures Tracks(states[f.symbol := AfterFill(states[f.symbol], f.price, SignedQuantity(f))], keys, fills + [f])
  {
    forall s ensures After(fills + [f], s) ==
                     if f.symbol == s then AfterFill(After(fills, s), f.price, SignedQuantity(f)) else After(fills, s)
             ensures f.symbol != s ==> Cash(fills + [f], s) == Cash(fills, s)
    {
      AfterSnoc(fills, f, s);
    }
  }

  lemma TracksInsert(states: map<Symbol, Position>, keys: seq<Symbol>, fills: seq<Fill>, s: Symbol)
    requires Tracks(states, keys, fills) && s !in states
    ensures Tracks(states[s := FLAT], keys + [s], fills)
    ensures Realized(states[s := FLAT], keys + [s]) == Realized(states, keys)
  {
    RealizedUpdate(states, keys, s, FLAT);
    assert (keys + [s])[..|keys|] == keys;
  }

  lemma RealizedGrows(states: map<Symbol, Position>, keys: seq<Symbol>, symbol: Symbol, p: Position, pnl: real)
    requires forall s | s in keys :: s in states
    requires forall i, j | 0 <= i < j < |keys| :: keys[i] != keys[j]
    requires symbol in keys && p.realizedPnl == states[symbol].realizedPnl + pnl
    ensures Realized(states[symbol := p], keys) == Realized(states, keys) + pnl
  {
    RealizedUpdate(states, keys, symbol, p);
  }

  lemma Applied(states: map<Symbol, Position>, keys: seq<Symbol>, fills: seq<Fill>, f: Fill)
    requires Tracks(states, keys, fills) && f.symbol in states && Realized(states, keys) == Total(PnlSeries(fills))
    ensures var states' := states[f.symbol := AfterFill(states[f.symbol], f.price, SignedQuantity(f))];
            Tracks(states', keys, fills + [f]) && Realized(states', keys) == Total(PnlSeries(fills + [f]))
  {
    var p, signed := states[f.symbol], SignedQuantity(f);
    FillBooks(p, f.price, signed);
    RealizedGrows(states, keys, f.symbol, AfterFill(p, f.price, signed), PnlOf(p, f.price, signed));
    TracksNext(states, keys, fills, f);
    PnlSnoc(fills, f);
  }

  /** Leaving out the fills that booked nothing does not change the total. */
  lemma {:induction false} NonZeroTotal(xs: seq<real>)
    ensures Total(NonZero(xs)) == Total(xs)
  {
    if xs != [] {
      var front := NonZero(xs[..|xs| - 1]);
      NonZeroTotal(xs[..|xs| - 1]);
      assert (front + [xs[|xs| - 1]])[..|front|] == front;
      assert front + [] == front;
    }
  }

  class PositionTracker {
    var states: map<Symbol, Position>
    var keys: seq<Symbol>
    ghost var fills: seq<Fill>

    ghost predicate Valid()
      reads this
    {
      Tracks(states, keys, fills) && Realized(states, keys) == Total(PnlSeries(fills))
    }

    constructor ()
      ensures Valid() && fills == []
    {
      states, keys, fills := map[], [], [];
    }

    /** Applies one fill and returns the profit it booked. */
    method Apply(fill: Fill) returns (pnl: real)
      requires Valid()
      modifies this
      ensures Valid() && fills == old(fills) + [fill]
      ensures pnl == PnlOf(After(old(fills), fill.symbol), fill.price, SignedQuantity(fill))
      ensures pnl == After(fills, fill.symbol).realizedPnl - After(old(fills), fill.symbol).realizedPnl
    {
      AfterSnoc(fills, fill, fill.symbol);
      FillBooks(After(fills, fill.symbol), fill.price, SignedQuantity(fill));
      SetDefault(fill.symbol);
      Applied(states, keys, fills, fill);
      var state;
      state, pnl := Book(states[fill.symbol], fill.price, SignedQuantity(fill));
      Store(fill, state);
    }

    method Store(fill: Fill, state: Position)
      requires Tracks(states[fill.symbol := state], keys, fills + [fill])
      requires Realized(states[fill.symbol := state], keys) == Total(PnlSeries(fills + [fill]))
      modifies this`states, this`fills
      ensures Valid() && fills == old(fills) + [fill]
    {
      states := states[fill.symbol := state];
      fills := fills + [fill];
    }

    /** An unknown symbol starts out flat. */
    method SetDefault(symbol: Symbol)
      requires Valid()
      modifies this`states, this`keys
      ensures Valid() && symbol in states && states[symbol] == After(fills, symbol)
    {
      if symbol !in states {
        TracksInsert(states, keys, fills, symbol);
        keys := keys + [symbol];
        states := states[symbol := FLAT];
      }
    }

    /** The two branches of apply, field by field. */
    static method Book(state: Position, price: real, signed: real) returns (r: Position, pnl: real)
      ensures r == AfterFill(state, price, signed) && pnl == PnlOf(state, price, signed)
    {
      if state.quantity == 0.0 || ((state.quantity > 0.0) == (signed > 0.0)) {
        r := BookOpenOrAdd(state, price, signed);
        pnl := 0.0;
      } else {
        r, pnl := BookReduceCloseOrReverse(state, price, signed);
      }
    }

    static method BookOpenOrAdd(state: Position, price: real, signed: real) returns (r: Position)
      ensures r == OpenOrAdd(state, price, signed)
    {
      r := state;
      var newQuantity := state.quantity + signed;
      if newQuantity != 0.0 {
        var cost := Times(state.averageCost, state.quantity) + Times(price, signed);
        r := r.(averageCost := cost / newQuantity);
      }
      r := r.(quantity := newQuantity);
    }

    static method BookReduceCloseOrReverse(state: Position, price: real, signed: real)
      returns (r: Position, pnl: real)
      ensures r == ReduceCloseOrReverse(state, price, signed) && pnl == Booked(state, price, signed)
    {
      var closing := if Abs(signed) < Abs(state.quantity) then Abs(signed) else Abs(state.quantity);
      var direction := if state.quantity > 0.0 then 1.0 else -1.0;
      pnl := Times(closing * direction, price - state.averageCost);
      var remaining := signed + state.quantity;
      r := state.(realizedPnl := state.realizedPnl + pnl, quantity := remaining);
      if Abs(signed) > Abs(state.quantity) {
        r := r.(averageCost := price);
      } else if remaining == 0.0 {
        r := r.(averageCost := 0.0);
      }
    }

    /** The state of a symbol, flat when it was never traded. */
    method Get(symbol: Symbol) returns (state: Position)
      requires Valid()
      ensures state == After(fills, symbol)
    {
      state := if symbol in states then states[symbol] else FLAT;
    }

    method PositionIn(symbol: Symbol) returns (quantity: real)
      requires Valid()
      ensures quantity == Volume(Buy, fills, symbol) - Volume(Sell, fills, symbol)
    {
      AccountingIdentity(fills, symbol);
      var state := Get(symbol);
      return state.quantity;
    }

    /** Realized profit of one symbol, or of all of them. */
    method RealizedPnl(symbol: Option<Symbol>) returns (total: real)
      requires Valid()
      ensures symbol.None? ==> total == Total(PnlSeries(fills))
      ensures symbol.Some? ==> total == EarnedIn(fills, symbol.value)
    {
      if symbol.Some? {
        EarnedRealized(fills, symbol.value);
        var state := Get(symbol.value);
        total := state.realizedPnl;
      } else {
        total := SumRealized();
      }
    }

    method SumRealized() returns (total: real)
      requires Valid()
      ensures total == Total(PnlSeries(fills))
    {
      total := 0.0;
      for i := 0 to |keys|
        invariant total == Realized(states, keys[..i])
      {
        assert keys[..i + 1][..i] == keys[..i];
        total := total + states[keys[i]].realizedPnl;
      }
      assert keys[..|keys|] == keys;
    }

    /** Profit on open positions at the given marks; realized plus unrealized is cash plus positions at mark. */
    method UnrealizedPnl(marks: map<Symbol, real>) returns (total: real)
      requires Valid()
      ensures total == Worth(fills, keys, marks) - Total(PnlSeries(fills))
    {
      total := 0.0;
      for i := 0 to |keys|
        invariant total == Unrealized(states, keys[..i], marks)
      {
        assert keys[..i + 1][..i] == keys[..i];
        var p := states[keys[i]];
        if p.quantity == 0.0 || keys[i] !in marks {
          continue;
        }
        total := total + UnrealizedAt(p, marks[keys[i]]);
      }
      assert keys[..|keys|] == keys;
      PortfolioIdentity(states, keys, fills, marks);
    }
  }

  lemma SeriesSnoc(fills: seq<Fill>, f: Fill)
    ensures var pnl := PnlOf(After(fills, f.symbol), f.price, SignedQuantity(f));
            NonZero(PnlSeries(fills + [f])) == NonZero(PnlSeries(fills)) + if pnl != 0.0 then [pnl] else []
  {
    var xs, x := PnlSeries(fills), PnlOf(After(fills, f.symbol), f.price, SignedQuantity(f));
    SeriesLast(fills, f);
    assert (xs + [x])[..|xs|] == xs;
  }

  /** One element of the comprehension: apply the fill and keep its profit if it booked any. */
  method ApplyAndKeep(tracker: PositionTracker, fill: Fill, pnls: seq<real>) returns (kept: seq<real>)
    requires tracker.Valid() && pnls == NonZero(PnlSeries(tracker.fills))
    modifies tracker
    ensures tracker.Valid() && tracker.fills == old(tracker.fills) + [fill]
    ensures kept == NonZero(PnlSeries(tracker.fills))
  {
    SeriesSnoc(tracker.fills, fill);
    var pnl := tracker.Apply(fill);
    kept := pnls + if pnl != 0.0 then [pnl] else [];
  }

  /** The profit of each fill that booked any, in order; together they make the realized total. */
  method RealizedPnlsFromFills(fills: seq<Fill>) returns (pnls: seq<real>)
    ensures pnls == NonZero(PnlSeries(fills)) && Total(pnls) == Total(PnlSeries(fills))
  {
    var tracker := new PositionTracker();
    pnls := [];
    for i := 0 to |fills|
      invariant tracker.Valid() && tracker.fills == fills[..i]
      invariant fresh(tracker)
      invariant pnls == NonZero(PnlSeries(tracker.fills))
    {
      pnls := ApplyAndKeep(tracker, fills[i], pnls);
      assert fills[..i + 1] == fills[..i] + [fills[i]];
    }
    assert fills[..|fills|] == fills;
    NonZeroTotal(PnlSeries(fills));
  }
}

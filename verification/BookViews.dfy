/** What the book shows of a side: its levels with their totals. */
module BookViews {
  import opened Domain
  import opened Ladder
  import opened Matching
  import opened Engine

  datatype LevelInfo = LevelInfo(price: Price, quantity: nat)

  /** A side as GetOrderInfos reports it: each price with its 32-bit total, best first. */
  function LevelInfos(ls: seq<Level>): seq<LevelInfo> {
    seq(|ls|, i requires 0 <= i < |ls| => LevelInfo(ls[i].price, Wrap(Sum(ls[i].orders))))
  }

  /** `infos` lists exactly the prices in use on the side, strictly best first, each with the 32-bit sum of what rests
      there. */
  ghost predicate Describes(b: Book, side: Side, infos: seq<LevelInfo>) {
    && (forall i, j | 0 <= i < j < |infos| :: Better(side, infos[i].price, infos[j].price))
    && (forall p: Price :: At(b, side, p) != [] <==> exists i :: 0 <= i < |infos| && infos[i].price == p)
    && (forall i | 0 <= i < |infos| :: infos[i].quantity == Sum(At(b, side, infos[i].price)) % TWO_32)
  }

  lemma InfosDescribe(b: Book, side: Side)
    requires Valid(b)
    ensures Describes(b, side, LevelInfos(Levels(b, side)))
  {
    var ls, infos := Levels(b, side), LevelInfos(Levels(b, side));
    forall i | 0 <= i < |ls|
      ensures infos[i].price == ls[i].price && At(b, side, ls[i].price) == ls[i].orders && ls[i].orders != []
    {
      OrdersAtLevel(side, ls, i);
    }
    forall p: Price | At(b, side, p) != [] ensures exists i :: 0 <= i < |infos| && infos[i].price == p {
      var i := OrdersAtFound(ls, p);
      assert infos[i].price == p;
    }
  }

  function TotalOf(infos: seq<LevelInfo>): nat {
    if infos == [] then 0 else infos[0].quantity + TotalOf(infos[1..])
  }

  /** When no level reaches 2^32, the reported quantities add up to everything resting on the side. */
  lemma {:induction false} InfosTotal(ls: seq<Level>)
    requires forall i | 0 <= i < |ls| :: Sum(ls[i].orders) < TWO_32
    ensures TotalOf(LevelInfos(ls)) == Sum(Flatten(ls))
  {
    if ls != [] {
      assert LevelInfos(ls)[1..] == LevelInfos(ls[1..]);
      InfosTotal(ls[1..]);
      SumConcat(ls[0].orders, Flatten(ls[1..]));
    }
  }

  /** The best price on a side and the 32-bit quantity there, or nothing when no order rests on the side. */
  ghost predicate ShowsSide(b: Book, side: Side, price: Option<Price>, quantity: nat) {
    match price
    case None => quantity == 0 && forall p: Price :: At(b, side, p) == []
    case Some(best) =>
      && At(b, side, best) != []
      && (forall p: Price | At(b, side, p) != [] :: !Better(side, p, best))
      && quantity == Sum(At(b, side, best)) % TWO_32
  }

  function FrontPrice(infos: seq<LevelInfo>): Option<Price> {
    if infos == [] then None else Some(infos[0].price)
  }

  function FrontQuantity(infos: seq<LevelInfo>): nat {
    if infos == [] then 0 else infos[0].quantity
  }

  /** The front of the reported levels is the best of the side. */
  lemma FrontShowsSide(b: Book, side: Side, infos: seq<LevelInfo>)
    requires Describes(b, side, infos)
    ensures ShowsSide(b, side, FrontPrice(infos), FrontQuantity(infos))
  {
    forall p: Price | At(b, side, p) != [] ensures infos != [] && !Better(side, p, infos[0].price) {
      var i :| 0 <= i < |infos| && infos[i].price == p;
      assert i > 0 ==> Better(side, infos[0].price, infos[i].price);
    }
  }

  /** A side has only one best price and quantity. */
  lemma OneFront(b: Book, side: Side, price: Option<Price>, quantity: nat, price': Option<Price>, quantity': nat)
    requires ShowsSide(b, side, price, quantity) && ShowsSide(b, side, price', quantity')
    ensures price == price' && quantity == quantity'
  {
    if price.Some? && price'.Some? {
      assert !Better(side, price.value, price'.value) && !Better(side, price'.value, price.value);
    }
  }
}

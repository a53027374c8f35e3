/** Exactly when FillOrKill is all or nothing; with a right cache it always is. */
module FillOrKill {
  import opened Domain
  import opened Ladder
  import opened Matching
  import opened Sweeping
  import opened Engine
  import opened LevelCache
  import opened LostLevels

  // ---- the sum over the cache does not depend on the order of iteration ----

  lemma {:induction false} CachedSumAny(cache: map<Price, LevelData>, s: set<Price>, x: Price)
    requires s <= cache.Keys && x in s
    ensures CachedSum(cache, s) == cache[x].quantity + CachedSum(cache, s - {x})
    decreases s
  {
    HasLeastPrice(s);
    var p :| IsLeast(p, s);
    assert CachedSum(cache, s) == cache[p].quantity + CachedSum(cache, s - {p});
    if p != x {
      CachedSumAny(cache, s - {p}, x);
      CachedSumAny(cache, s - {x}, p);
      assert s - {p} - {x} == s - {x} - {p};
    }
  }

  function PriceSet(ls: seq<Level>): set<Price> {
    if ls == [] then {} else {ls[0].price} + PriceSet(ls[1..])
  }

  lemma {:induction false} InPriceSet(ls: seq<Level>, p: Price)
    ensures p in PriceSet(ls) <==> exists i :: 0 <= i < |ls| && ls[i].price == p
  {
    if ls != [] {
      InPriceSet(ls[1..], p);
      assert forall i | 1 <= i < |ls| :: ls[i] == ls[1..][i - 1];
      if p in PriceSet(ls[1..]) {
        var i :| 0 <= i < |ls[1..]| && ls[1..][i].price == p;
        assert ls[i + 1].price == p;
      }
    }
  }

  /** The cached quantity of the given levels is right. */
  predicate Cached(cache: map<Price, LevelData>, ls: seq<Level>) {
    forall i | 0 <= i < |ls| :: ls[i].price in cache && cache[ls[i].price].quantity == Sum(ls[i].orders)
  }

  lemma {:induction false} CachedSumLevels(side: Side, cache: map<Price, LevelData>, ls: seq<Level>)
    requires Sorted(side, ls) && Cached(cache, ls)
    ensures PriceSet(ls) <= cache.Keys
    ensures CachedSum(cache, PriceSet(ls)) == Sum(Flatten(ls))
  {
    if ls != [] {
      SortedTail(side, ls);
      assert forall i | 0 <= i < |ls[1..]| :: ls[1..][i] == ls[i + 1];
      CachedSumLevels(side, cache, ls[1..]);
      InPriceSet(ls[1..], ls[0].price);
      CachedSumAny(cache, PriceSet(ls), ls[0].price);
      assert PriceSet(ls) - {ls[0].price} == PriceSet(ls[1..]);
      SumConcat(ls[0].orders, Flatten(ls[1..]));
    }
  }

  // ---- the window of the scan is the levels within the limit ----

  lemma {:induction false} DepthSplits(side: Side, limit: Price, opposing: seq<Level>)
    requires Sorted(side.Opposite(), opposing)
    ensures forall i | 0 <= i < |opposing| ::
              i < Depth(side, limit, opposing) <==> Crosses(side, limit, opposing[i].price)
  {
    if opposing != [] {
      SortedTail(side.Opposite(), opposing);
      assert forall i | 1 <= i < |opposing| :: opposing[i] == opposing[1..][i - 1];
      DepthSplits(side, limit, opposing[1..]);
      forall i | 0 < i < |opposing|
        ensures i < Depth(side, limit, opposing) <==> Crosses(side, limit, opposing[i].price)
      {
        assert Better(side.Opposite(), opposing[0].price, opposing[1..][i - 1].price);
      }
    }
  }

  lemma InUseCached(b: Book, p: Price)
    requires CacheAgrees(b)
    ensures p in b.cache <==> At(b, Buy, p) != [] || At(b, Sell, p) != []
  {
    assert AgreesAt(b, p);
  }

  lemma WindowPrice(b: Book, side: Side, limit: Price, p: Price)
    requires Valid(b) && CacheAgrees(b) && CanMatch(b, side, limit)
    ensures var opposing := Levels(b, side.Opposite());
            p in Window(b, side, limit) <==> p in PriceSet(opposing[..Depth(side, limit, opposing)])
  {
    var opposing := Levels(b, side.Opposite());
    var n := Depth(side, limit, opposing);
    DepthSplits(side, limit, opposing);
    InPriceSet(opposing[..n], p);
    InUseCached(b, p);
    if p in Window(b, side, limit) {
      OwnHasNone(side, Levels(b, side), p);
      var i := OrdersAtFound(opposing, p);
      assert opposing[..n][i].price == p;
    }
    if p in PriceSet(opposing[..n]) {
      var i :| 0 <= i < n && opposing[..n][i].price == p;
      OrdersAtLevel(side.Opposite(), opposing, i);
      assert i > 0 ==> Better(side.Opposite(), opposing[0].price, opposing[i].price);
    }
  }

  predicate LevelsFit(ls: seq<Level>) {
    forall i | 0 <= i < |ls| :: Sum(ls[i].orders) < TWO_32
  }

  lemma LevelCached(b: Book, side: Side, i: nat)
    requires Valid(b) && CacheAgrees(b) && LevelsFit(Levels(b, side)) && i < |Levels(b, side)|
    ensures var l := Levels(b, side)[i]; l.price in b.cache && b.cache[l.price].quantity == Sum(l.orders)
  {
    var l := Levels(b, side)[i];
    OrdersAtLevel(side, Levels(b, side), i);
    OtherSideEmpty(b, side, l.price);
    EitherSideFirst(b, side, l.price);
    EntryFits(b, l.price);
  }

  lemma EntryFits(b: Book, p: Price)
    requires CacheAgrees(b) && 0 < Count(b, p) && Quantity(b, p) < TWO_32
    ensures p in b.cache && b.cache[p].quantity == Quantity(b, p)
  {
    assert AgreesAt(b, p);
  }

  lemma LevelsCached(b: Book, side: Side)
    requires Valid(b) && CacheAgrees(b) && LevelsFit(Levels(b, side))
    ensures Cached(b.cache, Levels(b, side))
  {
    forall i | 0 <= i < |Levels(b, side)|
      ensures Levels(b, side)[i].price in b.cache
      ensures b.cache[Levels(b, side)[i].price].quantity == Sum(Levels(b, side)[i].orders)
    {
      LevelCached(b, side, i);
    }
  }

  /** An uncrossed book never has both sides at one price. */
  lemma OtherSideEmpty(b: Book, side: Side, p: Price)
    requires Valid(b) && At(b, side, p) != []
    ensures At(b, side.Opposite(), p) == []
  {
    var mine, theirs := Levels(b, side), Levels(b, side.Opposite());
    var i := OrdersAtFound(mine, p);
    assert i > 0 ==> Better(side, mine[0].price, mine[i].price);
    if theirs != [] {
      OrdersAtBeyond(side.Opposite(), theirs, p);
    }
  }

  /** With a right cache the scan adds up exactly the opposing quantity within the limit. */
  lemma WindowTotal(b: Book, side: Side, limit: Price)
    requires Valid(b) && CacheAgrees(b) && LevelsFit(Levels(b, side.Opposite())) && CanMatch(b, side, limit)
    ensures Window(b, side, limit) != {}
    ensures CachedSum(b.cache, Window(b, side, limit)) == Liquidity(b, side, limit)
  {
    var opposing := Levels(b, side.Opposite());
    var n := Depth(side, limit, opposing);
    forall p ensures p in Window(b, side, limit) <==> p in PriceSet(opposing[..n]) {
      WindowPrice(b, side, limit, p);
    }
    assert Window(b, side, limit) == PriceSet(opposing[..n]);
    LevelsCached(b, side.Opposite());
    CachedSumLevels(side.Opposite(), b.cache, opposing[..n]);
    assert opposing[..n][0].price in PriceSet(opposing[..n]);
  }

  /** With a right cache the scan answers exactly whether the book can fill the quantity within the limit. */
  lemma CanFullyFillExact(b: Book, side: Side, limit: Price, quantity: nat)
    requires Valid(b) && CacheAgrees(b) && LevelsFit(Levels(b, side.Opposite()))
    ensures CanFullyFill(b, side, limit, quantity) <==>
            CanMatch(b, side, limit) && quantity <= Liquidity(b, side, limit)
  {
    if CanMatch(b, side, limit) {
      WindowTotal(b, side, limit);
    }
  }

  // ---- all or nothing ----

  /** `out` trades the whole order and leaves nothing of it, if the book can fill it; else it is a refusal. */
  ghost predicate AllOrNothing(b: Book, o: OrderRecord, out: Outcome) {
    if CanMatch(b, o.side, o.price) && o.remaining <= Liquidity(b, o.side, o.price)
    then
      && Traded(o.side, out.trades) == o.remaining
      && Levels(out.book, o.side) == Levels(b, o.side)
      && out.killed == []
    else out == Refused(b)
  }

  /** An order the scan lets in meets the promise only if the book can really fill it. */
  lemma SweptAllOrNothing(b: Book, o: OrderRecord, out: Outcome)
    requires Valid(b) && o.kind.FillOrKill? && CanMatch(b, o.side, o.price) && SweptOutcome(b, o, out)
    ensures AllOrNothing(b, o, out) <==> o.remaining <= Liquidity(b, o.side, o.price)
  {
    var opposing := Opposing(b, o);
    var n := Reach(o, opposing);
    SweepQuantities(o, Queue(b, o));
    assert Sum(Queue(b, o)) == Liquidity(b, o.side, o.price);
    assert Flatten(opposing[..n]) != [] by {
      assert opposing[..n][0] == opposing[0];
      assert Flatten(opposing[..n])[0] == opposing[0].orders[0];
    }
  }

  /** The prices the scan counts: those with an entry from the best opposing price to the limit. */
  lemma WindowMeans(b: Book, side: Side, limit: Price, p: Price)
    requires Levels(b, side.Opposite()) != []
    ensures var best := Levels(b, side.Opposite())[0].price;
            p in Window(b, side, limit) <==>
            p in b.cache && if side.Buy? then best <= p <= limit else limit <= p <= best
  {
  }

  /** One FillOrKill with something left to trade is all or nothing if and only if the scanned total covers its initial
      quantity exactly when the real liquidity covers what is left of it. Nothing is assumed of the cache. */
  lemma FillOrKillJudged(b: Book, o: OrderRecord)
    requires Valid(b) && o.kind.FillOrKill? && o.id !in b.index && o.remaining <= o.initial
    ensures AllOrNothing(b, o, AddOrder(b, o)) <==>
            (CanMatch(b, o.side, o.price) && o.remaining > 0 ==>
               (o.initial <= CachedSum(b.cache, Window(b, o.side, o.price)) <==>
                o.remaining <= Liquidity(b, o.side, o.price)))
  {
    RefusedOrAccepted(b, o);
    if Accepted(b, o) {
      AddOrderIsSweep(b, o);
      SweptAllOrNothing(b, o, AddOrder(b, o));
    }
  }

  /** At a price, FillOrKill is all or nothing for every quantity up to `max` if and only if the scan adds up exactly
      the liquidity within the limit, or both cover `max`. For the 32-bit quantities of the engine `max` is 2^32 - 1. */
  lemma FillOrKillExactly(b: Book, id: OrderId, side: Side, limit: Price, max: nat)
    requires Valid(b) && id !in b.index
    ensures (forall q: nat | q <= max ::
               var o := NewOrder(FillOrKill, id, side, limit, q); AllOrNothing(b, o, AddOrder(b, o)))
            <==> (CanMatch(b, side, limit) ==>
                    var cached, liquidity := CachedSum(b.cache, Window(b, side, limit)), Liquidity(b, side, limit);
                    cached == liquidity || (cached >= max && liquidity >= max))
  {
    var cached, liquidity := CachedSum(b.cache, Window(b, side, limit)), Liquidity(b, side, limit);
    forall q: nat
      ensures var o := NewOrder(FillOrKill, id, side, limit, q);
              AllOrNothing(b, o, AddOrder(b, o)) <==>
              (CanMatch(b, side, limit) ==> (q <= cached <==> q <= liquidity))
    {
      FillOrKillJudged(b, NewOrder(FillOrKill, id, side, limit, q));
    }
    var probe := NewOrder(FillOrKill, id, side, limit, 1 + Min(cached, liquidity));
    assert AllOrNothing(b, probe, AddOrder(b, probe)) ==> CanMatch(b, side, limit) ==> cached == liquidity;
  }

  /** With a right cache every FillOrKill trades its whole quantity and never rests, or leaves the book alone
      because the book cannot fill it. */
  lemma FillOrKillAllOrNothing(b: Book, o: OrderRecord)
    requires Valid(b) && CacheAgrees(b) && LevelsFit(Opposing(b, o))
    requires o.kind.FillOrKill? && o.id !in b.index && o.initial == o.remaining
    ensures AllOrNothing(b, o, AddOrder(b, o))
  {
    if CanMatch(b, o.side, o.price) {
      WindowTotal(b, o.side, o.price);
    }
    FillOrKillJudged(b, o);
  }
}

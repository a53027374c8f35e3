/** The per-price cache against the lists it summarises: kept by every step except the erase of a level
    whose price the other side still uses. */
module LevelCache {
  import opened Domain
  import opened Ladder
  import opened Matching
  import opened Consistency
  import opened Sweeping

  /** Orders resting at a price, both sides together. */
  function Count(b: Book, p: Price): nat {
    |At(b, Buy, p)| + |At(b, Sell, p)|
  }

  function Quantity(b: Book, p: Price): nat {
    Sum(At(b, Buy, p)) + Sum(At(b, Sell, p))
  }

  /** The cache entry a given number and sum of resting orders call for; the sum is stored in 32 bits. */
  function EntryFor(count: nat, quantity: nat): Option<LevelData> {
    if count == 0 then None else Some(LevelData(Wrap(quantity), count))
  }

  predicate AgreesAt(b: Book, p: Price) {
    Count(b, p) < TWO_32 && Entry(b.cache, p) == EntryFor(Count(b, p), Quantity(b, p))
  }

  /** An entry exists exactly for the prices in use, with the number and the total of the orders there. */
  ghost predicate CacheAgrees(b: Book) {
    forall p: Price :: AgreesAt(b, p)
  }

  // ---- one update ----

  /** One update on any cache, right or wrong: the entry counts as zeros when there is none, both fields go on modulo
      2^32, and an entry whose count becomes zero goes away. */
  lemma UpdateEntry(cache: map<Price, LevelData>, p: Price, quantity: nat, action: Action, q: Price)
    ensures var before := if p in cache then cache[p] else LevelData(0, 0);
            var count := (if action.Add? then before.count + 1
                          else if action.Match? then before.count
                          else before.count + TWO_32 - 1) % TWO_32;
            var total := if action.Add? then before.quantity + quantity else before.quantity - quantity;
            Entry(UpdateLevelData(cache, p, quantity, action), q) ==
            if q != p then Entry(cache, q)
            else if count == 0 then None
            else Some(LevelData(total % TWO_32, count))
  {
  }

  lemma UpdateElsewhere(cache: map<Price, LevelData>, p: Price, quantity: nat, action: Action, q: Price)
    requires q != p
    ensures Entry(UpdateLevelData(cache, p, quantity, action), q) == Entry(cache, q)
  {
  }

  lemma WrapAgain(a: nat, n: int)
    ensures Wrap(Wrap(a) + n) == Wrap(a + n)
  {
  }

  function CountAfter(count: nat, action: Action): int {
    match action case Add => count + 1 case Remove => count - 1 case Match => count
  }

  function QuantityAfter(total: nat, quantity: nat, action: Action): int {
    if action.Add? then total + quantity else total - quantity
  }

  lemma UpdateHere(cache: map<Price, LevelData>, p: Price, quantity: nat, action: Action, count: nat, total: nat)
    requires Entry(cache, p) == EntryFor(count, total) && (count == 0 ==> total == 0)
    requires 0 <= CountAfter(count, action) < TWO_32 && 0 <= QuantityAfter(total, quantity, action)
    ensures Entry(UpdateLevelData(cache, p, quantity, action), p) ==
            EntryFor(CountAfter(count, action), QuantityAfter(total, quantity, action))
  {
    var data := if p in cache then cache[p] else LevelData(0, 0);
    assert data.count == count && data.quantity == Wrap(total);
    var change: int := if action.Add? then quantity else 0 - quantity;
    WrapAgain(total, change);
    assert Wrap(CountAfter(count, action)) == CountAfter(count, action);
  }

  lemma EmptyAtPrice(b: Book, p: Price)
    ensures Count(b, p) == 0 ==> Quantity(b, p) == 0
  {
  }

  /** One cache update in step with one change of the lists. */
  lemma StepAgrees(b: Book, r: Book, p: Price, quantity: nat, action: Action, q: Price)
    requires AgreesAt(b, q) && r.cache == UpdateLevelData(b.cache, p, quantity, action)
    requires q != p ==> Count(r, q) == Count(b, q) && Quantity(r, q) == Quantity(b, q)
    requires q == p ==> Count(r, p) == CountAfter(Count(b, p), action) < TWO_32
    requires q == p ==> Quantity(r, p) == QuantityAfter(Quantity(b, p), quantity, action)
    ensures AgreesAt(r, q)
  {
    if q == p {
      EmptyAtPrice(b, p);
      UpdateHere(b.cache, p, quantity, action, Count(b, p), Quantity(b, p));
    } else {
      UpdateElsewhere(b.cache, p, quantity, action, q);
    }
  }

  // ---- each step ----

  lemma RestCounts(b: Book, o: OrderRecord, p: Price)
    requires Consistent(b)
    ensures Count(Rest(b, o), p) == Count(b, p) + if p == o.price then 1 else 0
    ensures Quantity(Rest(b, o), p) == Quantity(b, p) + if p == o.price then o.remaining else 0
  {
    RestAt(b, o, Buy, p);
    RestAt(b, o, Sell, p);
    SumConcat(At(b, o.side, p), [o]);
  }

  /** Putting an order on the book keeps every price right that was, whatever the cache says of the others. */
  lemma RestAgrees(b: Book, o: OrderRecord, p: Price)
    requires Consistent(b) && AgreesAt(b, p) && o.initial == o.remaining
    requires p == o.price ==> Count(b, p) + 1 < TWO_32
    ensures AgreesAt(Rest(b, o), p)
  {
    RestCounts(b, o, p);
    StepAgrees(b, Rest(b, o), o.price, o.initial, Action.Add, p);
  }

  lemma CutCounts(b: Book, r: Book, s: Side, p: Price, k: nat, q: Price)
    requires CutFrom(b, r, s, p, k)
    ensures Count(r, q) == Count(b, q) - if q == p then 1 else 0
    ensures Quantity(r, q) == Quantity(b, q) - if q == p then At(b, s, p)[k].remaining else 0
  {
    assert At(r, s.Opposite(), q) == At(b, s.Opposite(), q);
    if q == p {
      SumCut(At(b, s, p), k);
    } else {
      assert At(r, s, q) == At(b, s, q);
    }
  }

  /** A cancel keeps every price right that was. */
  lemma CancelAgrees(b: Book, id: OrderId, p: Price)
    requires Consistent(b) && AgreesAt(b, p)
    ensures AgreesAt(Cancel(b, id), p)
  {
    if id in b.index {
      var k := CancelCuts(b, id);
      var o := Resting(b, id).value;
      CutCounts(b, Cancel(b, id), o.side, o.price, k, p);
      StepAgrees(b, Cancel(b, id), o.price, o.remaining, Action.Remove, p);
    }
  }

  lemma FillFrontCounts(b: Book, side: Side, quantity: nat, p: Price)
    requires Consistent(b) && Levels(b, side) != [] && Levels(b, side)[0].orders != []
    requires quantity <= Levels(b, side)[0].orders[0].remaining
    ensures var o := Filled(Levels(b, side)[0].orders[0], quantity);
            && o.price == Levels(b, side)[0].price
            && Count(FillFront(b, side, quantity), p) ==
                 (if p == o.price then CountAfter(Count(b, p), MatchedAction(o)) else Count(b, p))
            && Quantity(FillFront(b, side, quantity), p) == Quantity(b, p) - if p == o.price then quantity else 0
  {
    FrontHomed(b, side);
    var o := Filled(Levels(b, side)[0].orders[0], quantity);
    FillFrontAt(b, side, quantity, side, p);
    FillFrontAt(b, side, quantity, side.Opposite(), p);
    if p == o.price {
      SumConcat(if o.remaining == 0 then [] else [o], At(b, side, p)[1..]);
    }
  }

  lemma FillFrontAgrees(b: Book, side: Side, quantity: nat, p: Price)
    requires Consistent(b) && AgreesAt(b, p) && Levels(b, side) != [] && Levels(b, side)[0].orders != []
    requires quantity <= Levels(b, side)[0].orders[0].remaining
    ensures AgreesAt(FillFront(b, side, quantity), p)
  {
    var o := Filled(Levels(b, side)[0].orders[0], quantity);
    FillFrontCounts(b, side, quantity, p);
    StepAgrees(b, FillFront(b, side, quantity), o.price, quantity, MatchedAction(o), p);
  }

  /** The inner loop keeps every price right that was, also the one both sides trade at. */
  lemma {:induction false} MatchLevelAgrees(b: Book, p: Price)
    requires Consistent(b) && AgreesAt(b, p)
    ensures AgreesAt(MatchLevel(b).0, p)
    decreases FrontSize(b)
  {
    if BothFronts(b) {
      var quantity := Min(b.bids[0].orders[0].remaining, b.asks[0].orders[0].remaining);
      FillFrontAgrees(b, Buy, quantity, p);
      FillFrontConsistent(b, Buy, quantity);
      FillFrontAgrees(FillFront(b, Buy, quantity), Sell, quantity, p);
      MatchFrontsConsistent(b);
      MatchLevelAgrees(MatchFronts(b).0, p);
    }
  }

  // ---- the two erases of a round ----

  /** The round erases the cache entry of this price. */
  predicate Erased(o: OrderRecord, opposing: seq<Level>, p: Price)
    requires opposing != []
  {
    var r := Sweep(o, opposing[0].orders);
    (r.taker.None? && p == o.price) || (r.left == [] && p == opposing[0].price)
  }

  lemma ErasesKeepLists(b: Book, p: Price)
    requires Consistent(b)
    ensures var r := EraseIfEmpty(EraseIfEmpty(b, Buy), Sell);
            Count(r, p) == Count(b, p) && Quantity(r, p) == Quantity(b, p)
  {
    EraseConsistent(b, Buy);
    EraseAt(b, Buy, Buy, p);
    EraseAt(b, Buy, Sell, p);
    EraseAt(EraseIfEmpty(b, Buy), Sell, Buy, p);
    EraseAt(EraseIfEmpty(b, Buy), Sell, Sell, p);
  }

  /** After the erases of a round a price that was right is wrong exactly when it was erased and is still in use. */
  lemma SweptAgreesAt(b: Book, o: OrderRecord, own: seq<Level>, opposing: seq<Level>, p: Price)
    requires Consistent(b) && AgreesAt(b, p) && Facing(b, o, own, opposing)
    requires opposing != [] && opposing[0].orders != []
    ensures AgreesAt(Swept(b), p) <==> !(Erased(o, opposing, p) && Count(Swept(b), p) > 0)
  {
    MatchLevelAgrees(b, p);
    MatchLevelConsistent(b);
    ErasesKeepLists(MatchLevel(b).0, p);
    SweptLevels(b, o, own, opposing);
  }
}

/** Whatever happens to the cache, its entries stay 32-bit numbers with a count that is not zero. */
module SoundCaches {
  import opened Domain
  import opened Matching
  import opened Engine
  import opened Ledger

  predicate SoundEntry(d: LevelData) {
    0 < d.count < TWO_32 && d.quantity < TWO_32
  }

  predicate Sound(cache: map<Price, LevelData>) {
    forall p | p in cache :: SoundEntry(cache[p])
  }

  lemma UpdateSound(cache: map<Price, LevelData>, p: Price, quantity: nat, action: Action)
    requires Sound(cache)
    ensures Sound(UpdateLevelData(cache, p, quantity, action))
  {
  }

  lemma CancelSound(b: Book, id: OrderId)
    requires Sound(b.cache)
    ensures Sound(Cancel(b, id).cache)
  {
    if Resting(b, id).Some? {
      UpdateSound(b.cache, Resting(b, id).value.price, Resting(b, id).value.remaining, Action.Remove);
    }
  }

  lemma {:induction false} MatchLevelSound(b: Book)
    requires Sound(b.cache)
    ensures Sound(MatchLevel(b).0.cache)
    decreases FrontSize(b)
  {
    if BothFronts(b) {
      var bid, ask := b.bids[0].orders[0], b.asks[0].orders[0];
      var quantity := Min(bid.remaining, ask.remaining);
      UpdateSound(b.cache, bid.price, quantity, MatchedAction(Filled(bid, quantity)));
      UpdateSound(FillFront(b, Buy, quantity).cache, ask.price, quantity, MatchedAction(Filled(ask, quantity)));
      MatchLevelSound(MatchFronts(b).0);
    }
  }

  lemma KillSound(b: Book, side: Side)
    requires Sound(b.cache)
    ensures Sound(KillFront(b, side).0.cache)
  {
    var ls := Levels(b, side);
    if ls != [] && ls[0].orders != [] {
      CancelSound(b, ls[0].orders[0].id);
    }
  }

  lemma RoundSound(b: Book)
    requires Sound(b.cache)
    ensures Sound(MatchRound(b).0.cache)
  {
    MatchLevelSound(b);
    var b2 := EraseIfEmpty(EraseIfEmpty(MatchLevel(b).0, Buy), Sell);
    assert Sound(b2.cache);
    KillSound(b2, Buy);
    KillSound(KillFront(b2, Buy).0, Sell);
  }

  lemma {:induction false} MatchOrdersSound(b: Book)
    requires Proper(b) && Sound(b.cache)
    ensures Sound(MatchOrders(b).book.cache)
    decreases Orders(b)
  {
    if Crossed(b) {
      RoundShrinks(b);
      RoundSound(b);
      MatchOrdersSound(MatchRound(b).0);
    }
  }

  lemma AddOrderSound(b: Book, o: OrderRecord)
    requires Proper(b) && Sound(b.cache)
    ensures Sound(AddOrder(b, o).book.cache)
  {
    RefusedOrAccepted(b, o);
    if Accepted(b, o) {
      var e := Effective(b, o);
      UpdateSound(b.cache, e.price, e.initial, Action.Add);
      RestProper(b, e);
      MatchOrdersSound(Rest(b, e));
    }
  }

  lemma ApplySound(b: Book, c: Command)
    requires Proper(b) && Sound(b.cache)
    ensures Sound(Apply(b, c).book.cache)
  {
    match c
    case Submit(kind, id, side, price, quantity) => AddOrderSound(b, NewOrder(kind, id, side, price, quantity));
    case CancelOrder(id) => CancelSound(b, id);
    case ModifyOrder(id, side, price, quantity) =>
      CancelSound(b, id);
      CancelProper(b, id);
      if Resting(b, id).Some? {
        AddOrderSound(Cancel(b, id), NewOrder(Resting(b, id).value.kind, id, side, price, quantity));
      }
  }

  /** After any run, also one that lost levels, every entry of the cache is sound. */
  lemma {:induction false} RunSound(commands: seq<Command>)
    ensures Sound(Run(commands).book.cache)
  {
    if commands != [] {
      var n := |commands| - 1;
      RunSound(commands[..n]);
      ApplySound(Run(commands[..n]).book, commands[n]);
    }
  }
}

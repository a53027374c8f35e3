/** The cache over whole runs: a price is right after every call exactly as long as no call loses a level there. */
module CacheOverRuns {
  import opened Domain
  import opened Matching
  import opened Engine
  import opened Ledger
  import opened LevelCache
  import opened LostLevels

  /** The book a command's new order, if any, arrives at, and that order. */
  function Arrival(b: Book, c: Command): (Book, Option<OrderRecord>) {
    match c
    case Submit(kind, id, side, price, quantity) => (b, Some(NewOrder(kind, id, side, price, quantity)))
    case CancelOrder(id) => (b, None)
    case ModifyOrder(id, side, price, quantity) =>
      match Resting(b, id)
      case None => (b, None)
      case Some(o) => (Cancel(b, id), Some(NewOrder(o.kind, id, side, price, quantity)))
  }

  /** Checked before the call: the command's new order loses the level of `p` where it arrives. */
  predicate LosesAt(b: Book, c: Command, p: Price) {
    match Arrival(b, c)
    case (_, None) => false
    case (at, Some(o)) => p == Effective(at, o).price && AddLosesLevel(at, o)
  }

  /** If the command's new order has the limit `p`, there is room for one more in the 32-bit count. */
  predicate HasRoomAt(b: Book, c: Command, p: Price) {
    match Arrival(b, c)
    case (_, None) => true
    case (at, Some(o)) => p == Effective(at, o).price ==> Count(at, p) + 1 < TWO_32
  }

  /** One command keeps a right price right if and only if it does not lose the level there. */
  lemma CommandCacheAt(b: Book, c: Command, p: Price)
    requires Valid(b) && AgreesAt(b, p) && HasRoomAt(b, c, p)
    ensures AgreesAt(Apply(b, c).book, p) <==> !LosesAt(b, c, p)
  {
    match c
    case Submit(kind, id, side, price, quantity) =>
      AddOrderCacheAt(b, NewOrder(kind, id, side, price, quantity), p);
    case CancelOrder(id) =>
      CancelAgrees(b, id, p);
    case ModifyOrder(id, side, price, quantity) =>
      if Resting(b, id).Some? {
        ModifyCacheAt(b, id, side, price, quantity, p);
      }
  }

  /** The book after the first `n` commands. */
  ghost function After(commands: seq<Command>, n: nat): (b: Book)
    requires n <= |commands|
    ensures Valid(b)
  {
    Run(commands[..n]).book
  }

  lemma AfterNext(commands: seq<Command>, n: nat)
    requires n < |commands|
    ensures After(commands, n + 1) == Apply(After(commands, n), commands[n]).book
  {
    assert commands[..n + 1][..n] == commands[..n];
  }

  ghost predicate RoomAt(commands: seq<Command>, p: Price) {
    forall n | 0 <= n < |commands| :: HasRoomAt(After(commands, n), commands[n], p)
  }

  /** The cache is right at `p` after each of the first `m` calls. */
  ghost predicate RightAt(commands: seq<Command>, m: nat, p: Price)
    requires m <= |commands|
  {
    forall n | 0 <= n <= m :: AgreesAt(After(commands, n), p)
  }

  /** None of the first `m` calls loses the level of `p`. */
  ghost predicate NoneLostAt(commands: seq<Command>, m: nat, p: Price)
    requires m <= |commands|
  {
    forall n | 0 <= n < m :: !LosesAt(After(commands, n), commands[n], p)
  }

  /** Over any run and for each price by itself: the cache has had an entry there exactly while some order rested
      at it, with their number and total, after every call so far, if and only if no call so far lost the level
      there. What other prices lost does not matter. */
  lemma {:induction false} RunCacheAt(commands: seq<Command>, m: nat, p: Price)
    requires RoomAt(commands, p) && m <= |commands|
    ensures RightAt(commands, m, p) <==> NoneLostAt(commands, m, p)
  {
    if m == 0 {
      assert After(commands, 0) == EMPTY_BOOK;
    } else {
      RunCacheAt(commands, m - 1, p);
      AfterNext(commands, m - 1);
      if RightAt(commands, m - 1, p) {
        assert AgreesAt(After(commands, m - 1), p);
        CommandCacheAt(After(commands, m - 1), commands[m - 1], p);
      }
    }
  }

  /** The whole cache has been right after every call so far if and only if no call so far lost a level. */
  lemma {:induction false} RunCacheExactly(commands: seq<Command>, m: nat)
    requires m <= |commands| && forall p :: RoomAt(commands, p)
    ensures (forall n | 0 <= n <= m :: CacheAgrees(After(commands, n))) <==> (forall p :: NoneLostAt(commands, m, p))
  {
    forall p ensures RightAt(commands, m, p) <==> NoneLostAt(commands, m, p) {
      RunCacheAt(commands, m, p);
    }
    if forall n | 0 <= n <= m :: CacheAgrees(After(commands, n)) {
      forall p ensures RightAt(commands, m, p) {
        forall n | 0 <= n <= m ensures AgreesAt(After(commands, n), p) {
          assert CacheAgrees(After(commands, n));
        }
      }
    }
    if forall p :: NoneLostAt(commands, m, p) {
      forall n, p: Price | 0 <= n <= m ensures AgreesAt(After(commands, n), p) {
        assert RightAt(commands, m, p);
      }
    }
  }
}

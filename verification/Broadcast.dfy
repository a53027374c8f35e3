/** What the broadcaster's readers end up with: its final drain joined to what the shards published. */
module Broadcast {
  import Pipeline
  import RingProtocol
  import Shards
  import Subscribers

  lemma {:induction false} TopsOfConcat(a: seq<Shards.Top>, b: seq<Shards.Top>, symbol: Shards.SymbolId)
    ensures Shards.TopsOf(a + b, symbol) == Shards.TopsOf(a, symbol) + Shards.TopsOf(b, symbol)
  {
    if b == [] {
      assert a + b == a;
      assert Shards.TopsOf(a, symbol) + [] == Shards.TopsOf(a, symbol);
    } else {
      var front := b[..|b| - 1];
      TopsOfConcat(a, front, symbol);
      assert (a + b)[..|a + b| - 1] == a + front;
    }
  }

  /** Readers show the same after two lists of updates that end alike, if the common end has one of the symbol. */
  lemma SameEndShown(a: seq<Shards.Top>, b: seq<Shards.Top>, end: seq<Shards.Top>, symbol: Shards.SymbolId)
    requires Shards.TopsOf(end, symbol) != []
    ensures Shards.Shown(a + end, symbol) == Shards.Shown(b + end, symbol)
  {
    TopsOfConcat(a, end, symbol);
    TopsOfConcat(b, end, symbol);
  }

  /** The items the final drain of a cursor takes. */
  function Window(k: RingProtocol.Core<Shards.Top>, c: RingProtocol.Consumer<Shards.Top>): seq<Shards.Top>
    requires c.position <= k.published <= |k.pushes|
  {
    var backlog := k.published - c.position;
    k.pushes[k.published - (if backlog <= |k.slots| then backlog else |k.slots|)..k.published]
  }

  /** The reader has not missed an update of the symbol that still counts: the latest is among those it drains, or
      it was up to date when the drain began and drains all the rest. */
  predicate Covers(k: RingProtocol.Core<Shards.Top>, c: RingProtocol.Consumer<Shards.Top>, got: seq<Shards.Top>,
                   symbol: Shards.SymbolId)
    requires c.position <= k.published <= |k.pushes|
  {
    || Shards.TopsOf(Window(k, c), symbol) != []
    || (got == k.pushes[..c.position] && k.published - c.position <= |k.slots|)
  }

  lemma DrainShowsLatest(k: RingProtocol.Core<Shards.Top>, c0: RingProtocol.Consumer<Shards.Top>,
                         got0: seq<Shards.Top>, c: RingProtocol.Consumer<Shards.Top>, got: seq<Shards.Top>,
                         symbol: Shards.SymbolId)
    requires Subscribers.Fit(k, c0) && Subscribers.Drained(k, c0, got0, c, got) && Covers(k, c0, got0, symbol)
    ensures Shards.Shown(got, symbol) == Shards.Shown(k.pushes, symbol)
  {
    var window := Window(k, c0);
    var before := k.pushes[..k.published - |window|];
    assert k.pushes == before + window && got == got0 + window;
    if Shards.TopsOf(window, symbol) != [] {
      SameEndShown(got0, before, window, symbol);
    } else {
      assert before == k.pushes[..c0.position];
    }
  }

  /** After the shards have stopped, a reader of a shard's updates that drains what is left in the ring shows, for
      each symbol it has not missed the latest update of, the top of the final book: that of the single-threaded
      fold of everything ever accepted for the symbol. */
  lemma FinalDrainShowsBooks(trace: seq<Pipeline.System>, steps: seq<Pipeline.Step>, n: nat, symbol: Shards.SymbolId,
                             k: RingProtocol.Core<Shards.Top>, c0: RingProtocol.Consumer<Shards.Top>,
                             got0: seq<Shards.Top>, c: RingProtocol.Consumer<Shards.Top>, got: seq<Shards.Top>)
    requires Pipeline.Execution(trace, steps) && n < |trace| && |trace[n].lanes| > 0
    requires trace[n].phase.StoppingBroadcaster? || trace[n].phase.Stopped?
    requires k.pushes == trace[n].lanes[Pipeline.LaneOf(trace[n].hash, symbol, |trace[n].lanes|)].shard.tops
    requires Subscribers.Fit(k, c0) && Subscribers.Drained(k, c0, got0, c, got) && Covers(k, c0, got0, symbol)
    ensures Shards.ShowsBook(Shards.Shown(got, symbol),
                             Shards.BookFold(Shards.OfSymbol(trace[n].history, symbol)), symbol)
  {
    DrainShowsLatest(k, c0, got0, c, got, symbol);
    Pipeline.ShutdownLosesNothing(trace, steps, n, symbol);
    Pipeline.ShardingTransparent(trace, steps, n, symbol, Pipeline.LaneOf(trace[n].hash, symbol, |trace[n].lanes|));
    Pipeline.PublishedInOrder(trace, steps, n, Pipeline.LaneOf(trace[n].hash, symbol, |trace[n].lanes|), symbol);
  }
}

# OsborneX: matching, queues, sharding and profit, modelled and proved

OsborneX takes order messages over a bounded multi-producer queue, stamps them with a sequence number, routes
them to shards by symbol, and matches them in a price-time-priority limit order book per symbol. Trade prints and
top-of-book updates leave through ring buffers with lossless and lossy readers. A small library computes positions
and profit from fills. This project models those parts and proves what they promise, keeping the code's own
behaviour where it differs from its intent.

## What is modelled

**Order book** (`Domain`, `Ladder`, `Matching`, `Consistency`, `Sweeping`, `Engine`, `Ledger`, `RunSteps`, `BookViews`,
`LevelCache`, `LostLevels`, `CacheOverRuns`, `SoundCache`, `FillOrKill`, `FillAndKill`, `CancelModify`, `PositiveQuantities`,
`SmallBooks`, `LostLevelExample`, `OrderBook`). `Matching` writes every operation branch by branch on values: two sorted sides of first-in first-out
levels, the id index, and the per-price cache with 32-bit wrap-around. The class `OrderBook` runs the same
operations in place with the loops of the source and is proved equal to those functions; the order object a caller
hands to `AddOrder` is filled by its trades as in the source. The reference is `Sweeping.Sweep`, one pass over a flat
queue that knows nothing of levels, index or cache. A trade leg carries its own order's limit price. Prices are exact
and totally ordered; order quantities may be zero, as the engine does not check.

Four results about the book as written:

- After the best opposing level, the rest of a FillAndKill order is cancelled (`Engine.FillAndKillOneLevel`). It
  trades all it could within its limit if and only if the best level covers it or is everything within the limit
  (`FillAndKill.FillAndKillFillsAll`); `FillAndKill.FillAndKillCutShort` is a run on which it does not.
- `MatchOrders` erases the cache entry of an emptied level's price although the other side may still use that price.
  `LostLevels.AddOrderCacheAt` says exactly when, price by price and whatever the cache already has wrong elsewhere, by
  a condition on book and order before the call: only the order's limit can be lost. The limit price must be in use on the opposing side. Then a level is lost unless the order's quantity exactly exhausts all it can reach;
  only, a FillAndKill whose limit is beyond the best opposing price loses a level if and only if the best level covers
  it, since otherwise its rest is killed and properly taken off the cache. The limit of a Market order is always a
  price in use, so it loses a level unless it exactly exhausts the side. `CacheOverRuns.RunCacheAt`
  carries the condition over whole runs, each price by itself.
- One FillOrKill is all or nothing if and only if the scanned cache total and the real liquidity give the same answer
  for its quantity (`FillOrKill.FillOrKillJudged`), so at a price it is for every 32-bit quantity if and only if the two
  are equal or both cover the largest (`FillOrKill.FillOrKillExactly`); with a right cache they are
  (`FillOrKill.FillOrKillAllOrNothing`). An entry that is missing makes the scan count too little: orders that could fill are refused, accepted ones still fill. A
  bogus entry makes it count too much. `LostLevelExample` gives a run to each: a FillOrKill the book could fill is
  refused, and one that cannot be filled trades in part and rests.
- Cancelling an order just added that crossed nothing restores the very same book, cache included, if and only if the
  stored count of its price was not full or the stored quantity was the order's below zero
  (`CancelModify.CancelUndoesAdd`). A lost level can leave such a count behind, and
  `LostLevelExample.CancelDoesNotUndoAdd` is a run on which the cache entry then comes back with a wrong quantity.

**Ring buffer** (`RingProtocol`, `RingSafety`, `RingDelivery`, `TornReads`, `SlotArithmetic`, `RingBuffer`,
`Subscribers`). The protocol is a step system: one sequentially consistent shared access per step, any interleaving of
one producer and any number of Lossless and Lossy cursors. Writing a slot's value, stamping the slot and raising the
published count are three steps. At that granularity a Lossy read can return the item that is overwriting its own,
without counting a loss (`RingDelivery.TornRead`); `TornReads.WrongExactlyWhenTorn` says exactly when, and it is exact
when a push is not interrupted (`RingDelivery.WholePushExact`). The classes in `RingBuffer` and `Subscribers` are the
single-threaded view.

**Bounded queue** (`MpscQueues`). A monitor whose critical sections are single steps; each notification is a later step
of its own, and waiting threads may wake up for no reason.

**Shards, pipeline and shutdown** (`Shards`, `Pipeline`, `Channels`, `MonitoredPath`, `Broadcast`). A shard applies
messages to a book per symbol and publishes trade prints and changed tops. The pipeline is the whole path from
connection threads blocked in push to processing, under every schedule, with bounded queues and the stop sequence
listener, pump, shards, broadcaster; stopping the listener waits for the connection threads. It moves items through its
queue and rings in single steps; `Channels` proves that the monitor queue, and the ring for a Lossless cursor, are such
channels in every interleaving. `MonitoredPath` puts the monitor itself into the path, thread by thread, proves that
this refines the path, and that it is never stuck although threads sleep until they are notified. `Broadcast` joins the
final drain of a reader to what the shards published.

**Positions** (`Positions`). Average-cost accounting in exact arithmetic, for every sequence of fills.

## Model

| member | source | states |
|---|---|---|
| OrderBooks.Order.Fill | Orderbook/inc/Orderbook/order.hpp:41-50 | takes the quantity off what remains, or silently does nothing when it is larger |
| OrderBooks.Order.ToGoodTillCancel | Orderbook/inc/Orderbook/order.hpp:53-60 | succeeds exactly on Market orders, sets price and type; otherwise an error and no change |
| OrderBooks.OrderBook.constructor | Orderbook/inc/Orderbook/orderbook.hpp:16 | a new book is empty and valid |
| OrderBooks.OrderBook.Size | Orderbook/src/orderbook.cpp:176-179 | the number of orders resting on both sides |
| OrderBooks.OrderBook.CanMatch | Orderbook/src/orderbook.cpp:213-236 | whether the limit reaches the best opposing price |
| OrderBooks.OrderBook.CanFullyFill | Orderbook/src/orderbook.cpp:10-53 | the early-exit scan decides, for every iteration order of the unordered cache, whether the cached quantity in the window covers the order |
| OrderBooks.OrderBook.GetOrderInfos | Orderbook/src/orderbook.cpp:181-211 | for both sides exactly the prices in use, strictly best first, each with the 32-bit sum of what rests there |
| BookViews.InfosDescribe | Orderbook/src/orderbook.cpp:188-205 | the levels of a valid side, with their totals, are exactly such a list |
| BookViews.InfosTotal | Orderbook/src/orderbook.cpp:188-193 | when no level reaches 2^32 the reported quantities add up to everything resting on the side |
| OrderBooks.OrderBook.UpdateLevelData | Orderbook/src/orderbook.cpp:350-366 | one cache update with unsigned wrap-around, entry removed at count zero |
| OrderBooks.OrderBook.CancelOrderInternal | Orderbook/src/orderbook.cpp:129-162 | the whole new state of a cancel: index, list, level, cache; unknown ids change nothing |
| OrderBooks.OrderBook.MatchBest | Orderbook/src/orderbook.cpp:259-300 | one turn of the inner loop: both front orders, index, cache and trade |
| OrderBooks.OrderBook.MatchLevels | Orderbook/src/orderbook.cpp:257-301 | the inner loop ends with the state and trades of the model, and terminates |
| OrderBooks.OrderBook.DropEmptyLevel | Orderbook/src/orderbook.cpp:303-313 | an emptied best level goes, with the cache entry of its price whoever else uses it |
| OrderBooks.OrderBook.KillIfTransient | Orderbook/src/orderbook.cpp:315-329 | a FillAndKill at the front of a side is cancelled |
| OrderBooks.OrderBook.PlayRound | Orderbook/src/orderbook.cpp:254-329 | one turn of the outer loop |
| OrderBooks.OrderBook.MatchOrders | Orderbook/src/orderbook.cpp:238-333 | the nested loops compute the model's book and trades, and terminate |
| OrderBooks.OrderBook.Admit | Orderbook/src/orderbook.cpp:57-82 | refuses exactly the four cases, and gives an admitted Market order the worst opposing price |
| OrderBooks.OrderBook.Enter | Orderbook/src/orderbook.cpp:84-115 | queues, indexes and counts the order, then matches |
| OrderBooks.OrderBook.AddOrder | Orderbook/src/orderbook.cpp:55-116 | the model's book and trades; keeps the book valid; an order turned down changes nothing; any other loses exactly what it traded, and a Market order ends as GoodTillCancel at the worst opposing price |
| OrderBooks.SweepFills | Orderbook/inc/Orderbook/order.hpp:41-50 | no fill of an incoming order is ever refused; the trades that name it take off exactly their total |
| OrderBooks.OrderBook.CancelOrder | Orderbook/src/orderbook.cpp:124-127 | the model's cancel, keeping the book valid; an unknown id changes nothing |
| OrderBooks.OrderBook.ModifyOrder | Orderbook/src/orderbook.cpp:164-174 | cancel, then add a new order of the kept type; unknown ids change nothing |
| Matching.RoundShrinks | Orderbook/src/orderbook.cpp:243-330 | every turn of the outer loop takes at least one order off the book and leaves no empty level |
| Ladder.InsertBehind | Orderbook/src/orderbook.cpp:86-104 | a new order queues behind every order at a price at least as good and ahead of every worse one |
| Consistency.IndexCounts | Orderbook/src/orderbook.cpp:176-179 | the index has exactly one entry for every resting order |
| Consistency.RestConsistent | Orderbook/src/orderbook.cpp:84-113 | adding keeps index and lists in bijection, each order at its own side and price |
| Consistency.CancelConsistent | Orderbook/src/orderbook.cpp:129-162 | cancelling keeps the bijection and removes exactly that id |
| Consistency.MatchOrdersConsistent | Orderbook/src/orderbook.cpp:238-333 | however the book got crossed, matching keeps the bijection and ends uncrossed |
| Sweeping.SweepQuantities | Orderbook/src/orderbook.cpp:262-272 | the reference sweep fills completely iff the queue covers the order; both sides give up the same quantity; the residual is exact |
| Sweeping.SweepPriority | Orderbook/src/orderbook.cpp:259-297 | trade number i is with queue position i, at each order's own limit price, and all makers but the last are filled whole |
| Sweeping.SweepKeepsOrder | Orderbook/src/orderbook.cpp:274-284 | what is left of the queue keeps its order |
| Sweeping.SweepConcat | Orderbook/src/orderbook.cpp:243-330 | sweeping level after level is sweeping the concatenation |
| Sweeping.MatchIsSweep | Orderbook/src/orderbook.cpp:238-333 | matching an order on top of its side equals one sweep of the levels within reach |
| Engine.AddOrderIsSweep | Orderbook/src/orderbook.cpp:55-116 | every accepted order of any type yields exactly the trades, leftover opposing queue, residual and kills of the sweep |
| Engine.FlattenInjective | Orderbook/inc/Orderbook/orderbook.hpp:49-50 | the orders in priority order determine the levels of a side |
| Engine.RefusedExactly | Orderbook/src/orderbook.cpp:57-82 | AddOrder turns an order down, changing nothing, for exactly four reasons: known id, FillAndKill with nothing within its limit, Market with nobody opposite, FillOrKill the scan denies; any other enters |
| Engine.EffectiveEnters | Orderbook/src/orderbook.cpp:64-78 | a Market order enters as a GoodTillCancel order limited to the opposing price in use that none is worse than; any other enters as it is |
| Engine.MarketFillsOrEmpties | Orderbook/src/orderbook.cpp:64-78 | a Market order fills completely or empties the opposing side, every own leg at the worst opposing price; only then its rest stays, at the back of that price |
| Engine.FillAndKillOneLevel | Orderbook/src/orderbook.cpp:315-329 | a FillAndKill sweeps the best opposing level only; its rest is killed and nothing of it rests |
| FillAndKill.FillAndKillFillsAll | Orderbook/src/orderbook.cpp:315-329 | a FillAndKill trades all the liquidity within its limit it can use iff the best level covers it or is all of that liquidity |
| FillAndKill.FillAndKillCutShort | Orderbook/src/orderbook.cpp:315-329 | a run after which a FillAndKill for 10 with 10 within its limit trades 5 and is killed |
| Engine.AddOrderValid | Orderbook/src/orderbook.cpp:55-116 | AddOrder keeps the book invariant for every order |
| Engine.CancelValid | Orderbook/src/orderbook.cpp:129-162 | CancelOrder keeps the book invariant |
| Engine.ModifyValid | Orderbook/src/orderbook.cpp:164-174 | ModifyOrder keeps the book invariant |
| Ledger.CancelSum | Orderbook/src/orderbook.cpp:129-162 | a cancel takes exactly the order's remaining quantity off its side |
| Ledger.MatchOrdersSum | Orderbook/src/orderbook.cpp:238-333 | matching moves quantity only from the book into trades and kills |
| Ledger.MatchOrdersFair | Orderbook/src/orderbook.cpp:241-333 | every trade has bid price at least ask price and equal legs, and there are never more trades than orders at entry |
| Ledger.AddOrderSum | Orderbook/src/orderbook.cpp:55-116 | per side, what rested plus what came in is what rests, traded or was killed |
| Ledger.RunUncrossed | Orderbook/src/orderbook.cpp:243-252 | after any run: best bid below best ask, no empty level, index in step, no FillAndKill or Market order rests |
| RunSteps.AfterSubmit | Sharding/src/shard.cpp:119-130 | a submission in a run is AddOrder of an order with nothing traded yet |
| RunSteps.AfterCancel | Sharding/src/shard.cpp:132-134 | a cancel in a run takes its order out of queue and index and does nothing else; an unknown id changes nothing |
| RunSteps.AfterModify | Sharding/src/shard.cpp:135-141 | a modify in a run withdraws the order, sweeps with its successor and queues what is left last; an unknown id changes nothing |
| RunSteps.UnknownId | Orderbook/src/orderbook.cpp:166-167 | cancelling or modifying an unknown id leaves the same book, no trades, nothing placed |
| Ledger.RunConserves | Orderbook/src/orderbook.cpp:55-174 | over any run, per side: accepted = resting + traded + killed + withdrawn; bid-traded equals ask-traded |
| PositiveQuantities.RunPositive | Orderbook/src/orderbook.cpp:257-284 | with positive submitted quantities no order ever rests with nothing left |
| LevelCache.UpdateEntry | Orderbook/src/orderbook.cpp:350-366 | one update of any cache: a missing entry counts as zeros, both fields go on modulo 2^32, an entry whose count becomes zero goes away, other prices keep theirs |
| LevelCache.RestAgrees | Orderbook/src/orderbook.cpp:340-343 | adding keeps count and total right at every price where they were |
| LevelCache.CancelAgrees | Orderbook/src/orderbook.cpp:129-162 | cancelling keeps the cache right at every price where it was; it never loses a level |
| LevelCache.MatchLevelAgrees | Orderbook/src/orderbook.cpp:257-301 | the inner loop keeps the cache right at every price where it was, also at one both sides share |
| LevelCache.SweptAgreesAt | Orderbook/src/orderbook.cpp:303-313 | after the erases of a round a price that was right is wrong iff it was erased and is still in use |
| LostLevels.ExhaustsMeans | Orderbook/src/orderbook.cpp:257-284 | both order and queue are used up iff the quantity exactly exhausts the queue |
| LostLevels.AddOrderCacheAt | Orderbook/src/orderbook.cpp:299-313 | whatever the cache has wrong elsewhere, AddOrder leaves a right price right iff it is not the limit of an order that loses a level, by a condition on book and order before the call |
| LostLevels.ModifyCacheAt | Orderbook/src/orderbook.cpp:164-174 | ModifyOrder leaves a right price right iff its second half does not lose the level there |
| LostLevels.QuietAddEntry | Orderbook/src/orderbook.cpp:340-343 | an order that crosses nothing is counted with its initial quantity |
| CacheOverRuns.RunCacheAt | Orderbook/src/orderbook.cpp:335-366 | over any run and for each price by itself, the cache entry was right after every call so far iff no call so far lost the level there |
| CacheOverRuns.RunCacheExactly | Orderbook/src/orderbook.cpp:335-366 | over any run, the whole cache was right after every call so far iff no call so far lost a level |
| SoundCaches.RunSound | Orderbook/src/orderbook.cpp:350-366 | after any run every cache entry has 32-bit fields and a count that is not zero |
| FillOrKill.CachedSumAny | Orderbook/src/orderbook.cpp:35-50 | the scanned total does not depend on the iteration order |
| FillOrKill.CanFullyFillExact | Orderbook/src/orderbook.cpp:10-53 | with a right cache the scan answers whether the opposing liquidity within the limit covers the quantity, both ways |
| FillOrKill.WindowMeans | Orderbook/src/orderbook.cpp:35-43 | the scan counts the cached prices from the best opposing one to the limit |
| FillOrKill.FillOrKillJudged | Orderbook/src/orderbook.cpp:80-82 | whatever the cache, a FillOrKill with something left fills completely or leaves the book alone iff the scanned total covers its initial quantity exactly when the liquidity covers what is left |
| FillOrKill.FillOrKillExactly | Orderbook/src/orderbook.cpp:10-53 | at a price FillOrKill is all or nothing for every quantity up to a bound iff the scan adds up exactly the liquidity within the limit or both cover the bound |
| FillOrKill.FillOrKillAllOrNothing | Orderbook/src/orderbook.cpp:80-82 | with a right cache a FillOrKill trades completely and never rests, or leaves the book alone because it cannot be filled |
| LostLevelExample.FillOrKillWronglyRefused | Orderbook/src/orderbook.cpp:303-307 | the book after a given run, on which a fillable FillOrKill is refused |
| LostLevelExample.FillOrKillRests | Orderbook/src/orderbook.cpp:309-313 | the book after a given run, on which a FillOrKill trades 1 of 1000 and rests |
| CancelModify.CancelUndoesAdd | Orderbook/src/orderbook.cpp:106-113 | cancelling a just added order that crossed nothing restores the whole book, cache included, iff the stored count of its price was not full or the stored quantity was the order's below zero |
| CancelModify.CancelUndoesAddOverRuns | Orderbook/src/orderbook.cpp:350-366 | the same on the book after any run, with nothing assumed of the cache |
| LostLevelExample.CancelDoesNotUndoAdd | Orderbook/src/orderbook.cpp:352-365 | the book after a given run, on which an add and its cancel leave a different book |
| CancelModify.CancelKeepsPriority | Orderbook/src/orderbook.cpp:137-159 | a cancel takes one order out of its side's queue and keeps everybody else's order |
| CancelModify.ModifyLosesPriority | Orderbook/src/orderbook.cpp:164-174 | a modification, crossing or not, withdraws the order and sweeps with a new one of the old type; what is left goes behind everybody at its new price, even its old one; all others keep their order |
| CancelModify.QuietModifyLosesPriority | Orderbook/src/orderbook.cpp:164-174 | one that crosses nothing trades nothing and goes to the back of its new price |
| SlotArithmetic.CapacityIsLeast | Queue/inc/Queue/ring_buffer.hpp:45-49 | the capacity is the least power of two that is at least 1 and at least the request |
| SlotArithmetic.MaskIsModulo | Queue/inc/Queue/ring_buffer.hpp:184 | masking with capacity - 1 is the remainder by the capacity |
| SlotArithmetic.MaskInjective | Queue/inc/Queue/ring_buffer.hpp:105 | within one capacity all masked sequence numbers differ |
| RingSafety.StaleStamp | Queue/inc/Queue/ring_buffer.hpp:107-113 | a stamp check fails exactly when the slot has been republished |
| RingSafety.CopiedValue | Queue/inc/Queue/ring_buffer.hpp:110 | what a reader copies from a slot not yet restamped is its item, or the item being written over it exactly while that write is unfinished |
| RingSafety.NextGood | Queue/inc/Queue/ring_buffer.hpp:90-142 | every step of any thread keeps the ring invariant |
| RingSafety.ExecutionGood | Queue/inc/Queue/ring_buffer.hpp:90-205 | the ring invariant holds in every state of every interleaving |
| RingDelivery.LosslessDelivery | Queue/inc/Queue/ring_buffer.hpp:90-142 | with blocking pushes only, a Lossless cursor has exactly the published items up to its position, drops nothing, never reports a stale slot |
| RingDelivery.LosslessSlotUntouched | Queue/inc/Queue/ring_buffer.hpp:105-115 | from its first check to its commit a Lossless cursor's slot holds its item in every state |
| RingDelivery.GateProgress | Queue/inc/Queue/ring_buffer.hpp:164-175 | when the gate spins, its cursor is exactly one capacity behind, and that cursor's next read succeeds and unblocks the gate |
| RingDelivery.SoloReadMeans | Queue/inc/Queue/ring_buffer.hpp:90-142 | an uninterrupted read returns the item at the catch-up point and counts exactly the skipped ones, or drops one item iff a Lossless cursor was lapped |
| RingDelivery.ReadAccounting | Queue/inc/Queue/ring_buffer.hpp:98-116 | between reads position = delivered + dropped, deliveries strictly increase, every Ok value is the item or its overwriter, every missed item was republished over |
| RingDelivery.WholePushExact | Queue/inc/Queue/ring_buffer.hpp:200-205 | when pushes are not interrupted every Ok read returns exactly its item |
| RingDelivery.TornRead | Queue/inc/Queue/ring_buffer.hpp:110-113 | an execution in which an item is lost uncounted and the next one delivered twice |
| TornReads.WrongExactlyWhenTorn | Queue/inc/Queue/ring_buffer.hpp:107-116 | in every interleaving an Ok read is wrong iff its copy ran between the write one lap later and that write's stamp, and the two values differ |
| RingBuffers.RingBuffer.constructor | Queue/inc/Queue/ring_buffer.hpp:45-49 | a new ring is empty and has the least power-of-two capacity |
| RingBuffers.RingBuffer.PushOverwrite | Queue/inc/Queue/ring_buffer.hpp:200-205 | appends one item and keeps slots, stamps and counts in step |
| RingBuffers.Cursor.TryRead | Queue/inc/Queue/ring_buffer.hpp:90-142 | result, value and new cursor of a read with the producer at rest: empty, Ok, or dropped because a Lossless cursor was lapped |
| Subscribers.Subscriber.TryRead | Queue/inc/Queue/ring_buffer.hpp:90-117 | advances one source's cursor on its ring and yields its item, or nothing when it is empty |
| Subscribers.Subscriber.PollAllSourcesOnce | PubSub/src/subscriber.cpp:54-72 | takes at most one item from each source, passes them on in the order of the sources, and reports progress iff some source had one |
| Subscribers.Subscriber.Drain | PubSub/src/subscriber.cpp:33-37 | terminates having taken from each source exactly its last min(capacity, backlog) items in order, the others counted as dropped |
| MpscQueues.ExecutionStarts | Queue/inc/Queue/mpsc_queue.hpp:24-27 | a new queue, whatever the capacity asked for, is the start of an execution; a capacity of zero counts as one |
| MpscQueues.NoLostWakeUp | Queue/inc/Queue/mpsc_queue.hpp:37-63 | while open, free slots with waiting producers are covered by pending and delivered wake-ups; a sleeping consumer with items has one pending |
| MpscQueues.NeverStuck | Queue/inc/Queue/mpsc_queue.hpp:37-79 | at rest producers sleep only on a full open queue, the consumer only on an empty open one, nobody on a closed one |
| MpscQueues.FifoAndDrained | Queue/inc/Queue/mpsc_queue.hpp:51-63 | popped plus queued is what was accepted, in order; nullopt means closed and drained |
| Channels.QueueIsChannel | Queue/inc/Queue/mpsc_queue.hpp:37-79 | every interleaving on the monitor is a run of a bounded first-in first-out channel of its capacity |
| Channels.RingIsChannel | Queue/inc/Queue/ring_buffer.hpp:90-198 | with blocking pushes, every interleaving on the ring is, for each Lossless cursor, a run of such a channel |
| Channels.PathUsesChannels | Sharding/src/shard.cpp:31 | the order path does to its queue and to each ring only what such a channel allows |
| Shards.BookIsFold | Sharding/src/shard.cpp:119-142 | a symbol's book is the fold of its own messages, whatever else the shard handles |
| Shards.FoldIsRun | Sharding/src/shard.cpp:119-142 | that fold is the run of the messages' commands on one book, trades included |
| Shards.PublishedTopsShowBooks | Sharding/src/shard.cpp:144-150 | keeping the latest update per symbol from an empty top always shows the best bid and ask in use and the 32-bit quantities there, and no update repeats its predecessor |
| Shards.PublishesExactly | Sharding/src/shard.cpp:144-150 | a message publishes nothing if readers show the new top already, except the first one of a symbol other than 0; else one update with its number that shows the new book |
| Shards.PrintsAreTrades | Sharding/src/shard.cpp:153-167 | the trades a symbol's prints report are those of the single-threaded book, in order |
| Shards.PrintsExactly | Sharding/src/shard.cpp:153-167 | a message's prints carry its symbol and number and are its trades one by one, field by field |
| Shards.PublishedSequences | Sharding/src/shard.cpp:153-170 | update sequence numbers rise strictly, trade ones never fall |
| Shards.Shard.ProcessOne | Sharding/src/shard.cpp:108-171 | books, remembered tops, trade prints and updates after one message |
| Shards.Shard.PublishTop | Sharding/src/shard.cpp:144-150 | publishes and remembers the update iff symbol, a price or a quantity differs from the remembered one, a default top with symbol 0 at first |
| Shards.Shard.PublishTrades | Sharding/src/shard.cpp:153-167 | one print per trade, in order, with the message's sequence number |
| Shards.Shard.Drain | Sharding/src/shard.cpp:65-70 | processes everything left in order |
| Pipeline.ShardingTransparent | Sharding/src/router.cpp:13-22 | under any schedule and shard count each symbol's history is processed then pending in its one shard, whose book is the single-threaded fold |
| Pipeline.PublishedInOrder | Ingress/src/ingress.cpp:13-21 | under any schedule every shard's published sequences rise, its updates show the books, and its prints are the books' trades |
| Pipeline.ShutdownLosesNothing | Server/src/server.cpp:38-52 | once the shards are stopped every request read from a connection has been accepted, stamped in order and processed exactly once |
| Pipeline.ShutdownNeverStuck | Server/src/ingress_pump.cpp:16-30 | until stop is done some thread can move, even with every queue full; while connection threads are stuck in push, it is one of them, the pump or a worker |
| Pipeline.ShutdownTerminates | Sharding/src/shard.cpp:47-70 | once stop has been called every step of any thread brings its end closer |
| MonitoredPath.RefinesPath | Server/src/server.cpp:9-18 | with the monitor queue in it, thread by thread, every state of the path is reached by steps of the path alone, and queue and threads stay in step |
| MonitoredPath.LosesNothing | Server/src/ingress_pump.cpp:16-30 | with the monitor in place everything read is still accepted, stamped in that order and processed once |
| MonitoredPath.NeverStuck | Queue/inc/Queue/mpsc_queue.hpp:37-79 | although threads sleep until notified, until stop is done some thread can move; while one is inside push it is a connection thread, the pump or a worker |
| Broadcast.FinalDrainShowsBooks | PubSub/src/subscriber.cpp:25-38 | after the shards have stopped, a reader that drains what is left shows the top of the final book of each symbol whose latest update it has not missed |
| Positions.FillIdentity | TradeMetrics/src/trademetrics/position.py:35-64 | every branch lowers equity at cost by exactly the cash of the fill |
| Positions.NextFill | TradeMetrics/src/trademetrics/position.py:39-64 | a fill on the position's side books nothing and adds its cost; one on the other side keeps the average cost and books the spread on what it closes; a larger one reopens at its price |
| Positions.AccountingIdentity | TradeMetrics/src/trademetrics/position.py:29-64 | realized profit is what was sold for less what was bought for, plus the position at average cost, for every fill sequence |
| Positions.MarkToMarket | TradeMetrics/src/trademetrics/position.py:77-86 | realized plus unrealized is cash plus position at mark |
| Positions.AverageCostWithin | TradeMetrics/src/trademetrics/position.py:40-45 | average cost lies within any bounds of the entry prices since the position was last flat or reversed |
| Positions.PortfolioIdentity | TradeMetrics/src/trademetrics/position.py:72-86 | over all symbols realized plus unrealized is cash plus positions at mark, unmarked ones at cost |
| Positions.NonZeroTotal | TradeMetrics/src/trademetrics/position.py:89-95 | leaving out zero results keeps the total |
| Positions.PositionTracker.Book | TradeMetrics/src/trademetrics/position.py:39-64 | the two branches, field by field, give the position and profit of the model |
| Positions.PositionTracker.Apply | TradeMetrics/src/trademetrics/position.py:29-37 | records the fill and returns by how much it changed the symbol's realized profit |
| Positions.PositionTracker.RealizedPnl | TradeMetrics/src/trademetrics/position.py:72-75 | all symbols: the total of the profits of all fills; one symbol: its net cash plus net position at average cost |
| Positions.PositionTracker.PositionIn | TradeMetrics/src/trademetrics/position.py:66-67 | quantity bought less quantity sold, zero when never traded |
| Positions.PositionTracker.UnrealizedPnl | TradeMetrics/src/trademetrics/position.py:77-86 | cash plus positions at mark, less realized profit |
| Positions.RealizedPnlsFromFills | TradeMetrics/src/trademetrics/position.py:89-95 | the non-zero profits in order, which add up to the realized total |

## Left out

- Aliasing of orders: the source's lists and index share one mutable order object with the caller. The model stores
  the order's value in the list and fills the caller's object beside it during the call that adds it; fills by later
  calls do not reach that object, and a list iterator is modelled by the id of its order.
- OrderBooks.OrderBook.MatchBest: fills, pops and records the bid and then the ask, where the source interleaves these
  updates; the state after the turn is the same.
- LostLevels.AddOrderCacheAt: assumes fewer than 2^32 orders at the price, so that a count does not wrap on an add;
  totals may wrap.
- FillOrKill.CanFullyFillExact: assumes each opposing level's total is below 2^32; beyond that the 32-bit cache cannot
  hold it.
- CacheOverRuns.RunCacheAt: assumes the same room in the 32-bit count at every arrival at the price.
- The comment in Messages/inc/Messages/trade_execution.hpp says a trade happens at the resting order's price; the code
  gives each leg its own limit price and the model follows the code.
- Floating-point rounding and not-a-number prices: prices and profits are exact, an absent price is an option value.
- Weaker memory orders than sequential consistency, and torn copies of a single value, in the ring buffer.
- Wrap-around of 64-bit sequence numbers, and ids and symbols as bounded integers.
- RingBuffers.Cursor.TryRead: one thread at a time, the producer at rest; concurrent readers and blocking pushes are in
  `RingProtocol`. A lapped Lossless cursor, an assertion failure in debug builds, drops the item as in release builds.
- Subscribers.Subscriber.TryRead: with every producer at rest, as in the drain after stop; its cursors are Lossy, so no
  read drops an item by itself.
- MonitoredPath.NeverStuck: the monitor is in the path, the rings are not; they are joined to it by `Channels` only.
- Connection threads are taken to have read their request when they are seen running; the bytes, and the reaping of
  finished connections, are not modelled.
- The event handler a subscriber calls, and the second reader of the same shape for trade prints.
- Shards publish into growing logs; what a lossy reader of a bounded output ring gets is the subject of `RingDelivery`.
- Real scheduling, timeouts and yields: any thread may take any enabled step. Restarting a stopped server.
- Timestamps of messages and trade prints, and the debug checks of calling threads.
- Sockets, wire formats, bots, the terminal view and the return statistics: input and output, or easy folds.

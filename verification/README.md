# A small exchange and its clients, in Dafny

The repository holds an electronic exchange (order server, matching engine, market data publisher, snapshot
synthesizer) and its trading clients (market data consumer, replica order book, order manager, risk and position
keeping). This project models its core and proves what the parts promise each other.

`dafny verify dfyconfig.toml` checks everything.

## What is modelled

**The exchange book.** `Matching` is an abstract matcher: two queues of orders, best price first and oldest first.
`LinkedBooks.LinkedBook` is the intrusive structure itself: two circular lists of price levels, a circular FIFO per
level, the price array, and two block pools; a pointer is a block index. `MatchingEngineOrderBook.MEOrderBook` adds the
client-order index and the two requests, and each of its methods is proved to produce exactly the next book, responses
and updates of `Matching`, unless two prices share a slot: its contracts say exactly when, and `PriceSlots` how it comes
about. `Executions` says field by field what a request tells the clients and the market, and that no trade is beyond the
incoming order's limit. `Guarantees` proves what every request keeps (sorted, uncrossed, no duplicates) and that
quantity is conserved; `OrderLedger` does so for every single order of every session. `IndexAgreement` compares the
array index with the map index of the second book.

**Market data.** `Replication` says what an update does to a replica and proves that the exchange's updates rebuild the
exchange's book; `MarketStream` does so for all instruments at once, with numbering. `Snapshot` proves that a snapshot
equals the history it was taken from, and `SnapshotSynthesizer` is the class that takes it. `Recovery` is the consumer's
step function, `MarketDataConsumer` the class proved equal to it, and `RecoveryTheorem` the theorem over every run on a
lossy network; `LosslessFeed` is the ordinary run, in which nothing is lost. `RecoveryEnds` says exactly when one
snapshot cycle ends a recovery. `TornSnapshot` is the one way it can go wrong. `MarketOrderBook` is the client's replica
on the same linked structure, and `TopOfBook` says when its cached best prices agree with it. `ReplicaRun` runs the two
linked books side by side.

**Orders, risk, position.** `OrderManager` is the slot machine, `RiskManager` the pre-trade gate, `PositionKeeper` the
profit accounting in exact reals. `OrderLoop` closes the loop with `Matching`, which takes pending requests in any order
and answers through a FIFO, and with other clients that do what they like, and proves the slot protocol for every
reachable state and any limits; `PositionLimits` proves the position limit, and for which limits it holds.

**Plumbing.** `Pools` is the block allocator, `LockFreeQueue` the ring as a state machine over its atomic steps,
`Wire`, `OrderServer` and `OrderGateway` the order connection: requests from numbering through bytes in arbitrary
pieces to the sequencer, and responses back to the client they are for.

Conventions: prices are unbounded integers and their slot is the Euclidean remainder, which is what the conversion to
an unsigned index computes for negative prices too. Quantities are naturals; where 32-bit arithmetic shows (the sum at
the best price, the risk gate, the volume), it is written out. The matcher passes the incoming order's id on as a
32-bit quantity, so the fill reported to the incoming side carries the id modulo 2^32 (`Matching.AggressorFill`).
Arrays the source leaves uninitialised are taken to start as null or zero. `LinkedBooks`, `BookHeap`, `LevelLists` and
`Rings` model the list code once; the source has it three times.

## What turned out not to hold, and exactly when it does

- Two live prices that share a slot: the book is sound after a new order exactly when nothing of it rests or no live
  price shares the slot of its price (`MatchingEngineOrderBook.MEOrderBook.AddOrder`); the same for the replica's ADD
  (`MarketOrderBook.MarketOrderBook.Add`). Bids at 100 and 356 on a new book are enough to break it
  (`PriceSlots.CollisionReachable`, `PriceSlots.Collide`).
- The risk gate computes in 32 bits. It judges every order right, from every position within the limit, exactly when
  `maxOrderSize + maxPosition` is below 2^31 (`RiskManager.GateExact`), and these are also the limits for which none of
  its values overflows (`RiskManager.NoOverflow`). Signed overflow, which C++ leaves undefined, is read as wrap-around,
  and the magnitude of -2^31 as -2^31, as the machine computes both. For every other limit below 2^31 there is a run
  that breaks the position limit (`PositionLimits.LimitExact`); a limit of 2^31 or more is read as a negative number and
  keeps even an order of size zero out.
- An order's responses add up under its id exactly when the id is below 2^32 or the order does not trade on arrival
  (`OrderLedger.ToldExactly`): a larger id is cut off in the fills of the incoming side.
- The client's CLEAR frees the levels but leaves them in the price array. The replica is well formed afterwards exactly
  when it was empty before (`MarketOrderBook.MarketOrderBook.ClearAll`): fine at start-up, not in a later recovery,
  where an ADD at a stale slot would be linked behind freed orders and no head would point at it.
- The consumer does not compare the update that SNAPSHOT_START names with the one SNAPSHOT_END names. A completed queue
  is one whole cycle exactly when they agree (`RecoveryTheorem.WholeCycle`); `TornSnapshot.TornSnapshotAccepted` is a
  run of a new consumer that ends outside recovery with wrong books. With cycles arriving in order, each begun by its
  START while older messages are queued, it cannot happen (`RecoveryTheorem.OrderlyUntorn`).
- The cached best price goes stale on the first order of an empty side and on a CLEAR, and on nothing else
  (`TopOfBook.CacheKept`).
- An order slot that is waiting for a cancel has its end under way exactly when its quantity is positive
  (`OrderLoop.SlotTrue`). A strategy that asks for size zero gets a slot that never leaves PENDING_CANCEL
  (`OrderLoop.ZeroClip`, `OrderLoop.StuckForever`).
- The ring needs its producer to keep at most as many elements queued as there are slots, and one fewer for the copy
  the publisher makes after giving a slot back; both bounds are exact for every ring size and every larger count
  (`LockFreeQueue.OrderExact`, `LockFreeQueue.CopyExact`).
- The map book refuses to cancel a live order of a client whose id is not below the number of clients in the map
  (`IndexAgreement.CancelAgrees`, `IndexAgreement.SparseClient`).
- A pool of N blocks hands out at most N - 1: the N-th allocation finds no next free block (`Pools.MemoryPool.Allocate`
  asks for two free blocks, `UpdateNextFreeIndex` says exactly when its scan fails).
- The comment on `moveOrders` says that an order of another quantity is cancelled; the code compares only the price
  (trading/strategy/OrderManager.h:76, 111-115), and so does the model.
- `SPositionInfo::UpdateBBO` assigns its parameter to itself, so the stored pointer is never set
  (trading/strategy/PositionKeeper.h:100); nothing in the model depends on it.

## Model

| member | source | states |
|---|---|---|
| `Pools.MemoryPool.Allocate` | common/MemoryPool.h:22-32 | with two free blocks: hands out a block that was not live, adds exactly it to the live set, and leaves the next index on a free block |
| `Pools.MemoryPool.Deallocate` | common/MemoryPool.h:36-44 | takes exactly the given live block out of the live set |
| `Pools.MemoryPool.UpdateNextFreeIndex` | common/MemoryPool.h:59-74 | ends, finds a block exactly when a free one exists, and finds the first one going round from where it stood |
| `Pools.AnotherFree` | common/MemoryPool.h:59-74 | at most N - 2 live blocks leave a second free block besides any given one |
| `LevelLists.AddLevelSide` | exchange/matcher/MatchingEngineOrderBook.h:89-147 | a new level linked between the better and the worse ones keeps the side one sorted ring with the best level at its head |
| `LevelLists.DropLevelSide` | exchange/matcher/MatchingEngineOrderBook.h:150-175 | unlinking any level of several keeps the rest one sorted ring, the head moving to the second level when the first goes |
| `BookHeap.LevelAddedOk` | exchange/matcher/MatchingEngineOrderBook.h:89-147 | the whole structure (both sides, both rings, the price array) is kept when a level appears in an empty slot |
| `BookHeap.LevelDroppedOk` | exchange/matcher/MatchingEngineOrderBook.h:150-175 | the whole structure is kept when a level leaves and its slot is cleared |
| `BookHeap.AppendedOk` | exchange/matcher/MatchingEngineOrderBook.h:235-243 | the whole structure is kept when an order of the level's side and price joins its FIFO |
| `BookHeap.OrderUnlinkedOk` | exchange/matcher/MatchingEngineOrderBook.h:204-219 | the whole structure is kept when an order leaves a level that keeps others |
| `LinkedBooks.LinkedBook.AddOrdersAtPrice` | exchange/matcher/MatchingEngineOrderBook.h:89-147 | links the level where the sorted order puts it, whatever place that is |
| `LinkedBooks.LinkedBook.FindPlace` | exchange/matcher/MatchingEngineOrderBook.h:100-122 | the scan ends and stops at the first level that is not better, or back at the best one when there is none |
| `LinkedBooks.LinkedBook.AddOrder` | exchange/matcher/MatchingEngineOrderBook.h:224-246 | the lists are sound afterwards exactly when no resting order of another price or side shares the slot; then the side becomes the queue with the order behind all that are not worse, the other side is unchanged, and pools and lists name the same nodes |
| `LinkedBooks.LinkedBook.AppendToLevel` | exchange/matcher/MatchingEngineOrderBook.h:233-243 | links behind the last order of the level in the slot, and leaves sound lists exactly when the order is of that level's side and price |
| `LinkedBooks.SlotExact` | exchange/matcher/MatchingEngineOrderBook.h:233-243 | the same on the structure as a value |
| `LinkedBooks.SlotTaken` | exchange/matcher/MatchingEngineOrderBook.h:77-86 | no order shares a price's slot with another price or side exactly when the level in the slot is the order's own |
| `LinkedBooks.LinkedBook.RemoveOrdersAtPrice` | exchange/matcher/MatchingEngineOrderBook.h:150-175 | takes exactly that level out of its ring, its slot and its pool |
| `LinkedBooks.LinkedBook.RemoveOrder` | exchange/matcher/MatchingEngineOrderBook.h:196-221 | takes exactly that order out of its side's queue, with its level if it was the last; the other side is unchanged |
| `LinkedBooks.LinkedBook.GetNextPriority` | exchange/matcher/MatchingEngineOrderBook.h:177-184 | for a slot that is not shared: one more than the newest order's priority at the price, or 1 |
| `LinkedBooks.FindLevel` | exchange/matcher/MatchingEngineOrderBook.h:83-86 | if no live price collides, a filled slot holds the side's level at that price |
| `LinkedBooks.NoLevel` | exchange/matcher/MatchingEngineOrderBook.h:83-86 | an empty slot means the side has no level at that price |
| `LinkedBooks.RemovedMeans` | exchange/matcher/MatchingEngineOrderBook.h:196-221 | what unlinking a node does to the queue of orders |
| `LinkedBooks.LastPriority` | exchange/matcher/MatchingEngineOrderBook.h:177-184 | the node before a level's first is its newest order |
| `PriceSlots.CollisionLevel` | exchange/matcher/MatchingEngineOrderBook.h:77-86 | if another live price shares a price's slot, the slot names a level of that other price |
| `PriceSlots.CollisionBreaks` | exchange/matcher/MatchingEngineOrderBook.h:77-86 | an order at the price is then linked into the other price's list and the book is not well formed |
| `PriceSlots.CollisionReachable` | exchange/matcher/MatchingEngineOrderBook.cpp:109-132 | a bid at 100 on a new book is enough for a bid at 356 to collide, with ids and room all in order |
| `PriceSlots.Collide` | exchange/matcher/MatchingEngineOrderBook.cpp:109-132 | the two requests, made to the linked book, leave it unsound |
| `PriceSlots.SharedSlot` | exchange/matcher/MatchingEngineOrderBook.h:77-80 | two prices share a slot exactly when they differ by a multiple of 256, below zero too |
| `MatchingEngineOrderBook.MEOrderBook.constructor` | exchange/matcher/MatchingEngineOrderBook.cpp:7-11 | a new book represents the empty exchange |
| `MatchingEngineOrderBook.MEOrderBook.RemoveOrder` | exchange/matcher/MatchingEngineOrderBook.h:196-221 | lists, index and pool lose exactly that order |
| `MatchingEngineOrderBook.MEOrderBook.SendTrade` | exchange/matcher/MatchingEngineOrderBook.cpp:38-64 | the aggressor and the owner of the resting order are each told of the fill at the resting order's price, with the instrument, their own order ids and sides and what each has left; the market sees the trade and what the resting order has left |
| `MatchingEngineOrderBook.MEOrderBook.Match` | exchange/matcher/MatchingEngineOrderBook.cpp:29-65 | trades the smaller quantity with the best opposite order at that order's price; the order leaves or keeps its place with what is left |
| `MatchingEngineOrderBook.MEOrderBook.CheckForMatch` | exchange/matcher/MatchingEngineOrderBook.cpp:69-105 | ends; its trades, responses and updates are those of the abstract matcher over the whole queue; and if anything is left over, the best opposite price is beyond the limit |
| `MatchingEngineOrderBook.MEOrderBook.AddOrder` | exchange/matcher/MatchingEngineOrderBook.cpp:109-132 | sound afterwards exactly when nothing is left to rest or no live price shares the slot; then book and updates are the abstract exchange's, the responses in any case; what is sent is one acceptance, two fills and two updates for each trade, field by field and within the limit, and an ADD of exactly what rests |
| `MatchingEngineOrderBook.MEOrderBook.CancelOrder` | exchange/matcher/MatchingEngineOrderBook.cpp:135-166 | the one order of that owner is gone, with a CANCELED that bears its ids, side, price and quantity and the instrument; without one, nothing changes and the rejection echoes the request; equal to the abstract exchange's cancel |
| `MatchingEngineOrderBook.Lookup` | exchange/matcher/MatchingEngineOrderBook.cpp:137-144 | the index finds exactly the order a search of both queues for its owner finds |
| `MatchingEngineOrderBook.OwnSlot` | exchange/matcher/MatchingEngineOrderBook.h:83-86 | once the trades are done, the residual's slot holds nothing of the other side: the two sides share one array safely |
| `MatchingEngineOrderBook.LevelsFit` | exchange/matcher/MatchingEngineOrderBook.cpp:7-11 | live levels are at most the slots in use by live prices |
| `Matching.PriceTimePriority` | exchange/matcher/MatchingEngineOrderBook.cpp:69-105 | each resting order within the limit trades what is left of the incoming quantity after all orders before it in price-time order, those beyond the limit nothing; fills and updates report exactly that, at the resting prices |
| `Executions.WithinLimit` | exchange/matcher/MatchingEngineOrderBook.cpp:78-102 | a trade with the k-th order exists exactly when its price is within the limit and the orders before it leave something to trade; no fill is beyond the limit; an order beyond it stays as it was; and while anything is left over, nothing within the limit stays |
| `Executions.NewOrderTold` | exchange/matcher/MatchingEngineOrderBook.cpp:109-132 | everything a new order sends, in any sound exchange, field by field |
| `Executions.LineEnds` | exchange/matcher/MatchingEngineOrderBook.h:177-184 | a newcomer's priority is one more than the highest at its price, or 1 if there is none |
| `Executions.CancelTold` | exchange/matcher/MatchingEngineOrderBook.cpp:135-166 | what a cancel sends and what it leaves, found or not |
| `Guarantees.AddOrderKeeps` | exchange/matcher/MatchingEngineOrderBook.cpp:109-132 | a new order keeps the book sorted, uncrossed and free of duplicate ids and owners and of empty orders |
| `Guarantees.CancelOrderKeeps` | exchange/matcher/MatchingEngineOrderBook.cpp:135-166 | so does a cancel |
| `Guarantees.TradesKeep` | exchange/matcher/MatchingEngineOrderBook.cpp:29-105 | after the trades, no opposite order is left that a resting residual would cross |
| `Guarantees.SessionKeeps` | exchange/matcher/MatchingEngineOrderBook.cpp:109-166 | every reachable book has best bid below best ask and is well formed |
| `Guarantees.NextPriorityIsLast` | exchange/matcher/MatchingEngineOrderBook.h:177-184 | a newcomer's priority exceeds every priority at its price |
| `Guarantees.MatchTrades` | exchange/matcher/MatchingEngineOrderBook.cpp:29-105 | what leaves the queue equals what leaves the incoming order, and the fills report it twice, the trades once |
| `Guarantees.AddOrderBalances` | exchange/matcher/MatchingEngineOrderBook.cpp:109-132 | accepted quantity rests or trades, each trade taking from two orders |
| `Guarantees.CancelOrderBalances` | exchange/matcher/MatchingEngineOrderBook.cpp:135-166 | cancelled quantity is what stops resting |
| `Guarantees.SessionBalances` | exchange/matcher/MatchingEngineOrderBook.cpp:29-166 | over every session, accepted equals resting plus cancelled plus twice traded, and fills equal twice traded |
| `OrderLedger.MatchLife` | exchange/matcher/MatchingEngineOrderBook.cpp:29-106 | what one matching reports under an id is one chain of fills: of the incoming order from its quantity to what is left, of any other from what it had to what still rests |
| `OrderLedger.AddOrderTells` | exchange/matcher/MatchingEngineOrderBook.cpp:109-132 | a new order: under its own id an acceptance and fills down to what rests, under any other fills from what rested to what rests |
| `OrderLedger.CancelOrderTells` | exchange/matcher/MatchingEngineOrderBook.cpp:135-166 | a cancel: under the order's id the report of all that rested, under any other nothing |
| `OrderLedger.SessionLife` | exchange/matcher/MatchingEngineOrderBook.cpp:109-166 | over every session, the responses under the id of an order accepted earlier take it from what rested before to what rests after, or to its cancel |
| `OrderLedger.SessionTells` | exchange/matcher/MatchingEngineOrderBook.cpp:109-166 | over every session from any book, the k-th new order is told of by one acceptance, fills, and at most one cancel, down to what rests |
| `OrderLedger.EveryOrder` | exchange/matcher/MatchingEngineOrderBook.cpp:29-166 | for every session of a new exchange and every id below 2^32: exactly that for the ids given out, and silence for all others |
| `OrderLedger.ToldExactly` | exchange/matcher/MatchingEngineOrderBook.cpp:29-46 | a new order is told of rightly exactly when its id is below 2^32 or it does not trade on arrival |
| `IndexAgreement.AddNamed` | exchange/matcher/UnorderedMapMatchingEngineOrderBook.cpp:105-128 | after a new order the map index names exactly the resting orders; its clients grow by the one that rested |
| `IndexAgreement.CancelAgrees` | exchange/matcher/UnorderedMapMatchingEngineOrderBook.cpp:131-162 | the two books agree on a cancel exactly when there is no such order or the client id is below the map's size |
| `IndexAgreement.SessionsAgree` | exchange/matcher/UnorderedMapMatchingEngineOrderBook.cpp:105-162 | identical responses and updates over every session whose clients first rest orders in the order 0, 1, 2, ... |
| `IndexAgreement.SparseClient` | exchange/matcher/UnorderedMapMatchingEngineOrderBook.cpp:133-145 | a single client with any id above 0 makes them differ |
| `Replication.TradeReplica` | exchange/matcher/MatchingEngineOrderBook.cpp:46-64 | a trade's reports take a replica from the book before it to the book after it |
| `Replication.MatchReplica` | exchange/matcher/MatchingEngineOrderBook.cpp:69-105 | so do all reports of one matching |
| `Replication.RestReplica` | exchange/matcher/MatchingEngineOrderBook.cpp:118-131 | the ADD rests the order in the replica where the exchange rested it, and uses an absent, newest id |
| `Replication.ProcessReplica` | exchange/matcher/MatchingEngineOrderBook.cpp:109-166 | after each request the replica has the exchange's levels, FIFO orders, ids, quantities and priorities, and every update named what it should |
| `MarketStream.ServeReplica` | exchange/matcher/MatchingEngineOrderBook.cpp:109-166 | a request of one instrument leaves the replicas of the others alone |
| `MarketStream.ExchangeStream` | exchange/matcher/MatchingEngineOrderBook.cpp:109-166 | for every interleaving of instruments and requests the update stream is well formed and folds to the exchange's books |
| `MarketStream.MarketDataPublisher.Drain` | exchange/market_data/MarketDataPublisher.cpp:17-50 | publishes everything queued, numbered without a gap, and hands the synthesizer the same frames |
| `Snapshot.ApplyKeeps` | exchange/market_data/SnapshotSynthesizer.cpp:33-78 | replicas of a well-formed stream stay sorted with distinct ids |
| `Snapshot.NoteKeeps` | exchange/market_data/SnapshotSynthesizer.cpp:33-78 | the record and the books stay in step through every update |
| `Snapshot.HistoryMirrored` | exchange/market_data/SnapshotSynthesizer.cpp:33-78 | after any history the record holds exactly the resting orders |
| `Snapshot.ReplayTicker` | exchange/market_data/SnapshotSynthesizer.cpp:96-115 | re-adding an instrument's orders by ascending id rebuilds its queues exactly |
| `Snapshot.ReplayBody` | exchange/market_data/SnapshotSynthesizer.cpp:93-115 | from any books whatever, the snapshot's messages lead to the recorded books |
| `Snapshot.SnapshotIsHistory` | exchange/market_data/SnapshotSynthesizer.cpp:33-124 | replaying a snapshot equals replaying the history it was taken from |
| `SnapshotSynthesizer.AssertionsHold` | exchange/market_data/SnapshotSynthesizer.cpp:37-75 | on a stream the exchange can send, the next update meets every assertion |
| `SnapshotSynthesizer.AssertionsNeverFire` | exchange/market_data/SnapshotSynthesizer.cpp:37-75 | hence none of the entry assertions fires at any point of any such stream |
| `SnapshotSynthesizer.SnapshotSynthesizer.TakeAll` | exchange/market_data/SnapshotSynthesizer.cpp:127-143 | fed any further part of the numbered stream while recorded orders leave the pool a block to spare, no assertion fails, of entries, numbering or pool, and the record is that of the stream |
| `SnapshotSynthesizer.SnapshotSynthesizer.AddToSnapshot` | exchange/market_data/SnapshotSynthesizer.cpp:33-78 | pool and arrays hold the record after the update, for in-order frames |
| `SnapshotSynthesizer.SnapshotSynthesizer.AddEntry` | exchange/market_data/SnapshotSynthesizer.cpp:39-45 | an ADD enters one block under its instrument and id |
| `SnapshotSynthesizer.SnapshotSynthesizer.ModifyEntry` | exchange/market_data/SnapshotSynthesizer.cpp:46-56 | a MODIFY changes quantity and price of that entry only |
| `SnapshotSynthesizer.SnapshotSynthesizer.CancelEntry` | exchange/market_data/SnapshotSynthesizer.cpp:57-68 | a CANCEL frees that entry only |
| `SnapshotSynthesizer.SnapshotSynthesizer.PublishSnapshot` | exchange/market_data/SnapshotSynthesizer.cpp:81-124 | sends the whole cycle numbered from 0: START, every instrument cleared and refilled by ascending id, END |
| `SnapshotSynthesizer.SnapshotSynthesizer.PublishTicker` | exchange/market_data/SnapshotSynthesizer.cpp:93-115 | one instrument's part of it |
| `Recovery.Filled` | trading/market_data/MarketDataConsumer.cpp:70-96 | n distinct numbers below n are all of them: what "no gap" means for a queue |
| `Recovery.InOrderSteps` | trading/market_data/MarketDataConsumer.cpp:229-238 | outside recovery, frames numbered from the expected number on are passed on one by one and counted |
| `Recovery.BrokenSteps` | trading/market_data/MarketDataConsumer.cpp:215-228 | the first frame with another number starts a recovery, in which it and all later ones are queued |
| `Recovery.FiledSteps` | trading/market_data/MarketDataConsumer.cpp:165-186 | in recovery, with no whole snapshot queued, incrementals are queued and nothing else happens |
| `RecoveryTheorem.CycleShape` | exchange/market_data/SnapshotSynthesizer.cpp:81-124 | in a cycle the START is first, the END last, both name the last update reflected, and what is between is passed on |
| `RecoveryTheorem.WholeCycle` | trading/market_data/MarketDataConsumer.cpp:70-107 | a completed queue is one whole cycle exactly when START and END name the same update |
| `RecoveryTheorem.QueuedHistory` | trading/market_data/MarketDataConsumer.cpp:108-137 | the queued incrementals that continue the snapshot are that part of the history |
| `RecoveryTheorem.CaughtUp` | trading/market_data/MarketDataConsumer.cpp:146-160 | passing on a cycle and what follows it brings the output back in step, whatever was emitted before |
| `RecoveryTheorem.CheckKeeps` | trading/market_data/MarketDataConsumer.cpp:53-162 | a check of the two queues keeps the invariant in every case: no START, a gap, no END, missing incrementals, complete |
| `RecoveryTheorem.StepKeeps` | trading/market_data/MarketDataConsumer.cpp:165-243 | so does every delivery, as long as it completes no torn snapshot |
| `RecoveryTheorem.FitsUntorn` | trading/market_data/MarketDataConsumer.cpp:165-186 | deliveries in cycle order never complete a torn snapshot |
| `RecoveryTheorem.RecoveryUntorn` | trading/market_data/MarketDataConsumer.cpp:53-246 | for any loss, repetition or reordering of incrementals, and any loss, repetition or mixing of the messages of cycles that arrive in order, as long as no torn snapshot is completed: outside recovery, the output folds to the books after the updates counted as received |
| `RecoveryTheorem.OrderlyUntorn` | trading/market_data/MarketDataConsumer.cpp:165-246 | a run in which each cycle's START comes before what else of it meets queued older messages completes no torn snapshot |
| `RecoveryTheorem.RecoveryCorrect` | trading/market_data/MarketDataConsumer.cpp:53-246 | hence for all such runs, whatever is lost or repeated |
| `RecoveryTheorem.ReplicaEndToEnd` | trading/market_data/MarketDataConsumer.cpp:189-246 | a consumer that has caught up shows the exchange's own books |
| `RecoveryEnds.CompletedCycle` | trading/market_data/MarketDataConsumer.cpp:53-162 | the END of a cycle queued whole moves the expected number to the first missing incremental after the cycle; recovery goes on exactly when something beyond that number is queued, and when it is over the output is in step |
| `RecoveryEnds.CycleEndsRecovery` | trading/market_data/MarketDataConsumer.cpp:53-243 | the same from any reachable state of recovery, whatever is queued, for one whole cycle received in order |
| `TornSnapshot.TornSnapshotAccepted` | trading/market_data/MarketDataConsumer.cpp:60-107 | a run of a new consumer in which the parts of two cycles complete a snapshot: recovery is over, every update counts as received, and the books are wrong |
| `MarketDataConsumer.MarketDataConsumer.StartSnapshotSync` | trading/market_data/MarketDataConsumer.cpp:41-50 | both queues start empty |
| `MarketDataConsumer.MarketDataConsumer.ScanSnapshot` | trading/market_data/MarketDataConsumer.cpp:70-96 | says exactly whether the queue has no gap, and collects what lies between its ends |
| `MarketDataConsumer.MarketDataConsumer.ScanIncrementals` | trading/market_data/MarketDataConsumer.cpp:108-137 | advances over the queued run, collects it, and says exactly whether something lies beyond a gap |
| `MarketDataConsumer.MarketDataConsumer.CheckSnapshotSync` | trading/market_data/MarketDataConsumer.cpp:53-162 | the loops over the ordered maps compute the specified check |
| `MarketDataConsumer.MarketDataConsumer.QueueMessage` | trading/market_data/MarketDataConsumer.cpp:165-186 | queues, or starts the snapshot queue over, then checks |
| `MarketDataConsumer.MarketDataConsumer.RecvCallback` | trading/market_data/MarketDataConsumer.cpp:189-246 | a read is processed as specified frame by frame; outside recovery snapshot data changes nothing, incrementals in order are all passed on and counted, and the first one out of order starts a recovery with it and the rest queued; in recovery, incrementals are queued as long as no whole snapshot is |
| `MarketDataConsumer.GaplessIs` | trading/market_data/MarketDataConsumer.cpp:70-96 | counting along the ordered keys detects exactly the gaps |
| `MarketDataConsumer.ReadMeans` | trading/market_data/MarketDataConsumer.cpp:189-246 | the same of a whole read, on values |
| `LosslessFeed.Follow` | trading/market_data/MarketDataConsumer.cpp:229-238 | the numbered updates, cut into reads in any way, are each passed on once and in order, and no recovery starts |
| `LosslessFeed.LosslessRun` | trading/market_data/MarketDataConsumer.cpp:189-246 | a new consumer that is delivered the whole history, in any reads, ends outside recovery with exactly the history passed on and counted; and such a run is one the recovery theorem speaks of |
| `LosslessFeed.LosslessReplica` | trading/market_data/MarketDataConsumer.cpp:229-238 | hence it shows the exchange's own books |
| `MarketOrderBook.MarketOrderBook.Add` | trading/strategy/MarketOrderBook.cpp:30-38 | the replica is sound after an ADD exactly when the order's slot is its own, and then it is the specified book |
| `MarketOrderBook.MarketOrderBook.Modify` | trading/strategy/MarketOrderBook.cpp:39-44 | so does a MODIFY, in place |
| `MarketOrderBook.MarketOrderBook.Cancel` | trading/strategy/MarketOrderBook.cpp:45-52 | so does a CANCEL |
| `MarketOrderBook.MarketOrderBook.FreeOrders` | trading/strategy/MarketOrderBook.cpp:61-65 | walking the id array frees every order block once |
| `MarketOrderBook.MarketOrderBook.FreeLevels` | trading/strategy/MarketOrderBook.cpp:68-80 | walking a side's ring frees each of its level blocks once and ends |
| `MarketOrderBook.MarketOrderBook.ClearAll` | trading/strategy/MarketOrderBook.cpp:59-84 | everything is freed and empty, and the structure is well formed exactly when the book was empty before |
| `MarketOrderBook.MarketOrderBook.OnMarketUpdate` | trading/strategy/MarketOrderBook.cpp:23-99 | every update has its specified effect on the replica and on the cached best prices |
| `MarketOrderBook.MarketOrderBook.TopQuote` | trading/strategy/MarketOrderBook.h:33-44 | a price of the side that no other is ahead of, with the sum modulo 2^32 of the quantities of exactly the orders at it |
| `MarketOrderBook.MarketOrderBook.UpdateBBO` | trading/strategy/MarketOrderBook.h:29-62 | the sides asked for get that quote, the others keep theirs |
| `MarketOrderBook.MarketOrderBook.Improves` | trading/strategy/MarketOrderBook.cpp:25-26 | whether the update is at or better than its side's best price |
| `MarketOrderBook.ClearedShape` | trading/strategy/MarketOrderBook.cpp:59-84 | a price slot stays filled after a clear exactly when there was something to clear |
| `MarketOrderBook.ListableReplica` | trading/strategy/MarketOrderBook.h:234-256 | where the exchange may rest an order its replica may list it, and its slot is its own exactly when the exchange sees no collision |
| `ReplicaRun.NewFeeds` | trading/strategy/MarketOrderBook.cpp:23-58 | every update of a new order finds the replica able to take it |
| `ReplicaRun.Feed` | trading/strategy/TradeEngine.cpp:114-127 | the loop over received updates takes the linked replica through all of them |
| `ReplicaRun.FollowExchange` | trading/strategy/TradeEngine.cpp:114-127 | whatever requests the linked exchange book serves, the linked replica fed with its updates holds the same orders, quantities and priorities in the same places after each request |
| `ReplicaRun.FollowFromOpening` | trading/strategy/TradeEngine.cpp:114-127 | the same from two new books on, for any session |
| `TopOfBook.BestIs` | trading/strategy/MarketOrderBook.h:33-44 | on a sorted side there is exactly one such quote, and the orders at the front give it |
| `TopOfBook.BehindTheTop` | trading/strategy/MarketOrderBook.cpp:25-93 | after an update behind the best price, or of the other side, a quote is the best exactly when it was before |
| `TopOfBook.CacheKept` | trading/strategy/MarketOrderBook.cpp:25-93 | a cached quote that is the best stays so exactly when the update is not the first order of a side or a clear; an update at the top makes any cached quote the best |
| `RiskManager.GateExact` | trading/strategy/RiskManager.h:53-64 | every order is judged by its size, the position after it and the profit, from every position within the limit, exactly when the two limits add up to less than 2^31 |
| `RiskManager.Misjudged` | trading/strategy/RiskManager.h:58-59 | for any other limits there is a misjudged order: of size zero, or one that takes the sum to 2^31 |
| `RiskManager.NoOverflow` | trading/strategy/RiskManager.h:58-59 | the same limits are those for which no value of the gate's arithmetic leaves 32 bits |
| `OrderManager.OrderManager.NewOrder` | trading/strategy/OrderManager.cpp:7-19 | fills one slot, uses up one id, sends one request |
| `OrderManager.OrderManager.CancelOrder` | trading/strategy/OrderManager.cpp:22-34 | one slot waits for its cancel, one request sent |
| `OrderManager.OrderManager.MoveOrder` | trading/strategy/OrderManager.h:70-110 | a new order is sent exactly when the slot has none, the price is not the invalid one and the gate allows it, at that price and size and with the next id; a live order at another price is cancelled; in every other case nothing is sent and nothing changes; every other slot unchanged |
| `OrderManager.OrderManager.MoveOrders` | trading/strategy/OrderManager.h:116-131 | that for the bid and then for the ask, each with its own price and gate; other instruments unchanged |
| `OrderManager.OrderManager.OnOrderUpdate` | trading/strategy/OrderManager.h:27-60 | the slot of the response's side becomes live when accepted, dead when cancelled or filled up, keeps what a fill leaves, and else stays; every other slot unchanged |
| `OrderManager.MoveMeans` | trading/strategy/OrderManager.h:70-110 | the same of a move on values, where the other side's slot stays |
| `OwnOrders.MatchOwn` | exchange/matcher/MatchingEngineOrderBook.cpp:29-65 | a client's resting and incoming orders are each filled in one chain of reports from what they had to what they have left |
| `OwnOrders.OwnNewServed` | exchange/matcher/MatchingEngineOrderBook.cpp:109-132 | a client's new order: one acceptance, one chain of fills, the rest held |
| `OwnOrders.OtherNewServed` | exchange/matcher/MatchingEngineOrderBook.cpp:109-132 | another client's order can only fill the client's opposite order |
| `OwnOrders.CancelOnSide` | exchange/matcher/MatchingEngineOrderBook.cpp:135-166 | a cancel leaves a side alone or takes the client's one order there and reports all it had |
| `OrderLoop.StrategyKeeps` | trading/strategy/OrderManager.h:70-110 | whatever price and size the strategy asks for, the loop's invariant holds |
| `OrderLoop.OthersKeep` | exchange/matcher/MatchingEngineOrderBook.cpp:109-166 | whatever other clients send, it holds |
| `OrderLoop.ServeNewKeeps` | exchange/matcher/MatchingEngineOrderBook.cpp:109-132 | it holds when the exchange takes the client's new order |
| `OrderLoop.ServeCancelKeeps` | exchange/matcher/MatchingEngineOrderBook.cpp:135-166 | and its cancel, stale or not |
| `OrderLoop.ReceiveKeeps` | trading/strategy/OrderManager.h:27-60 | and when the client takes a response, a rejected cancel without a side among them |
| `OrderLoop.RunKeeps` | trading/strategy/OrderManager.h:27-131 | hence in every reachable state |
| `PositionLimits.NextWithin` | trading/strategy/OrderManager.h:27-110 | with bounded limits, every step keeps the position within its limit even if all a slot may still add is filled |
| `PositionLimits.PositionLimit` | trading/strategy/RiskManager.h:53-64 | in every reachable state the position, and the position if all that is outstanding on one side fills, is within the limit |
| `PositionLimits.LimitBroken` | trading/strategy/RiskManager.h:58-59 | for all other limits below 2^31, a run that breaks it: buy up to 2^31 less an order's size, then ask for that size |
| `PositionLimits.LimitExact` | trading/strategy/RiskManager.h:53-64 | hence, below 2^31, it holds in all runs exactly for bounded limits |
| `OrderLoop.SlotProtocol` | trading/strategy/OrderManager.h:27-110 | in every reachable state each side has at most one open order, an unused or dead slot has none and nothing under way, and a slot waiting for a cancel has its end under way exactly when its quantity is positive |
| `OrderLoop.PricedRequests` | trading/strategy/OrderManager.h:87 | in every reachable state no new order under way bears the invalid price |
| `OrderLoop.StuckForever` | trading/strategy/OrderManager.h:104-107 | a slot waiting for the cancel of an order of size zero never leaves that state |
| `OrderLoop.ZeroClip` | trading/strategy/OrderManager.h:70-110 | such a slot is reachable under any position limit below 2^31 |
| `OrderLoop.CancelsResolve` | trading/strategy/OrderManager.h:27-110 | a strategy that never asks for size zero always hears of the end of an order it cancels |
| `PositionKeeper.WorthIs` | trading/strategy/PositionKeeper.h:46-94 | the sum over fills of signed quantity times distance to a price is position times price plus cash |
| `PositionKeeper.PositionInfo.Decrease` | trading/strategy/PositionKeeper.h:59-71 | reducing earns the gain over the average entry price on what is closed; the rest keeps that average, and a position of the other sign starts at the fill's price; open cost and realised profit together change by the fill's cash |
| `PositionKeeper.PositionInfo.Increase` | trading/strategy/PositionKeeper.h:55-58 | opening or adding earns nothing and enters the average with its weight |
| `PositionKeeper.PositionInfo.AddFill` | trading/strategy/PositionKeeper.h:46-94 | after any sequence of fills the total profit is the sum over fills of signed quantity times (last price - fill price); the realised part grows by what the fill closes, the average entry price moves by its weight, and the unrealised part is the open position's gain over that average |
| `PositionKeeper.PositionInfo.UpdateBBO` | trading/strategy/PositionKeeper.h:97-121 | with an open position and both prices known, total and unrealised profit are those at the middle price; otherwise unchanged |
| `LockFreeQueue.ProducerKeeps` | common/LockFreeQueue.h:20-29 | each atomic step of the producer keeps the ring's invariant |
| `LockFreeQueue.ConsumerKeeps` | common/LockFreeQueue.h:31-46 | so does each of the consumer's |
| `LockFreeQueue.Fifo` | common/LockFreeQueue.h:20-46 | under every interleaving with at most as many queued as slots: what is consumed is a prefix of what was produced, no unread slot is written, the read assertion never fires |
| `LockFreeQueue.CopyAfterRelease` | exchange/market_data/MarketDataPublisher.cpp:36-42 | with one slot to spare, a copy made after the read index moved on is the element that was read |
| `LockFreeQueue.CopyOverwritten` | exchange/market_data/MarketDataPublisher.cpp:36-42 | without it, for any ring and any larger count there is an interleaving in which the copy is a later element |
| `LockFreeQueue.CopyExact` | exchange/market_data/MarketDataPublisher.cpp:36-42 | hence the copy is right under every interleaving exactly when one slot stays free |
| `LockFreeQueue.Overrun` | common/LockFreeQueue.h:20-29 | for any count above the ring's size there is an interleaving that loses an element |
| `LockFreeQueue.OrderExact` | common/LockFreeQueue.h:20-46 | hence order is kept under every interleaving exactly when no more is queued than fits |
| `Wire.BytesRoundTrip` | exchange/order_server/ClientRequest.h:35-84 | little-endian integers of n bytes decode to themselves |
| `Wire.RequestRoundTrip` | exchange/order_server/ClientRequest.h:35-84 | every request that fits its packed fields decodes to itself |
| `Wire.ByteAt` | exchange/order_server/ClientRequest.h:35-84 | the i-th byte of an integer is its digit of weight 256^i |
| `Wire.RequestLayout` | exchange/order_server/ClientRequest.h:35-84 | every field of a request lies at the offset its structure without padding gives it, little-endian, the number in front |
| `Wire.ChunkIndependent` | exchange/order_server/OrderServer.h:66-102 | however the stream is cut, the decoded frames are those of the whole and less than one frame is kept back |
| `Wire.TcpSocket.Consume` | exchange/order_server/OrderServer.h:100-101 | the remainder moves to the front by a copy whose ranges do not overlap |
| `OrderServer.OrderServer.Process` | exchange/order_server/OrderServer.h:73-98 | a client not yet bound is bound to the socket; the request is forwarded and the expected number goes up exactly when it came from the client's socket with that number |
| `OrderServer.OrderServer.ProcessFrames` | exchange/order_server/OrderServer.h:66-99 | processes exactly the complete frames; the remainder is shorter than what was processed |
| `OrderServer.OrderServer.RecvCallback` | exchange/order_server/OrderServer.h:59-103 | serves exactly the complete frames held and keeps the rest |
| `OrderServer.ForwardedInOrder` | exchange/order_server/OrderServer.h:73-98 | whatever arrives, what is forwarded for a client comes from one socket with consecutive numbers |
| `OrderServer.ExactlyOnce` | exchange/order_server/OrderServer.h:73-98 | every request a client's gateway numbered is forwarded exactly once and in order, whatever other sockets send |
| `OrderServer.OrderServer.Run` | exchange/order_server/OrderServer.h:35-54 | every queued response goes out on its client's socket, numbered after those for the same client before it |
| `OrderGateway.OrderGateway.Run` | trading/order_gw/OrderGateway.cpp:25-47 | everything queued is sent, numbered consecutively |
| `OrderGateway.OrderGateway.RecvCallback` | trading/order_gw/OrderGateway.cpp:58-84 | forwards exactly the responses that pass, and counts them |
| `OrderGateway.PassedAt` | trading/order_gw/OrderGateway.cpp:63-77 | what passes are responses with the client's id and consecutive numbers, in order, and none with the id and the next number is passed over |
| `OrderGateway.NumberedPass` | trading/order_gw/OrderGateway.cpp:58-84 | a stream the server numbered for this client passes whole |
| `OrderGateway.GatewayToServer` | trading/order_gw/OrderGateway.cpp:32-45 | from the gateway's numbering through bytes in any pieces to the sequencer, the requests arrive exactly as sent |
| `OrderGateway.ServerToGateway` | exchange/order_server/OrderServer.h:35-54 | whatever responses are queued for whichever clients, each client's gateway forwards exactly its own, in order, even from a shared socket |

## Left out

- Sockets, multicast membership, timestamps, logging, measurement, threads, sleeps and start-up: foreign calls or no effect on state. UDP is modelled as loss, repetition and reordering, TCP as a FIFO.
- The FIFO sequencer's sort by receive time: it gives no order between equal times, and nothing here needs one: `OrderLoop` lets the exchange take the client's pending requests in any order.
- Pricing in the strategies and the feature engine: the order loop allows any price and size instead. The RANDOM algorithm bypasses the order manager and is not covered.
- IEEE rounding: `PositionKeeper` uses exact reals. Overflow of the 32-bit position is excluded by the limit proved in `PositionLimits`.
- PositionLimits.PositionLimit: one instrument at a time, with the other instruments only using up order ids. Positions are unbounded integers; limits of 2^31 or more are not covered.
- OrderLoop.Respond of a response without a side: the source keeps a third slot for it; only a rejected cancel has no side, and it changes no slot.
- RecoveryTheorem.RecoveryUntorn: cycles arrive in order; messages of an older cycle that overtake those of a newer one are not covered.
- MarketDataConsumer.MarketDataConsumer.RecvCallback: works on decoded frames; the bytes a datagram leaves over are not modelled.
- MarketOrderBook.MarketOrderBook.ClearAll: after a clear of a book that was not empty the structure is not well formed, so the class promises nothing about later updates.
- MarketOrderBook.MarketOrderBook.OnMarketUpdate: asks of an ADD that its slot is its own (`Add` decides the other case) and of a CLEAR that it carries no side, as the snapshot's does; the call into the trade engine is left out.
- MatchingEngineOrderBook.MEOrderBook.AddOrder: asks that a residual which rests uses a free client-order id within the arrays and leaves both pools a block to spare; after a collision nothing is promised but the responses.
- MarketOrderBook.MarketOrderBook.Add: asks that both pools have a block to spare.
- SnapshotSynthesizer.SnapshotSynthesizer.TakeAll: asks that the pool has a block to spare, since all instruments share one pool that is as large as one instrument's ids.
- LockFreeQueue: loads and stores are sequentially consistent, as the source's default atomics are; the element is written in one step.
- IndexAgreement: the map book is modelled on values, since its list code is the array book's; what is not captured is the updating of its maps in place.
- OrderGateway.OrderGateway.RecvCallback: works on decoded responses; cutting the bytes into frames is the same loop as the order server's.
- OrderServer.OrderServer.Run: works on responses before they become bytes, and asks for a bound socket per response, which the source asserts.
- OrderServer.OrderServer.RecvCallback: client ids within the server's arrays, which the source does not check.
- `COptMemPool`, `COptLogger`, benchmarks, examples, scripts and the two mains: variants and drivers.

# Order matching, the lock-free queue and the logger

A model of a low-latency trading core, with proofs of what it promises.

**The limit order book and the matcher.** `Orders`, `Levels`, `OrderBooks` and `Matchers` follow the C++ classes: order
objects on the heap, price levels, two price ladders, an id index, two cached best prices, and a matching loop that
lowers quantities through shared order references. `Lists`, `Merge` and `Books` are the specification: a book is two
priority lists, and a matching run is a recursive merge of them that pairs the heads. `Ladder` and `BookLinks` connect
the two. `Effects` says what each operation does without naming the operations. `Ledgers` keeps, beside the pure book,
the volume matched away at each level since the level began. `Engines` runs whole scripts of operations on the heap and
shows that they do what the pure script does. `Unlinked` gives up the agreement of index and ladders: it is
`cancelOrder` and the matching loop on any book, as values. `Clearing` proves what a run achieves (clearing volume,
largest surplus); `Session` treats the documented way of using the book, one order and then a match, and the order in
time within a price.

**The single-producer single-consumer ring.** `Masks` is its index arithmetic. `Spsc` is a machine of two threads that
take one atomic step at a time, interleaved in any way. Each index is kept as the log of the values it has held. A load of
the other thread's index may return any logged value that is not older than what the thread has already seen, and a read
of a slot may observe any write to it that is not hidden behind a later one that the thread has seen: this is what
release stores and acquire loads of ISO C++20 (section 31.4) leave open here. `SpscQueues` is the code of the class, each
call proved to be a run of the machine; `SpscProgress` tells how calls go on when nothing is stale.

**The two shutdown protocols.** `Drain` is the queue demonstration (a done flag and a drain loop), `Exchanged` the same
loop with its two reads in the other order, `LoggerRuns` the life cycle of the asynchronous logger (any number of
`start`, `log` and `stop` calls, a worker thread, the hand-over of the consumer role at `join`). Both are machines on
top of the ring's, and a flag may be read late as well. `AsyncLoggers` and `Demos` are the same code as loops, run by a
thread that is alone with the queue.

Integers are unbounded, except the 32-bit quantities, whose cached sums wrap. Clocks are parameters: a matching run takes
a function from the number of the trade to its timestamp.

Where the code does not keep what its interface or comments suggest, the model follows the code and the exact condition is
proved:

- `addOrder` accepts an id that is already in the book and overwrites its index entry. The book stays coherent exactly
  when the id is new (`OrderBooks.OrderBook.AddOrder`, `BookLinks.JoinStructured`). On a book that is not, the matching
  loop can run for ever; when it ends is `Unlinked.EndsUnlessStuck` with `Unlinked.StuckWhen`, and
  `Unlinked.DuplicateNeverEnds` is a book on which it does not.
- The cached best price 0 means "no orders", so `hasMatch` refuses prices that are not above 0, although `MIN_PRICE` is 0.
  A run leaves the book uncrossed, and trades the clearing volume, exactly when the best ask is not a crossed price at or
  below 0 (`Merge.UncrossedOnExit`, `Clearing.TradedVolumeClears`; `Merge.BlockedExample` is such a book).
- `total_quantity_` is not told of trades. It is the resting quantity plus the volume matched away at the level since the
  level was created, modulo 2^32, over every script (`Engines.Play`, `Ledgers.VolumeIsTraded`).
- `modifyOrder` with quantity 0 cancels the order and reports failure (`OrderBooks.OrderBook.ModifyOrder`).
- A `start` that cannot open its file leaves the dead stream behind. A following `start` without a path then opens a
  session that swallows every message (`LoggerRuns.StopWritesAll`, `LoggerRuns.NothingLost`, `LoggerRuns.FailedStartLoses`).

## Model

| member | source | states |
|---|---|---|
| Clearing.SurplusOptimality | include/order_matching/Matcher.hpp:29-61 | The trades of a run make the largest total of (bid limit - ask limit) * quantity over all feasible allocations, exactly when the book is not strictly crossed at a best ask at or below 0 |
| Clearing.WeakDuality | include/order_matching/Matcher.hpp:29-61 | For every price, the surplus of every feasible allocation is at most the sum of the gains of both sides at that price |
| Clearing.RunAttainsDual | include/order_matching/Matcher.hpp:29-61 | At any price that separates the run, the surplus of the run equals that bound |
| Clearing.ClearingPriceClears | include/order_matching/Matcher.hpp:41-51 | The larger of the last matched ask limit and the best bid left lies within every matched pair's limits and between the two sides that remain |
| Clearing.ClearingPriceIs | include/order_matching/Matcher.hpp:41-51 | That price is the last matched ask limit of the run, or the best bid that the run leaves when it is higher |
| Clearing.TradedVolumeClears | include/order_matching/Matcher.hpp:29-61 | The traded volume is the maximum over all prices of min(bid quantity at or above, ask quantity at or below), exactly when no crossed ask at or below 0 heads the book |
| Merge.Conservation | include/order_matching/Matcher.hpp:72-94 | For every id, and in total on each side, quantity before a run is quantity after it plus what the trades took |
| Merge.ResidualIsConsumed | include/order_matching/Matcher.hpp:84-94 | What is left of each side is that side with the traded volume taken off its front, so other orders keep fields and places |
| Merge.PriceTimePriority | include/order_matching/Matcher.hpp:45-53 | If an order is filled at all, every order ahead of it on its side is filled completely |
| Merge.OneSideExact | include/order_matching/Matcher.hpp:84-94 | After a run that trades, one of the sides holds nothing but untouched orders |
| Merge.OnePartialFill | include/order_matching/Matcher.hpp:88-94 | At most one order in the whole book ends a run partly filled, and it heads its side |
| Merge.TradeCount | include/order_matching/Matcher.hpp:30-60 | Every trade has a positive quantity; trades plus orders left are at most the orders before; a run that trades makes at most bids + asks - 1 trades |
| Merge.RunKeepsReady | include/order_matching/Matcher.hpp:32-58 | After a run both sides are sorted with positive quantities, and nothing matches any more |
| Merge.UncrossedOnExit | include/order_matching/OrderBook.hpp:206-209 | Every resting buy is priced below every resting sell after a run, exactly when no crossed ask at or below 0 headed the book |
| Merge.BlockedExample | include/order_matching/OrderBook.hpp:206-209 | A bid at 5 and an ask at 0 are left crossed by a run that trades nothing |
| Merge.TradesFollowPairs | include/order_matching/Matcher.hpp:45-56 | Each trade names its pair, carries its clock value, and is priced at the limit of the order stamped earlier (the ask on a tie), within both limits |
| Merge.NestedLimits | include/order_matching/Matcher.hpp:32-58 | Along a run the limits of each matched pair lie inside those of every earlier pair |
| Matchers.Matcher.MatchOrders | include/order_matching/Matcher.hpp:29-61 | The in-place loop ends, keeps ladders, index and caches linked, and produces the trades, count, last trade and residual book of the pure merge; each level's matched-away volume grows by what the run matches there |
| Matchers.Matcher.MatchBest | include/order_matching/Matcher.hpp:32-57 | One turn pairs the heads of the priority lists; the two early exits are never taken on a linked book |
| Matchers.Matcher.ExecuteTrade | include/order_matching/Matcher.hpp:72-94 | Records the trade and takes its quantity off both heads; a filled head leaves ladder, level and index |
| OrderBooks.OrderBook.AddOrder | include/order_matching/OrderBook.hpp:83-109 | Rejects a missing or empty order and changes nothing; otherwise sets a timestamp of 0 to the clock and no other field, and inserts the order behind its price; the book stays linked exactly when it rejected the order or the id was new |
| OrderBooks.OrderBook.Enlist | include/order_matching/OrderBook.hpp:93-106 | Indexing and queueing keeps the links exactly when the id was new, and then is an insertion into the priority list |
| OrderBooks.OrderBook.CancelOrder | include/order_matching/OrderBook.hpp:112-147 | True exactly when the id was indexed; the order, and a level left empty, are gone from everything; the rest stays in order |
| OrderBooks.OrderBook.ModifyOrder | include/order_matching/OrderBook.hpp:150-169 | Sets price, quantity and timestamp of the order and re-enters it at the back of the new price; with quantity 0 it only cancels and returns false; the matched-away volume of every level is told: kept where something rests, gone with an emptied level, 0 at a new one |
| OrderBooks.OrderBook.UpdateBestBid | include/order_matching/OrderBook.hpp:234-241 | The cached bid is a key of the buy ladder that no key exceeds, or 0 for an empty ladder |
| OrderBooks.OrderBook.UpdateBestAsk | include/order_matching/OrderBook.hpp:244-251 | The cached ask is a key of the sell ladder that no key undercuts, or 0 for an empty ladder |
| OrderBooks.OrderBook.BestAreHeads | include/order_matching/OrderBook.hpp:172-185 | The best orders are indexed, stand on their side at the cached prices, and head the two priority lists |
| OrderBooks.OrderBook.CachedMatch | include/order_matching/OrderBook.hpp:206-209 | The test on the cached prices agrees with the heads of the priority lists, for prices of any sign |
| OrderBooks.OrderBook.SpreadOfHeads | include/order_matching/OrderBook.hpp:198-203 | The spread is the gap between the heads, and 0 when a side is empty or heads at price 0 |
| OrderBooks.OrderBook.LevelTotals | include/order_matching/OrderBook.hpp:19-36 | At every level the cached count is the number of orders shown there, and the cached total is what rests there plus the volume on record for the level: modulo 2^32, and exactly when that fits 32 bits |
| OrderBooks.OrderBook.VolumesStand | include/order_matching/OrderBook.hpp:19-36 | A volume is on record for exactly the prices at which something rests |
| Ledgers.VolumeIsTraded | include/order_matching/Matcher.hpp:72-94 | While a level stands, over any script with matches, its volume on record grows by exactly the quantities of the trades whose order on that side has its limit there |
| Ledgers.NewLevelStartsAtZero | include/order_matching/OrderBook.hpp:97-105 | A level that comes into being, by an addition or a modification, starts with volume 0, also at a price that had a level before |
| Ledgers.MatchedIsTraded | include/order_matching/Matcher.hpp:72-94 | What a run matches at a price is the sum over its trades of the quantities of orders with that limit |
| Ledgers.LevelConservation | include/order_matching/Matcher.hpp:84-94 | The quantity resting at each price falls by exactly what is matched there |
| Ledgers.QuietWithoutMatches | include/order_matching/OrderBook.hpp:19-36 | Additions, cancellations and modifications alone leave every volume on record at 0, so the cached totals are exact modulo 2^32 |
| OrderBooks.FillIn | include/order_matching/Matcher.hpp:84-86 | Lowering one order's quantity leaves all cached totals right once the matched-away volume of its level is raised |
| Levels.PriceLevel.AddOrder | include/order_matching/OrderBook.hpp:19-23 | Appends; the count goes up by one and the total by the quantity, in 32 bits; both stay what the queue and the matched-away volume say |
| Levels.PriceLevel.RemoveOrder | include/order_matching/OrderBook.hpp:26-36 | Removes the first order with the id, if there is one, taking its quantity off the total in 32 bits and one off the count; otherwise changes nothing |
| BookLinks.JoinStructured | include/order_matching/OrderBook.hpp:93-106 | Index and ladders still agree after an addition exactly when the id was not in use |
| BookLinks.DuplicateBreaks | include/order_matching/OrderBook.hpp:94-94 | Indexing an id in use leaves an order in a ladder that its index entry does not account for |
| Unlinked.EndsUnlessStuck | include/order_matching/Matcher.hpp:32-58 | On any book, with any index, the matching loop ends exactly when it never comes to a turn that is stuck |
| Unlinked.StuckWhen | include/order_matching/Matcher.hpp:88-94 | A turn is stuck exactly when a head has quantity 0 and no cancellation of an empty head finds anything |
| Unlinked.TurnIsLighter | include/order_matching/Matcher.hpp:32-58 | Every other turn lowers a measure of places and quantities |
| Unlinked.DuplicateNeverEnds | include/order_matching/OrderBook.hpp:94-94 | Two buys with one id and a sell that fills the first make the loop run for ever |
| Unlinked.AgreeingEnds | include/order_matching/Matcher.hpp:29-61 | When index and ladders agree, matching ends |
| Unlinked.AgreeingSettles | include/order_matching/Matcher.hpp:29-61 | And what it leaves is what the pure merge leaves |
| Unlinked.AddShows | include/order_matching/OrderBook.hpp:97-105 | Adding an order under a new id to a sorted book that agrees: it still agrees, is still sorted, and shows the stamped order behind everything at its price or better |
| Unlinked.CancelCloses | include/order_matching/OrderBook.hpp:112-147 | A cancellation on any book leaves all orders alone and takes out one place or changes nothing |
| Unlinked.SweptHead | include/order_matching/Matcher.hpp:88-94 | On a book that agrees, cancelling an empty head takes out that head and nothing else |
| BookLinks.LeaveStructured | include/order_matching/OrderBook.hpp:121-144 | Index and ladders agree after an indexed order has left its level and the index |
| BookLinks.JoinIsInsert | include/order_matching/OrderBook.hpp:97-105 | Appending to the level of a price, new or not, is an insertion behind everything at that price or better |
| BookLinks.LeaveIsRemove | include/order_matching/OrderBook.hpp:121-139 | Erasing from a level, and the level when it is empty, removes one entry of the priority list |
| BookLinks.ShownWellFormed | include/order_matching/OrderBook.hpp:220-231 | Linked ladders with positive quantities show sorted sides, each id at one place of one side |
| Ladder.FlatAt | include/order_matching/OrderBook.hpp:221-224 | A ladder read best price first is its better levels, the level, and its worse levels, for every price |
| Books.RunsKeepWellFormed | include/order_matching/OrderBook.hpp:83-169 | Every run of additions with fresh ids, cancellations, modifications and matches keeps both sides sorted and positive with every id at one place |
| Books.CancelUndoesAdd | include/order_matching/OrderBook.hpp:111-147 | Adding an order with a fresh id and cancelling it gives the same book back |
| Effects.AddEffect | include/order_matching/OrderBook.hpp:83-109 | An addition leaves the other side alone and puts the order behind everything at its price or better and in front of everything worse, with its own terms and the clock for a timestamp of 0; an empty one changes nothing |
| Effects.CancelEffect | include/order_matching/OrderBook.hpp:112-147 | A cancellation leaves on both sides exactly the other orders, in their order |
| Effects.ModifyEffect | include/order_matching/OrderBook.hpp:150-169 | A modification leaves the other side and all other orders alone and queues the order anew with the new terms; with quantity 0 it is gone |
| Effects.MatchEffect | include/order_matching/Matcher.hpp:29-61 | A match takes from every id what its trades say, until the best prices do not cross above 0 |
| Effects.ScriptOnScript | include/order_matching/OrderBook.hpp:83-169 | A script after a script is the joined script |
| Engines.Do | include/order_matching/OrderBook.hpp:83-169 | An operation on the heap keeps the links and has the effect of the pure operation on book, trade log and volumes |
| Engines.PlayAll | include/order_matching/OrderBook.hpp:83-251 | Every script of operations on the heap ends in the book, with the trade log and with the volumes of the pure script |
| Engines.TradesOnTrades | include/order_matching/Matcher.hpp:29-61 | The trades of joined scripts are those of the first and then those of the second on the book that it leaves |
| Engines.TradesOfOne | include/order_matching/Matcher.hpp:29-61 | A match trades what the pure merge trades, any other operation nothing |
| Engines.Play | include/order_matching/OrderBook.hpp:83-251 | Every script, matches included, keeps the book linked, well formed and (entries on time) in comparator order, and leaves at every level the exact count and the total that rests plus the volume traded since the level began, modulo 2^32 |
| Engines.Serve | include/utils/SPSCQueueExample.hpp:18-29 | The consumer loop on the heap: after any proper run of requests the book is that of the pure loop, settled, with its trades logged; each request traded with its own order only and accounts for every quantity |
| Engines.GetOrderFinds | include/order_matching/OrderBook.hpp:212-218 | The index answers null exactly for ids that are in neither list, and otherwise the order that the lists hold |
| Engines.BestIsUnbeaten | include/order_matching/Order.hpp:57-69 | In a time-ordered book no order of a side beats the best one under that side's comparator |
| Engines.SpreadWhenUncrossed | include/order_matching/OrderBook.hpp:198-203 | When nothing matches and both best prices are above 0, the spread is their positive gap |
| Session.InsertKeepsTime | include/order_matching/OrderBook.hpp:19-23 | An insertion keeps a list in comparator order exactly when the order is stamped no earlier than those at its price |
| Session.PriorityIsOrder | include/order_matching/Order.hpp:57-69 | A list is in comparator order exactly when prices go from best to worst and, within a price, timestamps do not fall |
| Session.RunsKeepPriority | include/order_matching/OrderBook.hpp:172-185 | Through every run with entries on time, list order stays comparator order, and the heads are unbeaten |
| Session.IncomingOrder | include/utils/SPSCQueueExample.hpp:21-23 | Matching after one addition to an uncrossed book trades that order only, and at the resting limits when it came strictly later than all of them |
| Session.RequestTradesIncoming | include/utils/SPSCQueueExample.hpp:21-23 | The same for every request: trades are with the entering order, and a request that enters none trades nothing |
| Session.RequestAccounts | include/utils/SPSCQueueExample.hpp:21-23 | After a submission, what the order traded and what rests of it make its quantity; an amendment counts with the new quantity, a withdrawal with 0, and then the id is gone; every other order's quantity changes by its trades only |
| Session.LoopOfOne | include/utils/SPSCQueueExample.hpp:21-23 | A request is exactly its addition, modification or cancellation followed by a match |
| Session.LoopOnLoop | include/utils/SPSCQueueExample.hpp:18-29 | A run of requests is its requests one after the other |
| Session.ConsumerLoopSettles | include/utils/SPSCQueueExample.hpp:18-29 | One change and a match per request keeps the book uncrossed and well formed over every run with fresh ids and positive prices |
| Session.ConsumerLoopTrades | include/utils/SPSCQueueExample.hpp:18-29 | Over every proper run, every request finds a settled book, trades with the order that it enters only, and accounts for every quantity |
| Session.ScriptOfLoop | include/utils/SPSCQueueExample.hpp:21-23 | A run of requests is the run of the flattened script of changes and matches, with fresh ids where the requests have them |
| Masks.GoodSizeIsPowerOfTwo | include/utils/SPSCQueue.hpp:19-20 | The compile-time check passes exactly for powers of two greater than 1 |
| Masks.MaskIsMod | include/utils/SPSCQueue.hpp:34-34 | For such a size, masking is the remainder |
| Masks.FullTurn | include/utils/SPSCQueue.hpp:36-39 | The next write index meets the read index exactly when size - 1 items are between the counts |
| Masks.FullMask | include/utils/SPSCQueue.hpp:34-37 | The masked test for a full ring, on wrapped indices, holds exactly when the counts are size - 1 apart |
| Masks.Distance | include/utils/SPSCQueue.hpp:84-91 | The difference of two wrapped indices is the difference of the counts |
| Spsc.FirstInFirstOut | include/utils/SPSCQueue.hpp:32-64 | Over every interleaving with stale loads: what was popped is a prefix of what was pushed, the rest (at most size - 1) is in its slots in order, and the slot being written is not the one being read |
| Spsc.StepKeepsInv | include/utils/SPSCQueue.hpp:32-64 | Every atomic step of either thread keeps the index logs, counts, slots and local values consistent |
| Spsc.RunsKeepInv | include/utils/SPSCQueue.hpp:32-64 | So does every run, of any length and through any number of wrap-arounds |
| Spsc.StepRefinesQueue | include/utils/SPSCQueue.hpp:41-62 | Publishing a write appends to an abstract bounded queue that had room, publishing a read takes its front, and no other step changes it |
| Spsc.FullTest | include/utils/SPSCQueue.hpp:36-39 | The producer's test fails exactly when the read index that it saw is a full ring behind |
| Spsc.EmptyTest | include/utils/SPSCQueue.hpp:55-58 | The consumer's test fails exactly when it has seen no item beyond its own count |
| Spsc.FetchIsOldest | include/utils/SPSCQueue.hpp:60-60 | The only write that a slot read can observe is that of the oldest item |
| Spsc.FetchIsPossible | include/utils/SPSCQueue.hpp:60-60 | A consumer past its test always has that write to observe |
| Spsc.SlotsExclusive | include/utils/SPSCQueue.hpp:41-60 | The slot being read holds the oldest item, and the producer is not writing it |
| Spsc.PushVerdict | include/utils/SPSCQueue.hpp:32-39 | With a current load, `push` fails exactly when the queue held size - 1 items at the instant of the load, whatever the consumer does before the test |
| Spsc.PopVerdict | include/utils/SPSCQueue.hpp:52-58 | With a current load, `pop` fails exactly when the queue was empty at the instant of the load |
| Spsc.SizeForConsumer | include/utils/SPSCQueue.hpp:84-91 | Called by the consumer, `size` is the length at its load of the write index, whatever the producer does next |
| Spsc.SizeForProducer | include/utils/SPSCQueue.hpp:84-91 | Called by the producer, `size` is the length at its load of the read index |
| Spsc.EmptyForConsumer | include/utils/SPSCQueue.hpp:72-75 | For any write index that the consumer may load, `empty` holds exactly when it shows no item beyond the consumer's count |
| Spsc.FullForProducer | include/utils/SPSCQueue.hpp:78-81 | For any read index that the producer may load, `full` holds exactly when it shows a full ring |
| SpscQueues.SpscQueue.Push | include/utils/SPSCQueue.hpp:32-44 | Succeeds exactly below the capacity, and then appends; the call is the machine's run of its six steps, or of the four up to a failed test |
| SpscQueues.SpscQueue.Pop | include/utils/SPSCQueue.hpp:52-64 | Succeeds exactly when something waits, and then takes the front, the caller's variable being left alone otherwise; the call is the machine's run of its steps |
| SpscQueues.StalePushFails | include/utils/SPSCQueue.hpp:37-39 | With a stale load a push can fail on an empty queue: a run of the machine for size 2 |
| SpscQueues.StalePopFails | include/utils/SPSCQueue.hpp:56-58 | With a stale load a pop can fail although an item waits: a run of the machine for every size |
| SpscQueues.SpscQueue.Empty | include/utils/SPSCQueue.hpp:72-75 | True exactly when nothing waits |
| SpscQueues.SpscQueue.Full | include/utils/SPSCQueue.hpp:78-81 | True exactly with size - 1 items, which is when a push fails |
| SpscQueues.SpscQueue.Size | include/utils/SPSCQueue.hpp:84-91 | The number of items that wait |
| SpscQueues.SpscQueue.Room | include/utils/SPSCQueue.hpp:94-96 | The items never exceed the capacity, which is one slot less than the size |
| Drain.LeavesNothing | src/main.cpp:144-157 | A consumer that has left the loop has processed every pushed item in order, with the flag up; until then it has processed a prefix |
| Drain.MoveKeepsSafe | src/main.cpp:125-157 | Every step of either thread keeps what that rests on: having read the flag as true means having seen every push |
| Exchanged.LeavesWhatWasShown | src/main.cpp:146-146 | The loop with the two reads exchanged leaves with exactly the pushes that its last emptiness test saw, so with everything exactly when that test saw every push |
| Exchanged.LeavesOneBehind | src/main.cpp:146-146 | And it has a run that leaves with an item pushed and none processed |
| Drain.LoopEnds | src/main.cpp:140-155 | From the store of the flag on, wherever the consumer is and however stale its loads, at most 10 moves for each queued item, 15 more, and 7 for each load of the flag that comes too early to see the store are still to come |
| Drain.CurrentIsNotLate | src/main.cpp:140-155 | When loads of the flag give its current value there are no such loads, so the measure alone is the bound |
| Drain.LoopGoesOn | src/main.cpp:144-155 | A consumer that has not left always has a next step |
| Drain.ConsumerCatchesUp | src/main.cpp:144-155 | Wherever it is, with the flag up or down, the consumer alone can process everything pushed so far |
| Drain.LoopCompletes | src/main.cpp:144-157 | Once the flag is up, the consumer alone can leave the loop with everything processed |
| Demos.Produce | src/main.cpp:125-139 | The producer's loop alone with the queue: as many items as find room, up to size - 1 in all, are queued in order, the others dropped |
| Demos.Consume | src/main.cpp:144-156 | The consumer's loop after the producer is done: it processes everything that waits, in order, and counts it |
| LoggerRuns.StopWritesAll | include/utils/AsyncLogger.hpp:82-217 | Over every interleaving of any number of sessions: written messages are a prefix of the accepted ones, and the same whenever no session is on, with the queue empty; a session delivered all it accepted, or nothing when it was mute |
| LoggerRuns.OneConsumer | include/utils/AsyncLogger.hpp:107-114 | Worker and stopping thread never consume at the same time, and the flush in `stop` finds nothing |
| LoggerRuns.WorkerCatchesUp | include/utils/AsyncLogger.hpp:192-197 | Whatever state a running logger is in, its worker alone can write and deliver everything accepted so far while the flag is up |
| LoggerRuns.WorkerHasNext | include/utils/AsyncLogger.hpp:187-217 | A worker that has not exited always has a next step of its own |
| LoggerRuns.LoopsWhileNotEmpty | include/utils/AsyncLogger.hpp:192-213 | After the flag, for any index that the worker may load, it goes back to its loop exactly when a message waits, and to the final flush otherwise |
| LoggerRuns.LogCompletes | include/utils/AsyncLogger.hpp:128-144 | A message that fits can be pushed to its end, with nothing else of the logger changed |
| LoggerRuns.ActKeepsSafe | include/utils/AsyncLogger.hpp:82-217 | Every step of either thread keeps roles, drain knowledge and message bookkeeping consistent |
| LoggerRuns.NothingLost | include/utils/AsyncLogger.hpp:82-99 | When no `start` without a path directly follows a failed one, every accepted message was delivered by the time `stop` returns |
| LoggerRuns.FailedStartLoses | include/utils/AsyncLogger.hpp:87-93 | Otherwise there is a run in which a message is accepted and written but not delivered |
| LoggerRuns.SessionDelivers | include/utils/AsyncLogger.hpp:82-120 | From any stopped logger a session of one message can be run; it writes the message, and delivers it exactly when it had a path or no `start` with a path had failed before it |
| LoggerRuns.StopEnds | include/utils/AsyncLogger.hpp:102-120 | From the lowering of the flag on, wherever the worker is and however stale its loads, at most 20 steps for each queued message, 24 more, and 8 for each load of the flag that comes too early to see it lowered are taken until `stop` returns |
| LoggerRuns.CurrentIsNotLate | include/utils/AsyncLogger.hpp:102-120 | When loads of the flag give its current value there are no such loads |
| LoggerRuns.StopGoesOn | include/utils/AsyncLogger.hpp:102-120 | A `stop` that has not returned always has a next step |
| LoggerRuns.StopCompletes | include/utils/AsyncLogger.hpp:102-120 | From any point of a `stop` after the lowering, some run takes it to its return, with the accepted messages unchanged |
| LoggerRuns.StopCalled | include/utils/AsyncLogger.hpp:102-120 | A running logger, whatever its worker is doing, can be stopped: a call of `stop` can be taken to its return |
| AsyncLoggers.AsyncLogger.Start | include/utils/AsyncLogger.hpp:82-99 | Succeeds exactly when not running and the path, if any, opens; a failed open leaves a dead stream in place of the sink (the thread itself is `LoggerRuns`) |
| AsyncLoggers.AsyncLogger.Log | include/utils/AsyncLogger.hpp:128-144 | Queues the message exactly when its level passes, the logger runs and there is room |
| AsyncLoggers.AsyncLogger.Flush | include/utils/AsyncLogger.hpp:167-172 | Empties the queue and writes its contents in order, once |
| AsyncLoggers.AsyncLogger.LogWorker | include/utils/AsyncLogger.hpp:187-217 | What the worker still does once the flag is down: it empties the queue and writes its contents in order |
| AsyncLoggers.AsyncLogger.Stop | include/utils/AsyncLogger.hpp:102-120 | In the schedule where the worker does its remaining work at the join: nothing when not running, otherwise everything that waited is written in order and the sink is reset |

## Left out

- Networking, market data feeds and the server programs: sockets, curl and JSON around the core.
- The order memory pool, the benchmark helpers and the Linux tuning (pinning, prefetching, cycle counters): no bearing on results. An added order is simply an object that is not in the book yet.
- Floating-point price conversion: prices are scaled integers, as the book sees them.
- `order_type` (market, IOC, FOK): neither book nor matcher reads it.
- Widths of prices, ids, timestamps and counters other than quantities: unbounded integers. Prices are assumed small enough for `getSpread` not to overflow; `addOrder` checks neither `MIN_PRICE` nor `MAX_PRICE`.
- Levels are stored in a ladder as values and copied into a `PriceLevel` object for an operation and back, where the program updates them inside `std::map`. No reference to a level is held across operations in the program, so nothing can observe the difference.
- `std::map` is a map with its best key, not a balanced tree; iteration beyond best-first order is not used by the program.
- OrderBooks.OrderBook.CancelOrder: requires a linked book on the heap; cancellation on books that a duplicate id has broken is modelled on values, in `Unlinked.Cancel`.
- Matchers.Matcher.MatchOrders: requires a linked book, because on others the loop need not end (`Unlinked.DuplicateNeverEnds`); the exact condition is proved on values, in `Unlinked.EndsUnlessStuck`.
- The log call inside `executeTrade`, message formatting, truncation and output streams: a message is an opaque value and a write appends to a sequence.
- LoggerRuns.StopWritesAll: one thread calls `start`, `log` and `stop`, as the queue's contract demands. Several logging threads, and `flush` from outside while the worker runs (src/main.cpp:112), break that contract and are not modelled.
- LoggerRuns.StopEnds: how often a load of the flag may come too early is left to the platform, which makes a store visible in finite time; the bound counts those loads. The same holds for `Drain.LoopEnds`.
- Plain getters and forwarding calls (`getBestBidPrice`, `getTotalQuantity`, `getLastTrade`, `queueSize`, `setLevel`, `trace` to `fatal`, `try_push`, `try_pop`): they return or set one field, or pass their arguments on.
- The level filter of `log` and the periodic file flush of the worker in the two-thread machine: the first only decides whether a message is offered, the second writes nothing.
- SpscQueues.SpscQueue.Push: the class methods describe a call that the other thread does not interrupt; interrupted calls are the subject of `Spsc`.
- AsyncLoggers.AsyncLogger.Start: the class is the code as one thread runs it; the worker thread, its whole loop and the join are the machine of `LoggerRuns`.
- AsyncLoggers.AsyncLogger.LogWorker: the loop before the flag is down need not end and is left to `LoggerRuns`.
- AsyncLoggers.AsyncLogger.Stop: the worker's remaining work runs inside the call; every other schedule is covered by `LoggerRuns.StopWritesAll`.
- Demos.Produce: without the concurrent consumer, which is the subject of `Drain`.
- Demos.Consume: without the concurrent producer, which is the subject of `Drain`.
- The pointer specialization of the queue: the same algorithm on another element type.
- Weak-memory behaviour beyond stale loads of the two indices, the flags and the slots: no other shared data exists in these protocols.

# A verified model of the matching engine

This project models a price-time-priority exchange and proves what its parts promise each other: one limit order
book per symbol, four matching procedures, and the engine around them with trigger orders, a write-ahead log,
incremental market data and a trade tape. Two self-contained cores are modelled as well: the single-producer
single-consumer ring buffer and the token-bucket rate limiter.

`dafny verify dfyconfig.toml` checks everything.

## How it is built

The model has a reference layer on values and an imperative layer proved to refine it.

| files | role |
|---|---|
| `Orders.dfy`, `Fees.dfy` | orders, trades, fees |
| `FlatBook.dfy`, `MatchingLaws.dfy`, `Resizing.dfy` | the reference book, two plain lists of orders in priority order; the laws of matching; modifies to any quantity |
| `Ladder.dfy`, `BookShapes.dfy`, `Books.dfy` | price levels with cached totals; levels, queues, totals and index over shared `Order` objects as values; the class that holds them |
| `Matching.dfy` | the four procedures as loops over the heap book |
| `EngineCore.dfy`, `Recovery.dfy`, `EngineRuns.dfy`, `OwnSymbols.dfy` | the engine's critical sections on values and their invariant; replay of a log; the step machine with invariants over all runs |
| `WriteAheadLog.dfy`, `ReplayLists.dfy`, `ReplayTwice.dfy` | replay of the log against the live state; replaying twice |
| `DryRuns.dfy`, `Activations.dfy` | exactly when a check of triggers leaves its book as it was, and what that means for replay |
| `MarketData.dfy`, `Joining.dfy`, `Calls.dfy` | differences of depths, the feed of a symbol, a client's replica, the trade tape; clients that join late; whole calls as runs |
| `Engine.dfy` | the engine as a class: each critical section is a method proved to be a step of the machines above |
| `Masking.dfy`, `SpscRing.dfy`, `Rings.dfy` | index masking; both threads as separate loads, slot accesses and stores; the sequential class |
| `TokenBucket.dfy` | the token bucket over histories of requests, and the classes |
| `Persistence.dfy`, `SavedBooks.dfy`, `SavedState.dfy` | the JSON form and the compact form of a book; a saved and loaded book in use; loading a whole saved state |

An `OrderBook` object holds `buyLevels`, `sellLevels` and `orderMap` as in the source, with ghost value views of the
levels. `Valid()` says that the levels mirror the views, that level keys equal order prices, that no level is empty,
that cached totals are sums of queues, and that the index is exactly the set of resting orders. `Flat()` is the
reference book. Every method equates the new `Flat()` with a reference operation on the old one, so any two valid
books with equal `Flat()` give equal results for ever (`SavedBooks.RunOps`).

What callers are told is also said without the reference functions, in prices, quantities, ids and symbols: the trade
records of an order (`TradesAre`, `FeesAre`), where orders end up (`FillsAre`, `BookAfter`), which prices hit which
trigger and what becomes of it (`CheckDecides`, `SubmitLeaves`, `ActivationIs`), the listed levels (`TopIsBest`), the
tape (`SubmitOrder`, `GetRecentTrades`) and the token bucket (`TryConsume`, `LevelIsTightestWindow`).

## Modelling choices

- Prices, quantities, fees and tokens are `real`. Ids and symbols are abstract; queue position stands for time.
- A key-ordered map of price levels is a sequence ordered by price. The source writes each branch twice, once per
  side; the model writes it once and takes the side as a parameter.
- Hash maps are visited in an arbitrary order wherever the source iterates over one.
- Pending trigger orders are values. The source keeps shared objects, but nothing assigns to them while they wait.
- Clock readings are parameters.
- Exceptions are results: `None` for "Unknown order type", `false` for "Order not found".
- A step of the machine is one critical section under the engine mutex. Steps come in any order, which covers every
  interleaving of threads; trades may be stamped and triggers checked at any moment and any price, and a log may be
  replayed into the running engine. Runs start from any sound state, the empty engine among them.

What callers must observe, as the source does or assumes:

- A submitted id neither rests nor waits as a trigger: `addOrder` overwrites the index (src/engine/order_book.cpp:31),
  and a trade also decreases a resting order with the taker's id (src/engine/matching_algorithm.cpp:106). Nothing is
  asked of the quantity: matching an order without a positive one does nothing.
- A modify of a resting order sets a positive quantity. Both listeners let zero through (src/network/listener.cpp:280,
  src/network/session.cpp:143), and replay reads a missing quantity as zero (src/engine/matching_engine.cpp:528); the
  methods are proved for every quantity, and the next section says what happens.
- The entries of a replayed log fit where they are replayed (`Recovery.Fits`), which is proved to be exactly when
  replay keeps the engine sound.

## Where the code falls short of a promise

Each point is a theorem that says exactly when the promise holds, or a concrete run on which it fails.

- Replay and activations. Replaying an "activated" entry drops the trigger but does not match the activated order.
  Replay still agrees after a check of triggers if and only if the check changed no book, and that is decided before it
  (`CheckReplaysExactly`, and `RunReplaysExactly` over runs): run the hits dry among themselves, from an empty book on.
  Each stop-limit must lie strictly between the best prices of the real book, any other hit must be filled by hits
  before it unless the real book has nothing to fill it with, and in the end nothing may be left. Where the hits are on
  one side, or no stop-limit is hit, that comes down to each hit being harmless alone (`OneSidedChecksReplay`,
  `MarketChecksReplay`). `PairReplays` is a two-sided check of either outcome, and `ReplayCanDiffer` a run whose log does
  not rebuild its books.
- Replay and soundness. An order that an activation took stays in the replayed book, so its id may come back as a
  trigger and then both rest and wait (`ReplayBreaksApart`). Replay of a log of positive modifies keeps an engine
  sound if and only if every entry fits (`SoundExactlyIfFits`); logs of runs that submit no id twice always fit (`DistinctRunLogsFit`), and so do logs
  of runs in which no check changes a book (`RunLogsFit`). Crossed books do not arise even where entries do not fit
  (`ReplayOfRunsUncrossed`).
- Modifies to zero or less. The book stays consistent if and only if the id does not rest or the quantity is positive.
  For a resting order and any other quantity the level is erased, and the index keeps its orders, exactly when the
  level's new total is not positive (src/engine/order_book.cpp:49-56); otherwise the order stays queued without a
  positive quantity (`ResizedNotPositive`), and at zero the next taker that reaches it makes a trade of quantity zero
  (`ZeroQuantityTrade`).
- Replaying twice. A submit is skipped when its id rests, so a cancel or modify that stands ahead of its submit in the
  log acts only the second time. `ReplayTwiceIsReplayOnce` says exactly for which logs the second replay changes
  nothing; `EarlyCancelReorders` is one for which it does. Logs the engine writes are never of that kind
  (`RunLogsAreKnown`, `KnownIsStable`).
  Triggers have no such test: a second replay puts every submitted trigger behind the pending ones again, and
  leaves the pending lists alone if and only if the log activates everything it would leave pending (`PendingTwice`).
- Saved symbols. The JSON form does not store the symbols of orders; `RoundTrip` holds if and only if every order
  carries the book's symbol. `RunBooksRoundTrip` proves that of every reachable book.
- Saved state. `loadState` replaces books and keeps the pending triggers, so an id saved resting may wait as a trigger
  by then (`LoadBreaksApart`). Loading sound books keeps an engine sound if and only if no saved id is pending or rests
  in a book that stays (`LoadKeepsExactly`): always on an empty engine (`EmptyLoads`, `Restart`), and on the same engine as long as no
  saved id was submitted again (`CanGoBack`). Pending triggers are not saved.
- Compact form. Depth survives if and only if a side has at most a hundred levels (`CompactKeepsDepth`).
- Gaps. docs/WEBSOCKET_API.md:13 tells clients to fetch a snapshot when `prevSeqNum + 1 != seqNum`. In the code a gap
  means only that publications in between found nothing to send (`GapMeansSuppressed`); a client that applies every
  message is up to date anyway (`ReplicaHoldsSnapshot`).
- Late subscribers. A client that joins with the last published snapshot is as good as one with every message
  (`JoinerHoldsSnapshot`), but new subscribers are seeded with the current book, which may be ahead of it. Such a
  client ends with the server's snapshot if and only if its seed agreed with that snapshot at every price that no later
  message touches (`JoinerExact`); `JoinerCanDiffer` is an interleaving in which it never does. Between sequential
  calls the two are equal (`JoinersAreSeeded`, `JoinsBetweenCalls`).
- README.md:13 speaks of vectors for the queues; the code uses linked lists (include/engine/order_book.h:57).

## Model

| member | source | states |
|---|---|---|
| `Books.OrderBook.constructor` | src/engine/order_book.cpp:8 | A new book is consistent and empty. |
| `Books.OrderBook.AddOrder` | src/engine/order_book.cpp:10-32 | For every order: a stable insertion into the flat priority list, and the id indexes this object; the book stays consistent if and only if the quantity is positive and the id was not indexed. |
| `FlatBook.AddDuplicate` | src/engine/order_book.cpp:31 | Adding an id that already rests puts it in the lists twice: the reference book is no longer well formed. |
| `FlatBook.InsertSplits` | src/engine/order_book.cpp:20-21 | The insertion point lies behind every order at an equal or better price and ahead of every strictly worse one. |
| `Books.OrderBook.ModifyOrder` | src/engine/order_book.cpp:34-58 | For every quantity: succeeds exactly when the id rests, leaves the index alone, and either sets one quantity in place or drops the whole level, as the level's new total decides; the book stays consistent if and only if the id does not rest or the quantity is positive. |
| `Resizing.ResizedPositive` | src/engine/order_book.cpp:42-56 | A positive quantity changes one order in place and nothing else, because a level holds at least each of its orders. |
| `Resizing.ResizedNotPositive` | src/engine/order_book.cpp:49-56 | Any other quantity drops the order from the lists with its whole level if the level's new total is not positive, and otherwise leaves it queued without a positive quantity. |
| `Resizing.LevelAtPrice` | src/engine/order_book.cpp:49-56 | Erasing a level removes exactly the orders at its price from the flat list. |
| `Resizing.ZeroQuantityTrade` | src/engine/matching_algorithm.cpp:28-33 | A taker that reaches an order of quantity zero makes a trade of quantity zero with it, and takes it out of the list. |
| `Books.OrderBook.CancelOrder` | src/engine/order_book.cpp:60-86 | Returns true exactly when the id rests; deletes that one order from level, total and index. |
| `FlatBook.WithoutAt` | src/engine/order_book.cpp:73 | In a list of distinct ids a cancel deletes one element and keeps the others in order. |
| `Books.OrderBook.DecreaseOrderQuantity` | src/engine/order_book.cpp:185-226 | Takes an amount off one order, removes it when nothing is left, returns what is left, ignores unknown ids; the clamp of a negative total is proved unreachable. |
| `Ladder.TotalsStayNonNegative` | src/engine/order_book.cpp:200-201 | A cached level total is never below the quantity of any order of the level, and equals it only for the last one. |
| `Ladder.AddToLevel` | src/engine/order_book.cpp:19-21 | Appending to a level's queue and raising its total is a stable insertion into the flat list, and the ladder stays well formed. |
| `Ladder.AddNewLevel` | src/engine/order_book.cpp:16-21 | So is creating a level at its place in the key order. |
| `Ladder.SetInLevel` | src/engine/order_book.cpp:47-48 | Changing a quantity inside a level changes it in the flat list, and the total stays the sum of the queue. |
| `Ladder.RemoveFromLevel` | src/engine/order_book.cpp:72-74 | Removing an order, and the level with its last order, removes it from the flat list. |
| `BookShapes.FindsLevel` | src/engine/order_book.cpp:44 | An indexed order is found in the level that its own side and price name, and in no other. |
| `BookShapes.ConsistentAdd` | src/engine/order_book.cpp:10-32 | Adding keeps all four structures in agreement. |
| `BookShapes.ConsistentSet` | src/engine/order_book.cpp:34-58 | Changing a quantity keeps them in agreement although level and index share the order object. |
| `BookShapes.ConsistentRemove` | src/engine/order_book.cpp:60-86 | Removing keeps them in agreement. |
| `BookShapes.ResizedShape` | src/engine/order_book.cpp:34-58 | After a modify to any quantity levels, queues and index objects still mirror the value view, which flattens to the reference modify; with a positive quantity all structures agree again. |
| `Books.OrderBook.HasMatchingOrdersMeans` | src/engine/order_book.cpp:164-178 | Looking at the best opposite price alone decides whether any opposite order is acceptable. |
| `Books.OrderBook.GetMatchingOrders` | src/engine/order_book.cpp:132-162 | The candidates are the objects of the shortest acceptable prefix of the opposite list that covers the order's quantity, in priority order. |
| `Books.OrderBook.CollectLevel` | src/engine/order_book.cpp:142-146 | The inner loop takes the shortest prefix of a level that covers what is left, and counts down by exactly its quantity. |
| `Books.OrderBook.GetTop` | src/engine/order_book.cpp:108-130 | The best prices of a side, best first, each with all that rests there; a price is missing only if the list is full and every listed price is better. |
| `Ladder.TopIsBest` | src/engine/order_book.cpp:108-130 | The same of any sorted list of orders, so also of every published depth. |
| `Books.OrderBook.GetBest` | src/engine/order_book.cpp:88-106 | The first order's price with all that rests there, or zeros. |
| `Ladder.GroupFlatten` | src/engine/order_book.cpp:112-115 | Grouping the flat list by price gives exactly the level prices and cached totals. |
| `FlatBook.ModifyKeepsWellFormed` | src/engine/order_book.cpp:34-58 | A modify keeps order, ids and an uncrossed book. |
| `FlatBook.DecreaseKeepsWellFormed` | src/engine/order_book.cpp:185-226 | A decrease by any amount keeps both sides sorted, ids distinct and quantities positive, and adds no id. |
| `FlatBook.CancelKeepsUncrossed` | src/engine/order_book.cpp:60-86 | A cancel never crosses a book. |
| `Matching.MatchingAlgorithm.ProcessMarketOrder` | src/engine/matching_algorithm.cpp:19-36 | The MARKET loop terminates after at most one useful pass and has the book and trades of the reference execution. |
| `Matching.MatchingAlgorithm.ProcessLimitOrder` | src/engine/matching_algorithm.cpp:38-59 | Same for LIMIT; the remainder rests. |
| `Matching.MatchingAlgorithm.ProcessIOCOrder` | src/engine/matching_algorithm.cpp:61-78 | Same for IOC; the remainder is dropped. |
| `Matching.MatchingAlgorithm.ProcessFOKOrder` | src/engine/matching_algorithm.cpp:80-99 | Same for FOK, which sums candidates before touching the book. |
| `Matching.MatchingAlgorithm.ProcessOrder` | src/engine/matching_algorithm.cpp:7-17 | Dispatch by type; trigger types are the "Unknown order type" error and leave the book alone. The records returned are one per filled order, each at that order's price, for the smaller of its quantity and what the better ones left, with both ids, the aggressor and both fees. |
| `Matching.TradesAre` | src/engine/matching_algorithm.cpp:101-125 | The same written out in prices and quantities: which opposite orders are traded with, at whose price, for how much, within which limit, and why no more. |
| `Matching.FeesAre` | src/engine/matching_algorithm.cpp:111-123 | Both fees of every record are price times quantity times the rate in force. |
| `MatchingLaws.FillsAre` | src/engine/matching_algorithm.cpp:19-99 | Which orders are filled and by how much, for every order type, in terms of the book before and the order alone. |
| `MatchingLaws.BookAfter` | src/engine/matching_algorithm.cpp:38-59 | Where everything ends up: filled orders gone, the last one's rest at the head, and a LIMIT order's remainder on its own side at its own price behind every order at least as good. |
| `Matching.CandidatesAre` | src/engine/order_book.cpp:132-162 | The capped list of candidates is the shortest run of acceptable orders from the head that covers the quantity. |
| `Matching.MatchingAlgorithm.SweepWhileMatching` | src/engine/matching_algorithm.cpp:42-52 | The loop of LIMIT and IOC ends with nothing left or nothing acceptable left, after one pass. |
| `Matching.MatchingAlgorithm.SweepOnce` | src/engine/matching_algorithm.cpp:24-34 | A round that finds candidates can only be the first; a round that finds none ends the execution. |
| `Matching.MatchingAlgorithm.NoCandidates` | src/engine/matching_algorithm.cpp:24-34 | After one pass the capped query, which still uses the order's original quantity, finds nothing. |
| `Matching.MatchingAlgorithm.FillCandidates` | src/engine/matching_algorithm.cpp:28-33 | Filling the candidates in order is the sweep of the opposite list. |
| `Matching.MatchingAlgorithm.FillBest` | src/engine/matching_algorithm.cpp:30-32 | One fill trades the smaller quantity with the best order and leaves its remainder at the head. |
| `Matching.MatchingAlgorithm.ExecuteTrade` | src/engine/matching_algorithm.cpp:101-125 | The trade is at the maker's price with both ids, the taker's side and the fees in force; both ids are decreased, whether or not the taker rests. |
| `Matching.MatchingAlgorithm.OnlyTheMaker` | src/engine/matching_algorithm.cpp:105-106 | The second decrease finds nothing when the taker does not rest. |
| `MatchingLaws.PriceTimePriority` | src/engine/matching_algorithm.cpp:19-36 | A list of fills takes the shortest acceptable prefix that covers the quantity, in order and as full as possible, if and only if it is what a sweep produces. |
| `MatchingLaws.AllButLastFull` | src/engine/matching_algorithm.cpp:28-33 | All makers but the last are filled completely. |
| `MatchingLaws.SweepInPriorityOrder` | src/engine/matching_algorithm.cpp:28-33 | Trade prices never improve along the sweep, and no order left behind outranks a traded one. |
| `MatchingLaws.NoTradeThrough` | README.md:29 | No order of any type trades at a price while a better-ranked opposite order keeps its quantity; trades respect the limit and maker prices. |
| `MatchingLaws.FokExact` | src/engine/matching_algorithm.cpp:80-99 | FOK fills completely if and only if the whole acceptable opposite depth covers it, which is when an IOC order would have nothing left, and otherwise leaves the book untouched; when it fills it trades like IOC. |
| `MatchingLaws.CappedDepth` | src/engine/matching_algorithm.cpp:82-88 | Summing the capped list decides the same as summing all acceptable orders. |
| `MatchingLaws.LimitIsIocPlusRemainder` | src/engine/matching_algorithm.cpp:38-78 | LIMIT and IOC trade alike; the books differ by the rested remainder only. |
| `MatchingLaws.MarketIsUnlimitedIoc` | src/engine/matching_algorithm.cpp:19-36 | MARKET equals an IOC whose limit accepts every opposite price. |
| `MatchingLaws.Conservation` | src/engine/matching_algorithm.cpp:38-59 | Traded plus remaining quantity is the submitted one; opposite depth falls by what was traded, own depth grows by exactly what rests. |
| `MatchingLaws.OrderSplitting` | src/engine/matching_algorithm.cpp:61-78 | An IOC or MARKET order of a + b leaves the book, the quantity per maker and the total maker and taker fees of a then b. |
| `MatchingLaws.SweepExhausts` | src/engine/matching_algorithm.cpp:24-34 | After a sweep either nothing is left of the order or no opposite order is acceptable. |
| `MatchingLaws.ProcessKeepsWellFormed` | src/engine/matching_algorithm.cpp:7-99 | Matching keeps sides sorted, ids distinct and quantities positive. |
| `MatchingLaws.ProcessKeepsUncrossed` | src/engine/matching_algorithm.cpp:38-59 | No order of any type leaves the book crossed. |
| `Fees.NetMakerFee` | include/engine/fee_model.h:33-45 | Charge minus rebate is price times quantity times one signed rate, one of the two is zero, and the rates are those stored for the symbol or 0.001 and 0.002. |
| `Fees.RatesAre` | src/engine/matching_algorithm.cpp:111-123 | The rates in force: those stored for the symbol, or 0.001 and 0.002 without a model or a schedule. |
| `Fees.FeeAdditive` | include/engine/fee_model.h:38-42 | Fees of two fills at one price add up to the fee of their sum. |
| `Matching.MatchingAlgorithm.FeesFor` | src/engine/matching_algorithm.cpp:111-123 | With or without a fee model the fees are price times quantity times the symbol's own rate, or 0.001 and 0.002. |
| `EngineCore.SubmitKeeps` | src/engine/matching_engine.cpp:30-89 | A submit keeps the engine invariant, whether it matches, rests or parks a trigger. |
| `EngineCore.CheckKeeps` | src/engine/matching_engine.cpp:335-392 | So does a check of triggers, however many orders it activates. |
| `EngineRuns.StepKeeps` | src/engine/matching_engine.cpp:17-556 | So does every critical section, replay of a log included. |
| `EngineRuns.RunsAreSafe` | src/engine/matching_engine.cpp:17-556 | From any sound state on: in every state that submits, cancels, modifies, activations and replays lead to, no book is crossed, no id rests in two books, and no id is both pending and resting. |
| `EngineCore.StillPendingExact` | src/engine/matching_engine.cpp:341-391 | After a check the pending list is the order-preserving sublist of the orders whose condition fails at the price. |
| `EngineCore.CheckDecides` | src/engine/matching_engine.cpp:341-391 | In prices: which comparison of the last price with the order's decides, for each of the three kinds and both sides, whether it stays pending; order of the rest and other symbols' lists are kept. |
| `EngineCore.HitsPersist` | src/engine/matching_engine.cpp:343-363 | An order hit at one price is hit at every price further on its side. |
| `EngineCore.StopOrProfit` | src/engine/matching_engine.cpp:343-355 | At any price but its own, a take-profit is hit exactly when a stop-loss of its side and price is not. |
| `Activations.ActivationIs` | src/engine/matching_engine.cpp:365-385 | An activated order takes from the other side, a stop-limit up to its price; its remainder rests as a LIMIT order at that price behind every order at least as good, and that of any other kind is dropped; the activation is logged. |
| `EngineCore.StillPendingIds` | src/engine/matching_engine.cpp:341-391 | The ids that stay are those not hit. |
| `EngineRuns.TriggersFireOnce` | src/engine/matching_engine.cpp:335-392 | In every run each submitted trigger is either still pending or was activated once. |
| `EngineRuns.NewEngine` | include/engine/matching_engine.h:55 | The engine that has just been started is sound, with no trigger submitted, pending or activated. |
| `ReplayTwice.FromTheStart` | src/engine/matching_engine.cpp:17-449 | The theorems about runs hold from that engine on: sound states, triggers fired once, pending lists and, without book-changing checks, books rebuilt by replay, and cancels and modifies logged after their submits. |
| `Recovery.ReplayKeeps` | src/engine/matching_engine.cpp:489-556 | Replaying a log whose entries fit where they are replayed keeps any sound engine sound, live or empty. |
| `Recovery.FitsExactly` | src/engine/matching_engine.cpp:500-531 | A submit or activation entry that does not fit leaves the engine unsound, so the condition is exact: a trigger's id rests and waits nowhere; any other order is skipped, or does not come to rest, or its id rests and waits nowhere. |
| `Recovery.SoundExactlyIfFits` | src/engine/matching_engine.cpp:489-556 | Replay passes through sound states only, if and only if every entry fits. |
| `Recovery.DistinctLogsFit` | src/engine/matching_engine.cpp:489-556 | A log that submits no id twice fits an empty engine, whatever was activated. |
| `Recovery.EntryBringsOnlyItsId` | src/engine/matching_engine.cpp:500-547 | Whatever rests or waits after an entry did so before, or is what the entry submits. |
| `OwnSymbols.StepOwn` | src/engine/matching_engine.cpp:17-449 | A critical section changes at most the book of the symbol it concerns and brings no order of another symbol into it. |
| `OwnSymbols.RunsOwn` | src/engine/matching_engine.cpp:17-449 | In every reachable state every order rests in the book of its own symbol. |
| `WriteAheadLog.StepReplaysBooks` | src/engine/matching_engine.cpp:43-72 | One more step keeps replay of the log equal to the live books if and only if it is not a check of triggers that changes a book. |
| `WriteAheadLog.ReplayRebuildsExactly` | src/engine/matching_engine.cpp:489-556 | Replay of the log equals the live books at every moment of a run, if and only if no check of triggers changed a book. |
| `WriteAheadLog.ReplayRebuildsBooks` | src/engine/matching_engine.cpp:489-556 | For every run in which no check changes a book, replaying the log into an empty engine rebuilds exactly the live books. |
| `WriteAheadLog.EveryPrefixReplays` | src/engine/matching_engine.cpp:489-556 | Every prefix of an activation-free log rebuilds books and pending lists as they were when it was the whole log. |
| `WriteAheadLog.ReplayRebuildsTriggers` | src/engine/matching_engine.cpp:532-544 | For every run, activations included, replay rebuilds the live pending lists. |
| `Activations.HarmlessChecksReplay` | src/engine/matching_engine.cpp:335-392 | If each hit order alone would change nothing (it has no quantity, or it is no stop-limit and the opposite side is empty), replay still agrees after the check. |
| `Activations.OneSidedChecksReplay` | src/engine/matching_engine.cpp:335-392 | If a check hits one side only, replay still agrees if and only if that is so. |
| `Activations.CheckReplaysExactly` | src/engine/matching_engine.cpp:335-392 | For every check: replay still agrees afterwards if and only if a dry run of the hits among themselves, from an empty book on, stays strictly between the best prices of the real book and ends empty. |
| `Activations.RunReplaysExactly` | src/engine/matching_engine.cpp:489-556 | Over a run: replay of the log equals the live books at every moment, if and only if before each check that dry run ends empty. |
| `DryRuns.UnchangedExactly` | src/engine/matching_engine.cpp:335-392 | A check leaves its book as it was, queues and quantities included, if and only if the dry run ends empty. |
| `DryRuns.BestPricesDecide` | src/engine/matching_engine.cpp:343-363 | The dry run depends on the pending orders, the trade price and the best prices of the book, and on nothing else of it. |
| `DryRuns.DryRunDecides` | src/engine/matching_engine.cpp:365-385 | The same from any point of the check on: while the dry run goes well, the live book is the dry run's book put in front of the original one. |
| `DryRuns.FireStays` | src/engine/matching_engine.cpp:365-385 | A book whose original orders were once touched, or have a new order behind them, is not restored by any later activation. |
| `Activations.MarketChecksReplay` | src/engine/matching_engine.cpp:371-375 | If a check hits stop-losses and take-profits only, on one side or both, replay still agrees if and only if each hit with a quantity finds the opposite side empty. |
| `Activations.PairReplays` | src/engine/matching_engine.cpp:367-370 | A buy and a sell stop-limit of one quantity, hit in one check of an empty book: at one price they trade with each other and replay still agrees; otherwise both rest and it does not. |
| `Activations.QuietRunsAreCheckable` | src/engine/matching_engine.cpp:489-556 | Every run without a book-changing check ends in a state those conditions apply to. |
| `Activations.ReplayCanDiffer` | src/engine/matching_engine.cpp:532-544 | A three-step run whose log does not rebuild its books. |
| `Activations.ReplayBreaksApart` | src/engine/matching_engine.cpp:514-544 | A four-step run whose log, replayed, leaves an id both resting and pending. |
| `WriteAheadLog.RunLogsFit` | src/engine/matching_engine.cpp:500-531 | Every log that a run writes while no check changes a book fits an empty engine. |
| `WriteAheadLog.DistinctRunLogsFit` | src/engine/matching_engine.cpp:489-556 | Every log of a run that submits no id twice fits an empty engine, activations or not. |
| `WriteAheadLog.RecoverThenTrade` | src/engine/matching_engine.cpp:489-556 | A recovered engine is sound and stays so whatever happens next, and as long as no check changes a book the whole log, old and new, rebuilds it again. |
| `WriteAheadLog.ReplayStaysUncrossed` | src/engine/matching_engine.cpp:489-556 | Replaying any log of positive modifies into any engine leaves every book well formed and uncrossed, whether or not its entries fit. |
| `WriteAheadLog.ReplayOfRunsUncrossed` | src/engine/matching_engine.cpp:489-556 | No state that replay of a run's log passes through has a crossed book, activations or not. |
| `ReplayTwice.ReplayTwiceIsReplayOnce` | src/engine/matching_engine.cpp:500-531 | For LIMIT submits, modifies and cancels with distinct ids and no crossing prices, a second replay leaves every book unchanged, queue order included, if and only if the log is stable: early modifies do not show, and early cancels send no survivor behind another one of its level. |
| `ReplayTwice.EarlyCancelReorders` | src/engine/matching_engine.cpp:517-525 | A concrete log on which the second replay changes queue order. |
| `ReplayLists.FirstPass` | src/engine/matching_engine.cpp:500-531 | After any prefix a side holds exactly the orders submitted to it and not cancelled since, each with its last quantity, by price and then by position of the submit. |
| `ReplayLists.SecondPass` | src/engine/matching_engine.cpp:517-521 | The same for any prefix of a second pass: ids that the log cancels anywhere are filed anew by their submit, the others stay where they are. |
| `ReplayLists.SecondPassIsVoid` | src/engine/matching_engine.cpp:517-521 | On every side the second pass ends as the first if and only if the log is stable. |
| `ReplayTwice.KnownIsStable` | src/engine/matching_engine.cpp:116-169 | A log whose cancels and modifies follow the submits they name is stable. |
| `ReplayTwice.RunLogsAreKnown` | src/engine/matching_engine.cpp:116-169 | Every log the engine writes is such a log, because only successful cancels and modifies are logged. |
| `ReplayTwice.NewEngineKnows` | src/engine/matching_engine.cpp:473-481 | So it is of a new engine, where nothing rests or waits. |
| `ReplayTwice.PendingAfterReplay` | src/engine/matching_engine.cpp:514-544 | A replay keeps what was pending and is not activated by the log, and puts behind it what a replay into an empty engine leaves pending. |
| `ReplayTwice.PendingTwice` | src/engine/matching_engine.cpp:514-516 | A second replay leaves the pending lists alone if and only if the log activates the id of everything it leaves pending; otherwise triggers wait twice. |
| `Engine.MatchingEngine.constructor` | include/engine/matching_engine.h:55 | A new engine satisfies every invariant and is empty. |
| `Engine.MatchingEngine.GetOrCreateOrderBook` | src/engine/matching_engine.cpp:558-565 | Returns the symbol's book, creating an empty one once; all other books are untouched. |
| `Engine.MatchingEngine.ProcessIn` | src/engine/matching_engine.cpp:74 | Matching in one heap book is the reference match in that book, and no other book or order changes. |
| `Engine.MatchingEngine.SubmitSection` | src/engine/matching_engine.cpp:30-89 | The critical section is the submit step: same books, pending lists and log, and the trades of the reference execution. |
| `Engine.MatchingEngine.CancelOrderUnlocked` | src/engine/matching_engine.cpp:116-134 | Whatever order the books are visited in, the section is the cancel step and reports the holder's symbol. |
| `Engine.MatchingEngine.ModifyOrderUnlocked` | src/engine/matching_engine.cpp:150-169 | The same for a modify to any quantity; the books stay consistent if and only if nothing was found or the quantity is positive. |
| `Engine.MatchingEngine.Triggered` | src/engine/matching_engine.cpp:343-363 | Sellers' stops are hit at or below their price and buyers' at or above; take-profits the other way round. |
| `Engine.MatchingEngine.Activate` | src/engine/matching_engine.cpp:365-385 | An activation matches a LIMIT or MARKET order in its place and logs it. |
| `Engine.MatchingEngine.CheckTriggers` | src/engine/matching_engine.cpp:335-392 | The section is the check step: hit orders are activated in list order, the others stay in order. |
| `Engine.MatchingEngine.StampTrade` | src/engine/matching_engine.cpp:394-442 | Stamps the symbol's next number, keeps the last thousand trades, logs the trade and leaves other tapes alone. |
| `Engine.MatchingEngine.GetRecentTrades` | src/engine/matching_engine.cpp:204-218 | The last trades ever stamped for the symbol, numbered from 1, as many as asked for and at most a thousand. |
| `MarketData.NewestComeLast` | src/engine/matching_engine.cpp:204-218 | After a submit the answer ends with that submit's trades in order, numbered on. |
| `Engine.MatchingEngine.GetMarketData` | src/engine/matching_engine.cpp:171-202 | Depth, best prices and best quantities of the symbol's reference book; empty and zero for an unknown symbol. |
| `Engine.MatchingEngine.PublishFeed` | src/engine/matching_engine.cpp:248-332 | A full snapshot first, then the difference to the last snapshot, or nothing if nothing changed; one publication of that symbol's feed. |
| `Engine.MatchingEngine.PublishSection` | src/engine/matching_engine.cpp:248-332 | Keeps every feed equal to the result of all its publications. |
| `Engine.MatchingEngine.PublishMarketDataUpdate` | src/engine/matching_engine.cpp:248-332 | Adds one publication for its symbol and none for others; without interference, a client with every message holds the ten best levels of the current book. |
| `Engine.MatchingEngine.PublishTrade` | src/engine/matching_engine.cpp:394-449 | A stamp step followed by a check of triggers at the trade's price. |
| `Engine.MatchingEngine.SubmitOrder` | src/engine/matching_engine.cpp:17-100 | The symbol's own bucket decides. An accepted order is a submit step followed by a stamp and a check per trade: the symbol's tape grows by exactly its trades, every invariant is kept, and one publication follows unless it is a trigger. A refused order changes only the bucket. |
| `Calls.TradesOfSubmit` | src/engine/matching_engine.cpp:74-98 | The trades of a submit: one per filled order, at that order's price, with quantity, ids and aggressor. |
| `Calls.SubmitLeaves` | src/engine/matching_engine.cpp:95-97 | What stays pending through a submit is exactly what none of its trade prices hits. |
| `Engine.MatchingEngine.CancelOrder` | src/engine/matching_engine.cpp:102-114 | A whole call is the cancel step; the answer tells whether the id rested anywhere; if it did, its symbol is published once, and clients stay current. |
| `Engine.MatchingEngine.ModifyOrder` | src/engine/matching_engine.cpp:136-148 | The same for a modify to any quantity; the engine stays sound if and only if nothing was found or the quantity is positive. |
| `Engine.MatchingEngine.SubmitMissing` | src/engine/matching_engine.cpp:517-521 | During replay an order that its book already holds is skipped. |
| `Engine.MatchingEngine.ReplayOne` | src/engine/matching_engine.cpp:500-547 | One log entry is one replay step. |
| `Engine.MatchingEngine.ReplayWAL` | src/engine/matching_engine.cpp:489-556 | The loop over the log is the replay step, from any sound engine to a sound engine; it writes no log and leaves the replaying flag down. |
| `Engine.MatchingEngine.StartWAL` | src/engine/matching_engine.cpp:473-481 | Logging goes on behind the contents of the file. |
| `Calls.PublishingOwn` | src/engine/matching_engine.cpp:95-98 | Publishing the trades of one order touches the book of that order's symbol only. |
| `Engine.MatchingEngine.JoinersAreSeeded` | src/network/listener.cpp:202-216 | Between calls a symbol's last snapshot is its book's depth, which is what a new subscriber is sent. |
| `MarketData.ComputeChanges` | src/engine/matching_engine.cpp:272-302 | An ADD for every price that is new, an UPDATE for every price whose quantity differs, a REMOVE for every price that is gone, one per price, in whatever order the hash maps are visited. |
| `MarketData.DiffLeadsToNew` | src/engine/matching_engine.cpp:272-302 | Applying them to the old depth in any order gives exactly the new depth. |
| `MarketData.EmptyDiff` | src/engine/matching_engine.cpp:304-310 | There is nothing to send if and only if the depth did not change. |
| `MarketData.ReplicaHoldsSnapshot` | src/engine/matching_engine.cpp:248-332 | Under any interleaving of publishers, a client with every message holds the server's last snapshot. |
| `Joining.JoinerHoldsSnapshot` | src/engine/matching_engine.cpp:248-332 | Under any interleaving, a client that joins at any publication with the snapshot of that moment and gets every later message holds the server's last snapshot. |
| `Joining.JoinerExact` | src/network/listener.cpp:202-216 | Seeded with any depth, it does so if and only if the seed agrees with that snapshot at every price that no later message touches. |
| `Joining.JoinsBeforeTheFirst` | src/network/listener.cpp:202-216 | Before the first publication the seed does not matter. |
| `Joining.JoinerCanDiffer` | src/network/listener.cpp:202-216 | A joiner that reads the book between two publications of one depth, the second suppressed, and never agrees. |
| `Calls.JoinsBetweenCalls` | src/network/listener.cpp:202-216 | A client that joins between sequential calls, seeded with the book, holds every later snapshot. |
| `MarketData.ReplicaIsCurrent` | src/engine/matching_engine.cpp:248-332 | After a publication of a book's depth, suppressed or not, it holds that depth. |
| `MarketData.ReplicaDeterminesDepth` | src/engine/matching_engine.cpp:248-332 | What it holds determines the sorted depth lists themselves. |
| `MarketData.SortedDepthIsItsMap` | src/engine/order_book.cpp:108-130 | A sorted depth list is determined by the quantities it gives to prices. |
| `MarketData.FeedInOrder` | src/engine/matching_engine.cpp:252-325 | Messages have strictly increasing numbers, start with a snapshot, and each increment points at the message before it. |
| `MarketData.EmittedBy` | src/engine/matching_engine.cpp:252-254 | A message was sent by the publication whose number it carries. |
| `MarketData.GapMeansSuppressed` | src/engine/matching_engine.cpp:316-318 | An increment announces a gap if and only if publications since the previous message found nothing to send. |
| `MarketData.HistoryIsLastThousand` | src/engine/matching_engine.cpp:398-411 | The history is the last thousand stamped trades, numbered without a hole. |
| `MarketData.RecentTradesAreTheLatest` | src/engine/matching_engine.cpp:204-218 | Reading the tail of the history reads the tail of all trades. |
| `MarketData.RecentTrades` | src/engine/matching_engine.cpp:211-217 | The loop returns the last `count` entries, oldest first. |
| `Masking.MaskIsMod` | include/utils/ring_buffer.h:17 | Masking with Size - 1 is the remainder by a power of two. |
| `SpscRing.StepKeepsInv` | include/utils/ring_buffer.h:15-38 | Every single load, slot access and index store of either thread keeps the invariant, with stale reads of the other index and slots that are undefined while written. |
| `SpscRing.FifoUnderEveryInterleaving` | include/utils/ring_buffer.h:15-38 | In every execution the popped items are a prefix of the pushed ones, at most Size - 1 are held, and no slot is read while it is written. |
| `SpscRing.PushSeesFullness` | include/utils/ring_buffer.h:19-21 | A push fails exactly when the tail value it loaded shows Size - 1 items; the buffer itself was full at that load only if the value was current. |
| `SpscRing.PopSeesEmptiness` | include/utils/ring_buffer.h:31-33 | A pop fails exactly when the head value it loaded shows no item. |
| `SpscRing.NeverBlocked` | include/utils/ring_buffer.h:15-38 | In every reachable state both threads can take their next step. |
| `Rings.RingBuffer.Push` | include/utils/ring_buffer.h:15-26 | Appends to the queue unless Size - 1 items are held. |
| `Rings.RingBuffer.Pop` | include/utils/ring_buffer.h:28-38 | Takes the oldest item, or fails exactly on an empty queue. |
| `Rings.RingBuffer.Empty` | include/utils/ring_buffer.h:40-43 | Equal indices mean an empty queue. |
| `Rings.RingBuffer.Size` | include/utils/ring_buffer.h:45-49 | The masked wrapped difference is the number of items held. |
| `Rings.MaskedDistance` | include/utils/ring_buffer.h:48 | Unsigned 64-bit wrap-around of head - tail disappears under the mask. |
| `TokenBucket.LevelIsTightestWindow` | include/utils/rate_limiter.h:45-58 | After each refill the level is the minimum over all earlier refills of burst plus rate times elapsed time minus grants since. |
| `TokenBucket.GrantedSinceIs` | include/utils/rate_limiter.h:29-32 | What counts as granted since: the tokens of the granted requests. |
| `TokenBucket.NeverNegative` | include/utils/rate_limiter.h:25-37 | The level stays between zero and the burst size. |
| `TokenBucket.WindowBound` | include/utils/rate_limiter.h:25-58 | Every window grants at most burst plus rate times length. |
| `TokenBucket.GrantedIffNoWindowBreaks` | include/utils/rate_limiter.h:29-36 | A request is granted if and only if granting it keeps every window within its bound. |
| `TokenBucket.RefusedLeavesNoTrace` | include/utils/rate_limiter.h:35-36 | Deleting a refused request from the history changes no later level or decision. |
| `TokenBucket.AllRefusedLeaveNoTrace` | include/utils/rate_limiter.h:25-37 | Delete every refused request: every granted one is still granted, from the same level and leaving the same level, at the place it then has. |
| `TokenBucket.KeptAreGranted` | include/utils/rate_limiter.h:25-37 | And in what remains nothing is refused. |
| `TokenBucket.RateLimiter.constructor` | include/utils/rate_limiter.h:21-23 | A full bucket at the construction time. |
| `TokenBucket.RateLimiter.TryConsume` | include/utils/rate_limiter.h:25-37 | Refills by rate times elapsed time up to the burst, grants if and only if that covers the request, and takes the tokens then; decides as the history prescribes. |
| `TokenBucket.RateLimiter.RefillTokens` | include/utils/rate_limiter.h:45-58 | The tokens grow by rate times elapsed time, up to the burst. |
| `TokenBucket.RateLimiterManager.AddSymbol` | include/utils/rate_limiter.h:75-83 | Creates a limiter once; an existing one is kept with its limits and history. |
| `TokenBucket.RateLimiterManager.TryAcceptOrder` | include/utils/rate_limiter.h:85-96 | Decides by the symbol's own limiter, created with burst 200 and rate 100 on first use; other symbols are untouched. |
| `Persistence.ToJson` | src/engine/order_book.cpp:228-272 | The JSON value lists every level with its total and its orders in queue order. |
| `Persistence.FromJson` | src/engine/order_book.cpp:274-321 | Loading a value that describes a book gives a consistent heap book, index included, with that content. |
| `Persistence.RoundTrip` | src/engine/order_book.cpp:228-321 | Loading what was saved restores levels, queues and totals if and only if every order carries the book's symbol, because symbols of orders are not saved. |
| `Persistence.SavedBooksLoad` | src/engine/order_book.cpp:228-321 | A saved consistent book can be loaded and has the same reference book again. |
| `Persistence.RunBooksRoundTrip` | src/engine/matching_engine.cpp:567-607 | In every state of every run every book meets that condition. |
| `Engine.MatchingEngine.SaveState` | src/engine/matching_engine.cpp:567-585 | Whatever order the books are visited in, every book's file describes that book, and files of other symbols are left alone. |
| `Engine.MatchingEngine.LoadState` | src/engine/matching_engine.cpp:587-607 | Whatever order the files are visited in, each replaces the book of its symbol, new objects and index included; other books and the pending triggers stay; the engine is sound afterwards if and only if `Loads` held. |
| `SavedState.LoadKeepsExactly` | src/engine/matching_engine.cpp:587-607 | A sound engine stays sound if and only if the saved books are sound among themselves and none of their ids is pending or rests in a book that stays. |
| `SavedState.CanGoBack` | src/engine/matching_engine.cpp:567-607 | An engine can go back to books it once had, after any run that submits none of their ids again. |
| `SavedState.LoadBreaksApart` | src/engine/matching_engine.cpp:587-607 | A run in which an id is saved resting, cancelled and submitted as a trigger; after loading it both rests and waits. |
| `SavedState.EmptyLoads` | src/engine/matching_engine.cpp:587-607 | An empty engine can load the books of any sound one; its pending triggers come back if and only if it had none. |
| `Engine.Restart` | tests/unit/test_persistence.cpp:7-23 | Saving one engine and loading a new one gives a sound engine with exactly the books of the first. |
| `SavedBooks.BothRunAlike` | src/engine/order_book.cpp:228-321 | Any sequence of operations on a heap book and on its saved and loaded copy makes the same trades and leads to the same book. |
| `SavedBooks.RunOps` | src/engine/order_book.cpp:10-226 | Trades and final book of a sequence of operations depend on the reference book only. |
| `Persistence.SaveCompact` | include/engine/persistence.h:24-30 | The compact value is the first hundred levels per side. |
| `Persistence.LoadCompact` | include/engine/persistence.h:49-71 | Loading it gives a consistent book of one LIMIT order per level, with the level's price and quantity and an invented id. |
| `Persistence.CompactKeepsDepth` | include/engine/persistence.h:16-76 | The reloaded side has the first hundred levels of depth, and the whole depth if and only if there were no more. |
| `Persistence.CompactKeepsSweeps` | include/engine/persistence.h:16-76 | On a side of at most a hundred levels a MARKET or IOC order trades the same quantity at each price on both books. |

## Left out

- Listener and session code, JSON text, files and directories: log entries and saved books are datatypes, and malformed input is not modelled.
- Floating point: rounding of prices, quantities, fees and tokens.
- Timestamps and trade-id strings; `fromJson` does not restore timestamps.
- 64-bit wrap-around of sequence numbers, and of every counter except the ring buffer's indices.
- Metrics, logging, latency trackers and object pools.
- Best bid and ask fields of published messages: they equal the first depth entries, as `GetMarketData` proves of a snapshot.
- Subscriber callbacks: the model records the messages they are given, not what they do.
- The file system under `saveState` and `loadState`: a directory is a map from symbols to saved books, and failures of files are not modelled.
- Engine.MatchingEngine.LoadState: asks that each file describes a well-formed book, as FromJson does.
- Opening and closing of files in `startWAL` and `stopWAL`, and their failures.
- Trades of activated triggers: the source discards them, so no claim says that the trade feed holds every execution.
- Freshness of concurrent publications: the depth is read in one critical section and published in another, so only the sequential calls promise the current depth.
- Weak memory orders of the ring buffer beyond a release store that is seen by an acquire load: loads return the current or an older value of the other thread's index.
- Engine.MatchingEngine.SubmitOrder: describes the call when no other thread comes in between, as do CancelOrder and ModifyOrder; the steps it consists of are proved for every interleaving.
- Engine.MatchingEngine.ReplayWAL: asks that entries fit, which `SoundExactlyIfFits` proves to be exactly when the engine stays sound throughout; what a broken engine does next is not described.
- Engine.MatchingEngine.ReplayOne: the same for one entry.
- Engine.MatchingEngine.SubmitMissing: an order that would come to rest must rest in no other book, which is part of the same condition.
- Matching.MatchingAlgorithm.ProcessOrder: the taker's id does not rest in the book, as `submitOrder` and replay arrange; `ExecuteTrade` says what a trade does when it does rest.
- Persistence.FromJson: loads values that describe a well-formed book, as saved books do; other JSON is accepted by the source without any test.
- Persistence.LoadCompact: as for FromJson, the levels must be ranked and positive.
- TokenBucket.RateLimiterManager.TryAcceptOrder: the singleton and its mutex are left out; each call is one step.

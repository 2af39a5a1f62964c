# A verified model of the exchange core

The repository is a trading exchange simulator: price-time matching on per-symbol order
books, an exchange that routes orders to them, a lock-free queue that feeds it, a risk
engine in front of it, a market maker trading on it, profit accounting for agents, and a
reader for a framed binary order feed. This project models that core and proves what it is
for.

The model has two layers.

* **Values.** A side of a book is one sequence of orders in (price, arrival) order. `Sweep`
  says how an incoming order (the taker) consumes the front of the opposite side,
  `BookSpec` how one book is submitted to, cancelled in and modified, `ExchangeSpec` how
  many books, the global id index, the trade tape and the statistics evolve together.
* **Objects.** `PriceLevels`, `LevelMaps`, `OrderBooks`, `MatchingEngines` and `Exchanges`
  are classes with the fields of the source: shared order objects, FIFO queues with running
  totals, sorted maps of levels, the id index, engine counters, the lazily cleaned global
  index. Every public method is proved to do to the objects exactly what the function of
  the value layer does to the value they represent (`View()`), including the deletion of
  emptied levels and of index entries.

The laws are then proved about the value layer, for all runs, and hold of the objects by
that refinement: books are never crossed; at one price the earlier arrival is matched first;
a fill-or-kill order is all or nothing; the aggressor pays the least (receives the most)
possible; shares and cash are conserved; cancels reach exactly the resting orders despite stale index entries; symbols do not
influence each other. On top of them stand the composed results: the risk engine's limits
hold after every single report of every run, the market maker's position never passes its
limit plus one quote less one share (and can reach it), and an exchange fed through the
ring behaves like a replay of the pushed orders merged with its own operations, in every
interleaving of the two threads. `RiskDesk` and `MakerDesk` carry the two client protocols out
on the objects and are proved to do what the composed systems specify.

The functions that the objects refine are pinned down in turn by laws stated without them: what a
modification asks for is what trades and rests, a market order sweeps everything, reports carry
the tape's own prices, an order within its limit is approved, and each number is read from its
bytes of the wire.

Orders come in as callers hand them over: prices are `real`, an order's id is not already
resting when it is submitted, and it is not filled beyond its quantity. Nothing else is
asked: unknown symbols, zero quantities, unknown ids and all order types and times in force
are handled as the code handles them. The two mirrored halves of each matching loop (buy
and sell, limit and market) are one loop over the opposite side here. The two reports of
one fill are delivered to a subscriber that only records them.

## Where the code and its promises differ

* A fill-or-kill order can be killed although there is enough to fill it: level totals are
  cut to 32 bits in the scan. `BookSpec.FokSpuriousKill` gives a well-formed book on which this
  happens, `ExchangeSpec.FokKillReached` a run that leads to it, and
  `BookSpec.FokScanExactWhen` says exactly for which books the scan is right. An accepted
  fill-or-kill order is always filled, with no bound.
* The market maker's quotes are meant never to cross, but raising a non-positive bid to one
  cent happens after the check. `MarketMakers.QuotesCrossWhen` says exactly when they do,
  `MarketMakers.QuotesMeet` gives a case with the default settings.
* `cancel_order` is documented to mark the order cancelled (src/matching/matching_engine.h:36).
  The code writes to no order object: the cancelled one stays new or partially filled, as the
  contracts of `CancelOrder` state for the book, the engine and the exchange.
* The reader's comment says an add-order message has 36 bytes; the packed structure has 37,
  and the model uses 37. Symbols of 8 characters are cut to 7
  (`ItchParser.SymbolReadBackWhen`). The reader loses every order of a stream if and only if its
  length fields lead to a frame of length zero (`ItchParser.ThrowsWhen`).
* Order ids are meant to be globally unique. The shift drops the upper half of the trader's id,
  and a counter of more than 32 bits runs into the lower half. With 32-bit
  counters `TradingAgents.TradersApartWhen` says exactly which traders never share an id; with
  larger ones any two traders may (`TradingAgents.AnyTradersMeet`). `TradingAgents.OrderIdsCollide`
  gives two traders, and two counters of one trader, that make the same id.
* Profit is not accounted for when inventory is sold short.
  `TradingAgents.SaleShownRightWhen` says exactly which sales keep the profit shown right,
  `TradingAgents.ShortSaleMisshown` gives one that does not. A purchase that turns a short
  position long charges all its shares to those left over (`TradingAgents.PurchaseAverages`).
* The global order index is meant to forget orders that no longer rest, and keeps some of them.
  `GlobalIndex.ExactWhen` says exactly which operations leave a stale entry,
  `GlobalIndex.ExactThroughoutWhen` in which runs there is none, and `GlobalIndex.StaleEntry`
  gives a run that leaves one. The index always knows every resting order with its symbol, and
  cancels and modifications are right in spite of stale entries.

## Model

| member | source | states |
|---|---|---|
| Sweep.MatchShape | src/matching/matching_engine.cpp:69-153 | a sweep consumes a prefix of the opposite side, fills at most one further order in part, touches no other, conserves the taker's shares, and stops only when the taker is filled or the next price is out of reach |
| Sweep.NothingInReach | src/matching/matching_engine.cpp:77-78 | when a sweep stops with shares left, no resting price at all is within the taker's limit |
| Sweep.MarketSweepsAll | src/matching/matching_engine.cpp:123-153 | a market order of either side, whatever its price field says, stops only when it is filled or the opposite side is empty |
| Sweep.TradeParties | src/matching/matching_engine.cpp:190-277 | each trade of a sweep names the taker and one order that was there, is at that order's price, and for a limit order is at the limit or better |
| Sweep.LimitExhausted | src/matching/matching_engine.cpp:69-121 | a limit order left with shares leaves no order at a price it could have traded at |
| Sweep.MatchFillsWhatItCan | src/matching/matching_engine.cpp:61-63 | a sweep leaves unfilled exactly what is wanted beyond the reachable liquidity |
| Sweep.MatchConsumes | src/matching/matching_engine.cpp:80-89 | what a sweep does to the book depends only on the number of shares it takes |
| Sweep.MatchClosedForm | src/matching/matching_engine.cpp:69-153 | the double loop equals its closed form: the smaller of wanted and reachable, taken off the front |
| Sweep.SharesMove | src/matching/matching_engine.cpp:200-210 | for every resting order, what trades took from it is what its unfilled quantity lost |
| Sweep.SplitLaw | src/matching/matching_engine.cpp:69-153 | one order for a+b shares leaves the same opposite side, per-order takes and remainder as one for a followed by one for b |
| BestExecution.GreedyIsLeast | src/matching/matching_engine.cpp:72-73 | exchange argument: taking from the front costs no more than any other way of taking as many shares |
| BestExecution.BuyerPaysLeast | src/matching/matching_engine.cpp:69-90 | a buyer who executes q shares pays no more than any way of taking q shares from the resting asks |
| BestExecution.SellerGetsMost | src/matching/matching_engine.cpp:91-110 | a seller who executes q shares receives no less than any way of taking q shares from the resting bids |
| BestExecution.SweepIsFeasible | src/matching/matching_engine.cpp:176-198 | the sweep's own payment is that of one feasible way, so both bounds are attained |
| BookSpec.InsertAt | src/orderbook/order_book.cpp:20-37 | a rested order stands behind everything at its price or better and moves nothing else |
| BookSpec.RemovedAt | src/orderbook/order_book.h:54-63 | a removed order's successors close up, everything else keeps its place |
| BookSpec.RemainderMayRest | src/matching/matching_engine.cpp:40-47 | a limit remainder rested after its sweep leaves the book well formed and uncrossed |
| BookSpec.SubmitKeepsWellFormed | src/matching/matching_engine.cpp:19-49 | submitting any order of any type and time in force keeps a book sorted, free of duplicates and uncrossed |
| BookSpec.CancelKeepsWellFormed | src/orderbook/order_book.cpp:51-78 | cancelling keeps a book well formed and the id no longer rests |
| BookSpec.ModifyKeepsWellFormed | src/exchange/exchange.cpp:89-158 | all three kinds of modification keep a book well formed |
| BookSpec.ScanIff | src/matching/matching_engine.cpp:156-174 | the fill-or-kill scan accepts exactly when the truncated totals within reach cover the quantity |
| BookSpec.ScanCovers | src/matching/matching_engine.cpp:160-172 | the scan counts every level for a market order and, for a limit order, the levels up to the first price beyond its limit |
| BookSpec.TruncationLoses | src/matching/matching_engine.cpp:163-169 | cutting totals to 32 bits loses nothing when every reachable total fits, and really loses, from a reach of at least 2^32, when one does not |
| BookSpec.ReachIsLiquidity | src/matching/matching_engine.cpp:160-172 | the sum of level totals within reach is the sum of the orders within reach |
| BookSpec.FokAllOrNothing | src/matching/matching_engine.cpp:23-48 | an accepted fill-or-kill order is filled completely; a rejected one changes nothing, trades nothing and is cancelled |
| BookSpec.FokScanExactWhen | src/matching/matching_engine.cpp:156-174 | the scan answers "is there enough" rightly for every 32-bit quantity if and only if reachable totals fit in 32 bits or still cover every quantity after the cut |
| BookSpec.FokSpuriousKill | src/matching/matching_engine.cpp:156-174 | two different orders of 2^31 shares rest at one price of a well-formed book: a fill-or-kill order for one share is killed, with no trade |
| ExchangeSpec.FokKillReached | src/matching/matching_engine.cpp:23-28 | a legal run from the empty exchange in which that happens |
| BookSpec.RestsAfterSubmit | src/matching/matching_engine.cpp:30-48 | after a submission nothing new rests but the order itself, and that one exactly when it is a good-till-cancelled limit order with shares left |
| BookSpec.SubmittedIsLast | src/orderbook/order_book.h:47-50 | a submitted order that rests is last at its price |
| BookSpec.SubmitConserves | src/matching/matching_engine.cpp:19-49 | shares of a submitted order trade or are left over, and nothing else becomes of them |
| BookSpec.FinalStatus | src/matching/matching_engine.cpp:19-49 | the status of a submitted order, read off its type, what is left of it and whether it traded |
| BookSpec.ReplacedIsLast | src/exchange/exchange.cpp:120-137 | after a price change or quantity increase a resting result is last at its price |
| BookSpec.ModifyResubmits | src/exchange/exchange.cpp:115-137 | after a price change or quantity increase the order submitted afresh has the price asked for, the quantity asked for and nothing filled |
| BookSpec.ModifyObeys | src/exchange/exchange.cpp:115-137 | what trades and what rests afterwards has that price and adds up to that quantity, and the order rests exactly when some of it is left |
| BookSpec.ModifySame | src/exchange/exchange.cpp:155 | asking for the price and quantity an order has changes nothing at all |
| BookSpec.RaiseNeverTrades | src/exchange/exchange.cpp:120-137 | on a well-formed book a quantity increase at the same price never trades and the order rests again |
| BookSpec.LowerKeepsPlace | src/exchange/exchange.cpp:139-153 | a quantity decrease keeps every queue position and every other order |
| BookSpec.CancelRemovesOnly | src/orderbook/order_book.cpp:51-78 | a cancel removes the order and leaves every other order resting unchanged |
| BookSpec.AddThenCancel | src/orderbook/order_book.cpp:20-78 | resting an order that reaches nothing and cancelling it restores the book |
| LevelSpec.AppendIsInsert | src/orderbook/order_book.cpp:27-29 | appending to an existing level is insertion in (price, arrival) order |
| LevelSpec.NewLevelIsInsert | src/orderbook/order_book.cpp:25-29 | so is creating a level at its place among the keys |
| LevelSpec.EraseEmpty | src/orderbook/order_book.cpp:62-64 | erasing an empty level changes neither the queue nor the order of levels |
| LevelSpec.LevelRemove | src/orderbook/order_book.h:54-63 | removing from a level is removing from the flat queue |
| LevelSpec.LevelFill | src/matching/matching_engine.cpp:227-243 | filling the front of the best level is filling the front of the queue |
| LevelSpec.LevelsOfFlatten | src/orderbook/order_book.cpp:85-105 | the level totals in key order are the grouped totals of the queue |
| BookSpec.LevelsAt | src/orderbook/order_book.cpp:85-105 | each level of a side shows the unfilled shares resting at its price, best price first and no price twice |
| BookSpec.LevelOf | src/orderbook/order_book.cpp:85-105 | every resting order's price has a level |
| PriceLevels.Order.Fill | src/matching/matching_engine.cpp:200-210 | filled quantity and status after a match |
| PriceLevels.PriceLevel.AddOrder | src/orderbook/order_book.h:47-50 | appends the order and raises the running total by what remains of it |
| PriceLevels.PriceLevel.RemoveOrder | src/orderbook/order_book.h:54-63 | removes the first order with the id and lowers the total by its remainder; false and no change without one |
| PriceLevels.PriceLevel.UpdateQty | src/orderbook/order_book.h:66-71 | moves the running total by a signed amount |
| PriceLevels.PriceLevel.FillFront | src/matching/matching_engine.cpp:206-243 | the front order gives up shares, the total follows, and the order leaves the queue once filled |
| LevelMaps.LevelMap.Add | src/orderbook/order_book.cpp:24-36 | finds or creates the level; the side's queue becomes the old one with the order inserted, totals and keys stay right |
| LevelMaps.LevelMap.Drop | src/orderbook/order_book.cpp:58-74 | removes the order, and its level when that was the last one, and writes to no order object |
| LevelMaps.LevelMap.FillFront | src/matching/matching_engine.cpp:212-243 | one fill at the best level, with the level's total updated |
| LevelMaps.LevelMap.Erase | src/matching/matching_engine.cpp:86-89 | erases an emptied level without touching the queue |
| LevelMaps.LevelMap.Reduce | src/exchange/exchange.cpp:139-153 | in-place quantity reduction with the level total following |
| LevelMaps.LevelMap.LevelTotals | src/orderbook/order_book.h:41-44 | running totals, best price first, are the totals of the queue |
| OrderBooks.OrderBook.AddLimitOrder | src/orderbook/order_book.cpp:20-37 | rests the order at its place and indexes it; the book's value changes by exactly that insertion |
| OrderBooks.OrderBook.CancelOrder | src/orderbook/order_book.cpp:51-78 | true exactly when the id rests, then removes it from queue, level map and index; every order object, the removed one too, is left as it was |
| OrderBooks.OrderBook.Depth | src/orderbook/order_book.cpp:85-105 | the first n (price, total) pairs of a side, best first |
| OrderBooks.OrderBook.FindOrder | src/exchange/exchange.cpp:93-112 | finds the resting object with the id through index, level and queue, exactly when one rests |
| OrderBooks.OrderBook.FillBest | src/matching/matching_engine.cpp:206-243 | matches the oldest order at the best price and un-indexes it once filled, the object itself staying right after it leaves the queue |
| OrderBooks.OrderBook.EraseBestIfEmpty | src/matching/matching_engine.cpp:86-89 | restores the invariant that no level is empty |
| OrderBooks.OrderBook.ReduceOrder | src/exchange/exchange.cpp:139-153 | lowers a resting order in place, keeping queue, total and index right |
| OrderBooks.OrderBook.TopOfBook | src/orderbook/order_book.h:112-125 | best bid and ask are the heads of the two queues, the mid price is half way between them and the spread their difference; in an uncrossed book the mid price lies strictly between them |
| OrderBooks.OrderBook.CountIsResting | src/orderbook/order_book.h:141-142 | the size of the index is the number of resting orders |
| MatchingEngines.FillSink.OnFill | src/exchange/exchange.cpp:11-17 | every report is counted once, with its quantity, and passed on |
| MatchingEngines.MatchingEngine.Publish | src/matching/matching_engine.cpp:245-276 | one execution id and two reports per trade; all counters stay functions of the trade tape, the exchange's twice the engine's |
| MatchingEngines.MatchingEngine.ExecuteFill | src/matching/matching_engine.cpp:190-277 | one fill at the resting order's price for the smaller remainder, on both order objects, level, index and counters |
| MatchingEngines.MatchingEngine.SweepLevel | src/matching/matching_engine.cpp:80-84 | the inner loop makes progress along the specified sweep and leaves the book valid |
| MatchingEngines.MatchingEngine.MatchOrder | src/matching/matching_engine.cpp:69-153 | both nested loops terminate having done exactly the specified sweep |
| MatchingEngines.MatchingEngine.CanFillCompletely | src/matching/matching_engine.cpp:156-174 | computes the specified scan of level totals |
| MatchingEngines.MatchingEngine.RestOrCancel | src/matching/matching_engine.cpp:40-47 | rests a good-till-cancelled remainder and cancels any other |
| MatchingEngines.MatchingEngine.SubmitOrder | src/matching/matching_engine.cpp:19-49 | book, order object and trades after a submission are those of the specification |
| MatchingEngines.MatchingEngine.CancelOrder | src/matching/matching_engine.cpp:52-54 | removes the order from the book; the object keeps its status, which is new or partially filled and never cancelled |
| Exchanges.Exchange.constructor | src/exchange/exchange.cpp:11-17 | an empty exchange represents the start state |
| Exchanges.Exchange.AddSymbol | src/exchange/exchange.cpp:20-24 | lists a symbol with an empty book, or refuses one already listed |
| Exchanges.Exchange.FindBookForOrder | src/exchange/exchange.cpp:172-178 | the book the global index names, if the id is known |
| Exchanges.Exchange.SubmitOrder | src/exchange/exchange.cpp:40-67 | books, global index, trades, statistics, order and result are exactly those of the specification |
| Exchanges.Exchange.CancelOrder | src/exchange/exchange.cpp:70-80 | likewise for a cancel, whatever stale entries the index holds; no order object is written to, so the cancelled one is not marked |
| Exchanges.Exchange.Replace | src/exchange/exchange.cpp:120-137 | cancel and resubmission of the same object equal the specified cancel followed by a fresh submit |
| Exchanges.Exchange.ModifyOrder | src/exchange/exchange.cpp:89-158 | likewise for all branches of a modification |
| ExchangeSpec.InvApply | src/exchange/exchange.cpp:20-158 | every operation keeps the invariant: books well formed and of their symbol, every resting order routed by the global index, fair trades |
| ExchangeSpec.InvRun | src/exchange/exchange.cpp:20-158 | so does every run |
| ExchangeSpec.TapeGrows | src/exchange/exchange.cpp:40-158 | the trade tape only ever grows, by the trades of each operation |
| ExchangeSpec.NeverCrossed | src/matching/matching_engine.cpp:37-48 | after every run of listings, submissions, cancels and modifications every bid is below every ask |
| ExchangeSpec.CancelRouting | src/exchange/exchange.cpp:70-80 | a cancel succeeds exactly when the id rests in some book and removes that order only |
| ExchangeSpec.ModifyOutcome | src/exchange/exchange.cpp:89-158 | a modification succeeds exactly when the id rests in some book and shares are asked for; otherwise nothing changes, and no other book ever does |
| ExchangeSpec.SubmitOutcome | src/exchange/exchange.cpp:40-67 | a submission succeeds exactly when its symbol is listed; otherwise the order is rejected and books, index and tape stay; no other book ever changes |
| ExchangeSpec.AddSymbolOutcome | src/exchange/exchange.cpp:20-24 | a listing succeeds exactly when the symbol is new, which then has an empty book, and nothing else changes |
| ExchangeSpec.OpCounts | src/exchange/exchange.cpp:40-158 | what each operation adds to each statistic, in terms of listed symbols, resting orders and what a modification asks for |
| ExchangeSpec.ModifyIsCancelAndSubmit | src/exchange/exchange.cpp:120-137 | a price change or quantity increase has the books and trades of a cancel followed by a fresh submit under the same id; the global index differs at most by a stale entry of a filled order |
| ExchangeSpec.RestsAfterModify | src/exchange/exchange.cpp:89-158 | a modification lets no other order into the book |
| GlobalIndex.ExactWhen | src/exchange/exchange.cpp:53-64 | from an exact index, an operation leaves a stale entry if and only if it uses up a resting order, or is a limit order that neither rests nor is filled, or a replacement that trades; the condition reads off the state before |
| GlobalIndex.SubmitExact | src/exchange/exchange.cpp:53-64 | the same for a submission |
| GlobalIndex.ModifyExact | src/exchange/exchange.cpp:120-137 | the same for a modification |
| GlobalIndex.CancelExact | src/exchange/exchange.cpp:70-80 | a cancel never leaves one |
| GlobalIndex.ExactThroughoutWhen | src/exchange/exchange.cpp:40-158 | in a run from the start the index is exact all along if and only if every operation keeps it so |
| GlobalIndex.StaleEntry | src/exchange/exchange.cpp:60-64 | a run after which a filled resting order still has its entry |
| TimePriority.EarlierFirst | src/matching/matching_engine.cpp:80-84 | within a sweep a trade takes from an order only after everything of each order in front of it has been taken |
| TimePriority.OpAhead | src/exchange/exchange.cpp:20-158 | an operation that does not displace them keeps two orders at one price in their order, and trades nothing from the later one while the earlier one still rests |
| TimePriority.ArrivesBehind | src/orderbook/order_book.h:46-50 | an order that comes to rest stands behind those already there at its price |
| TimePriority.AheadRun | src/exchange/exchange.cpp:20-158 | the same over whole runs |
| TimePriority.FirstComeFirstServed | src/matching/matching_engine.h:9-12 | in every legal run from the start, a later arrival stays behind an earlier one at its price and is traded from only after the earlier one is used up, unless their owners give up a place |
| SymbolIsolation.ProjectedRun | src/exchange/exchange.cpp:40-178 | a run and its projection to one symbol stay in agreement on that symbol's book and trades |
| SymbolIsolation.Isolation | src/exchange/exchange.cpp:40-178 | a symbol's book after any run, and its trades, are those of that symbol's operations alone |
| Conservation.TapeBalances | src/matching/matching_engine.cpp:245-276 | over all reports net shares and net cash are zero and each share is reported twice |
| Conservation.ReportAt | src/matching/matching_engine.cpp:247-268 | the reports of a trade follow each other and carry its execution id |
| Conservation.RunConserves | src/matching/matching_engine.cpp:190-277 | in every run an execution id labels exactly two reports, equal in price, quantity and incoming order and opposite in side, and the balances hold |
| Conservation.ReportsTellTheTape | src/matching/matching_engine.cpp:247-268 | in every run the two reports of a trade carry its price, quantity, symbol and number, and each the order, trader and side of its own party |
| Conservation.RunMoney | src/matching/matching_engine.cpp:247-276 | in every run the buyers' reports alone, and the sellers' alone, add up to the value traded, and each trader's reports to the cash the tape holds for that trader |
| Conservation.ValueBounds | src/matching/matching_engine.cpp:270-272 | money traded lies between volume at the lowest and at the highest price |
| Conservation.VwapWithinPrices | src/matching/matching_engine.h:43-45 | the average price lies between the lowest and the highest traded price |
| Conservation.VwapTimesVolume | src/matching/matching_engine.h:43-45 | the average price times the volume is the value traded; it is zero before the first trade |
| SpscQueues.StepKeepsInv | src/utils/spsc_queue.h:31-65 | every atomic step of either thread keeps the ring's invariant |
| SpscQueues.Linearizable | src/utils/spsc_queue.h:31-65 | in every interleaving the calls answer like a bounded first-in first-out queue, pops are a prefix of pushes, at most capacity-1 items are in flight |
| SpscQueues.NoRace | src/utils/spsc_queue.h:41-63 | the slot about to be written is never the slot about to be read, and both are in range |
| SpscQueues.SPSCQueue.LoadTail | src/utils/spsc_queue.h:31-33 | the object's step is the protocol's step: tail loaded |
| SpscQueues.SPSCQueue.CheckFull | src/utils/spsc_queue.h:35-39 | head loaded and compared |
| SpscQueues.SPSCQueue.WriteSlot | src/utils/spsc_queue.h:41 | item written |
| SpscQueues.SPSCQueue.StoreTail | src/utils/spsc_queue.h:43-46 | tail stored |
| SpscQueues.SPSCQueue.LoadHead | src/utils/spsc_queue.h:50-51 | head loaded |
| SpscQueues.SPSCQueue.CheckEmpty | src/utils/spsc_queue.h:53-57 | tail loaded and compared |
| SpscQueues.SPSCQueue.ReadSlot | src/utils/spsc_queue.h:59 | item copied out |
| SpscQueues.SPSCQueue.StoreHead | src/utils/spsc_queue.h:61-64 | head stored |
| SpscQueues.SPSCQueue.Push | src/utils/spsc_queue.h:31-47 | an undisturbed push appends unless capacity-1 items are queued |
| SpscQueues.SPSCQueue.Pop | src/utils/spsc_queue.h:50-65 | an undisturbed pop takes the oldest item unless none is queued |
| QueueFeed.FedLikeReplay | src/networking/mercury_server.cpp:43-58 | an exchange fed from the ring, which also performs operations of its own between pops, is where a merge of a prefix of the pushed orders, in push order, with all its own operations leads; once the ring is drained the prefix is everything |
| TraderShares.SweepShares | src/matching/matching_engine.cpp:196-210 | per trader and side, what a sweep removes is what was traded |
| TraderShares.SubmitShares | src/matching/matching_engine.cpp:19-49 | per trader and side, what was open or submitted is still open, traded, or dropped |
| RiskEngines.RiskEngine.SetLimits | src/risk/risk_engine.h:48-50 | replaces the limits of one trader and symbol |
| RiskEngines.RiskEngine.CheckOrder | src/risk/risk_engine.h:55-90 | approves if and only if position, open quantity and order stay within the limit of the order's side, and then books the exposure; otherwise rejects and books nothing |
| RiskEngines.RiskEngine.OnFill | src/risk/risk_engine.h:94-115 | moves a fill of a tracked order from open quantity to position |
| RiskEngines.RiskEngine.OnCancel | src/risk/risk_engine.h:118-129 | releases what is left of a tracked order |
| RiskEngines.ApprovedWhen | src/risk/risk_engine.h:55-90 | an order is approved if and only if position, open quantity and order fit the limit of its side; approval opens that quantity there and nowhere else |
| RiskEngines.DefaultLimits | src/risk/risk_engine.h:33-36 | nothing set and nothing traded, an order of either side is approved if and only if it is for at most 1000 shares |
| RiskEngines.FillMoves | src/risk/risk_engine.h:94-108 | shares of a tracked fill go from the open quantity of its side to the position, of one trader in one symbol; untracked ones are ignored |
| RiskEngines.FillTracks | src/risk/risk_engine.h:110-113 | the tracked rest of the order shrinks by the fill and is dropped at zero; a larger fill wraps around in 32 bits |
| RiskEngines.ReleaseCloses | src/risk/risk_engine.h:118-129 | a release takes the tracked rest off the open quantity of its side, trader and symbol, once |
| RiskRuns.OneFill | src/risk/risk_engine.h:94-115 | one covered report keeps every trader within limits and moves exactly one state |
| RiskRuns.OneTrade | src/matching/matching_engine.cpp:245-276 | both reports of a trade keep every trader within limits, between them too, self-trades included |
| RiskRuns.SweepTracked | src/risk/risk_engine.h:94-115 | along a whole sweep, report by report, limits hold, open quantities follow the book and positions the trades |
| RiskSystem.StepKeeps | src/risk/risk_engine.h:55-129 | each step of the protocol keeps engine and exchange in step, changes no limit, and is safe throughout |
| RiskSystem.RiskNeverExceeded | src/risk/risk_engine.h:14-25 | in every run, after every report, positions are within limits; open quantities are the unfilled resting shares; positions are the net of trades |
| RiskSystem.LetThroughExactlyWhen | src/risk/risk_engine.h:55-90 | in every run, an order is let through if and only if net traded shares, the trader's resting shares on its side and the order together fit the configured limit |
| RiskSystem.OnlyApprovedReach | src/risk/risk_engine.h:52-55 | an approved order is submitted, a refused one reaches no book and leaves all limits, positions and open quantities alone |
| RiskDesk.PassOn | src/risk/risk_engine.h:92-94 | every newly delivered report reaches the engine once, in order |
| RiskDesk.PlaceOrder | src/risk/risk_engine.h:21-24 | check, submission, reports and release, done on the objects, are the specified step, which keeps the invariant |
| RiskDesk.Withdraw | src/risk/risk_engine.h:117-129 | cancel and release on the objects are the specified step |
| TradingAgents.MarkToMarket | src/traders/trading_agent.h:61-122 | total profit equals cash received plus inventory at mid, for fills that never take the inventory below zero |
| TradingAgents.SaleShownRightWhen | src/traders/trading_agent.h:104-122 | a sale keeps the shown profit right at every mid price if and only if it is covered by inventory or made at average cost |
| TradingAgents.ShortSaleMisshown | src/traders/trading_agent.h:61-68 | one share sold short at 5 has gained 1 at mid 4, and nothing is shown |
| TradingAgents.PurchaseAverages | src/traders/trading_agent.h:107-112 | after a purchase the shares held cost, in all, what was held before plus all that was paid; nothing is realised |
| TradingAgents.SaleRealises | src/traders/trading_agent.h:113-121 | a sale realises price less average cost on each share that was held, and leaves the average cost as it was |
| TradingAgents.DrawdownIsLargestFall | src/traders/trading_agent.h:90-99 | the one-pass drawdown is the largest fall between any two samples in order, and the step returns add up to the last sample |
| TradingAgents.StepsAreChanges | src/traders/trading_agent.h:91-94 | each recorded return is the difference of two samples in a row |
| TradingAgents.OrderIdsDiffer | src/traders/trading_agent.h:124-130 | ids made by 32-bit counters agree if and only if the counters and the lower halves of the traders do |
| TradingAgents.OrBits | src/traders/trading_agent.h:129 | the bitwise or, digit by digit |
| TradingAgents.TradersApartWhen | src/traders/trading_agent.h:124-130 | with 32-bit counters, two traders never share an id if and only if the lower halves of their ids differ |
| TradingAgents.AnyTradersMeet | src/traders/trading_agent.h:127-130 | with larger counters any two traders have counters that make the same id |
| TradingAgents.OrderIdsCollide | src/traders/trading_agent.h:127-130 | traders 1 and 2^32+1 make the same ids, and so do counters n and 2^32+n of trader 1 |
| TradingAgents.TradingAgent.RecordFill | src/traders/trading_agent.h:104-122 | inventory, average cost, realised profit and counters after a fill |
| TradingAgents.TradingAgent.RecordPnlSample | src/traders/trading_agent.h:90-99 | peak, drawdown, last sample and step return after a sample |
| TradingAgents.TradingAgent.NextOrderId | src/traders/trading_agent.h:127-130 | the next counter, or-ed with the shifted trader in 64 bits, for every trader and counter |
| MarketMakers.QuotesCrossWhen | src/traders/market_maker.h:71-85 | at a positive mid price the quotes cross if and only if the rounded ask is a cent or less and above the rounded bid |
| MarketMakers.QuotesMeet | src/traders/market_maker.h:81-85 | with default settings, mid 0.01 and 499 shares held, both quotes are one cent |
| MarketMakers.NearestCent | src/traders/market_maker.h:76-78 | prices are rounded to the nearest whole cent, ties away from zero |
| MarketMakers.SkewLeans | src/traders/market_maker.h:68-71 | a hundred shares held lower both quotes by the skew factor, a hundred shares owed raise them by it |
| MarketMakers.QuotesAroundSkewedMid | src/traders/market_maker.h:68-85 | both quotes are within half a cent of the skewed mid price less, or plus, the half spread; a bid that would not be positive is one cent |
| MarketMakers.MeetingQuotesPartAtMid | src/traders/market_maker.h:80-85 | quotes that would meet are put a cent to either side of the mid price |
| MarketMakers.DefaultQuotes | src/traders/market_maker.h:36-43 | with default settings, any mid price in cents and any number of lots held: five cents to either side, less a cent a lot |
| MarketMakers.QuotesWithinLimit | src/traders/market_maker.h:87-121 | a bid is posted if and only if inventory is below the limit and an ask if and only if it is above its negative, each with its side's price, the configured quantity and the next id |
| MarketMakers.TickOutcome | src/traders/market_maker.h:53-66 | no tick without a positive mid price; otherwise the profit is sampled and no old quote rests anywhere afterwards |
| MarketMakers.MarketMaker.PriceQuotes | src/traders/market_maker.h:68-85 | skew, rounding to cents and both corrections as in the code |
| MarketMakers.MarketMaker.WithdrawQuotes | src/traders/market_maker.h:58-66 | both live quotes are cancelled in the exchange and forgotten |
| MarketMakers.MarketMaker.Requote | src/traders/market_maker.h:87-123 | new quotes for the sides not at their limit, with fresh ids remembered as live |
| MarketMakers.MarketMaker.OnTick | src/traders/market_maker.h:51-124 | maker, exchange and returned quotes after a tick are those of the specification; without a mid price nothing happens |
| MarketMakers.MarketMaker.OnFill | src/traders/market_maker.h:126-130 | a fill goes to the account and leaves the live ids alone |
| MakerRuns.OpShares | src/exchange/exchange.cpp:40-158 | over any operation of anybody, the maker's open and newly traded shares come out of what it had open and put up |
| MakerRuns.HeardNet | src/traders/trading_agent.h:104-122 | the inventory moves by shares bought less shares sold in the reports addressed to the maker |
| MakerRuns.HearCovered | src/traders/market_maker.h:126-130 | inventory with live and pending bids (asks) stays within the limit, after every prefix of the reports |
| MakerRuns.HearBooked | src/traders/market_maker.h:126-130 | the inventory keeps in step with the trade tape |
| MakerRuns.TickKeeps | src/traders/market_maker.h:51-124 | a tick leaves at most one live quote per side and both within the limit |
| MakerRuns.DeskRun | src/traders/market_maker.h:51-130 | the bound is an invariant of every run |
| MakerRuns.PositionBounded | src/traders/market_maker.h:51-130 | in every run, whatever the prices and other traders do and after every report, the position is within position limit plus one quote less one share, long and short, and equals what the trade tape says was bought less sold |
| MakerRuns.BoundIsMet | src/traders/market_maker.h:89-104 | a run that ends exactly at the bound |
| MakerDesk.PassOn | tests/stage4_test.cpp:145-148 | newly delivered reports reach the maker once, in order, if addressed to it |
| MakerDesk.SubmitAndTell | tests/stage4_test.cpp:177-180 | anybody's order, submitted and reported on the objects, is the specified move |
| MakerDesk.ModifyAndTell | src/exchange/exchange.cpp:89-158 | so is anybody's modification |
| MakerDesk.Turn | src/networking/mercury_server.cpp:45-46 | a tick and the submission of its quotes on the objects are the specified moves and keep the position bound |
| ByteOrder.SwappedLoadIsBigEndian | src/replay/itch_parser.h:24-40 | swapping a little-endian load gives the big-endian value |
| ByteOrder.SwapStoreLoadSwap | src/replay/itch_parser.h:24-40 | swapping and storing is undone by loading and swapping |
| ItchParser.ReadFrame | src/replay/itch_parser.h:71-82 | one frame read from the stream, the end of the stream, or the exception |
| ItchParser.ParseFile | src/replay/itch_parser.h:62-116 | the reading loop computes the parse of the byte stream |
| ItchParser.SymbolReadBackWhen | src/replay/itch_parser.h:103-109 | a symbol is read back unchanged if and only if it has at most 7 bytes and no space |
| ItchParser.ParseFrame | src/replay/itch_parser.h:71-112 | a written frame at the head of a stream yields its order, then the rest is read |
| ItchParser.TruncatedRoundTrip | src/replay/itch_parser.h:70-82 | any prefix of a written stream reads back as exactly the orders of its complete frames |
| ItchParser.RoundTrip | src/replay/itch_parser.h:62-116 | reading what was written gives ids, timestamps, sides, quantities, symbols and prices back in order |
| ItchParser.ReadBack | src/replay/itch_parser.h:84-112 | the order read for each written one, field by field; its price times 10000 is the number written |
| ItchParser.PayloadOnWire | src/replay/itch_parser.h:45-56 | which bytes of an add-order payload hold which field, in big-endian order; 'B' is a buy; the price field counts ten-thousandths |
| ItchParser.MessageOnWire | src/replay/itch_parser.h:71-86 | what is read from the bytes at any place: an 'A' message of sufficient length is an order, others are skipped, a cut one ends the stream, one of length zero throws |
| ItchParser.SymbolText | src/replay/itch_parser.h:103-109 | for any eight bytes, the symbol is the text before the first space or zero byte, cut to seven characters |
| ItchParser.ThrowsWhen | src/replay/itch_parser.h:70-82 | for every byte string, the reader throws if and only if the length fields lead to a frame of length zero |
| ItchParser.ZeroLengthThrows | src/replay/itch_parser.h:81 | the input that shows it: any written frames followed by a frame of length zero |

## Left out

- Sockets, threads of the operating system and text input (src/networking): a single producer and unique order ids are assumptions here, not results.
- Memory ordering: the ring's steps interleave on one shared memory; that acquire and release make this view valid is not part of this model.
- Timestamps: they are never consulted for priority; restamping on modification has no counterpart.
- The object pool: orders are fresh objects, so stale fields of recycled orders are not modelled.
- Floating-point rounding, infinities and NaN: prices and profits are `real`.
- Wrap-around of 64-bit totals, counters and positions: they are unbounded here; the 32-bit cut of level totals and of exposure quantities and the 64-bit order ids are modelled.
- MakerRuns.PositionBounded: assumes that the maker's counter stays within 32 bits and that others do not use ids under the lower half of its trader id; beyond that ids collide, as shown above.
- The 8-byte limit on symbols outside the binary reader: symbols are strings of any length.
- Sorted maps are a key sequence in comparator order with a map from key to level; tree balancing is not modelled.
- A queue of capacity zero, on which the code divides by zero, and a negative quote quantity, which the code would wrap to a large one.
- Fill callbacks that call back into the exchange: subscribers only record, and the client methods pass reports on once the operation that caused them has returned.
- Modifications under the risk protocol: the engine has no call for them, so `RiskSystem` runs have none, and limits stay fixed during a run.
- The Sharpe ratio, the average captured spread and the total notional: display figures.
- The random, momentum and mean-reversion traders: their decisions are other traders' orders here.
- Frames of other types than add-order carry no meaning for the reader and are skipped; a first byte of 'A' on a shorter payload is skipped as in the code but not produced by the writer.
- Exchange listing queries and printing: `has_symbol`, `list_symbols`, `print_stats`.
- Latency, cache-line layout and the dashboards.

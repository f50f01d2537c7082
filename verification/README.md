# Verified model of the orderflow replay engine

A Dafny model of the C++ core of an exchange simulator: the price-time-priority matching engine, the
risk gateway with its position accounting, the submit path that joins the two, the binary journal and
the backtester's order tracking. `dafny verify dfyconfig.toml` checks all of it.

## How it is built

The matching engine exists twice. `FlatBook` is the reference: one flat list of resting orders in
arrival order, both sides together; each fill rescans the whole list for the best price and, at that
price, the earliest arrival. `OrderBooks.OrderBook` is the engine as programmed: two ordered maps of
price levels with FIFO queues and cached totals, an id index, order objects updated in place, a forward
iterator for buys and a re-fetched last level for sells. Every method of the class is proved to do to the
flat list what the reference operation does, so each theorem about the reference book is a theorem about
the class.

| files | content |
|---|---|
| `Types.dfy`, `FlatBook.dfy`, `BookInvariants.dfy` | value types, the reference book, what every operation keeps |
| `PriceLevels.dfy`, `OrderBook.dfy`, `WholeRuns.dfy` | the engine's data structures and its refinement of the reference book |
| `Matching.dfy`, `OperationEffects.dfy`, `Lifecycle.dfy`, `QueueEquivalence.dfy`, `CallbackLog.dfy`, `NoTrace.dfy`, `Mirror.dfy` | theorems about the book: priority, maximality, fill-or-kill, no crossing, what each operation changes and announces, conservation, queues as the whole state, callbacks, non-interference, symmetry |
| `Risk.dfy`, `RateLimit.dfy`, `RiskTheorems.dfy`, `RiskDecisions.dfy`, `FifoBasis.dfy` | the risk manager; the rate limit; profit and loss; its verdicts in terms of the history alone; the comparison with a first-in first-out ledger |
| `TakerFlow.dfy`, `SubmitProtocol.dfy`, `SubmitCash.dfy`, `BoundIsReached.dfy`, `Simulator.dfy`, `SimulatorRuns.dfy` | interleaved submitters as a state machine, the position bound and that it is tight, positions and profits against the books' trades, the simulator object and what it is asked over time |
| `Backtest.dfy`, `SignalEffects.dfy`, `BacktestProfit.dfy`, `Backtester.dfy` | signals and what each one does, the map of live orders, CANCEL_ALL, the tally and the profit of whole streams |
| `Bytes.dfy`, `Words.dfy`, `Crc.dfy`, `CrcTable.dfy`, `Journal.dfy`, `JournalEntries.dfy` | CRC-32 (section 8 of RFC 1952), record framing, reading back, the layouts of the public writers |

Modelling decisions:

- Clock readings are inputs. `check_order` reads the clock twice, once for the window and once for the
  stamp it records; the two readings are separate parameters.
- The two callbacks are an appended log, in the order in which the engine makes them.
- `Book.gone` keeps the last state of every order that has left a book. It is not stored by the engine
  and exists to state what happens to finished orders.
- Prices in dollars are reals; quantities and tick prices are unbounded integers.
- A caller owes the book an unused id, a positive quantity and nothing filled. The program's callers meet
  this: ids come from one counter (`src/core/simulator.hpp:71`) and the risk gateway rejects quantities
  that are not positive (`src/risk/risk_manager.cpp:26`).
- A hash map is walked in an arbitrary order, so results about walks hold for every order.

Where the code and its documentation or intent part ways, the model follows the code:

- The repository's README (line 162) calls the position accounting a first-in first-out cost basis. The
  code keeps a weighted average. Position and total profit agree over every history
  (`FifoBasis.AverageAgainstFifo`); the realized profit does if and only if every fill that closes a part
  of the position closes units that cost the average (`FifoBasis.AverageIsFifoIff`). A history on which it
  does not: `FifoBasis.AverageIsNotFifo`. The three rules listed there do hold
  (`RiskDecisions.AddingRule`, `RiskDecisions.ReducingRule`).
- A modify is never matched, so it can cross the book (`Matching.ModifyCanCross`);
  `Matching.StepUncrossedIff` has the exact condition for one operation and
  `Matching.UncrossedThroughoutIff` for whole runs.
- A modify makes no callback, so it can leave an observer with a wrong copy of the book
  (`CallbackLog.ObserverCanBeWrong`). `CallbackLog.ModifyEscapesCallbacks` has the exact condition for one
  modify and `CallbackLog.CallbacksSufficeIff` for whole runs.
- The risk check is made before the exchange lock is taken, so the plain `max_position` holds with one
  submitter in flight and no more (`BoundIsReached.PlainLimitIffAlone`).
  `SubmitProtocol.PositionStaysBounded` has the bound that does hold, and `BoundIsReached.BoundIsTight`
  reaches it for all limits that let an order through, any number of submitters and either side.
- A CANCEL signal is looked up in the tick's book only but is always dropped from the backtester's map, so
  CANCEL_ALL can miss an order (`Backtest.CancelAllCanMiss`). `Backtest.CancelKeepsCoverIff`,
  `Backtest.CancelAllClearsIffCovered` and, for whole streams, `Backtest.CoveredThroughoutIff` have the
  exact conditions.
- The repository's README (line 274) has the journal's checksum catch corruption of a record. It covers the
  payload and itself: any burst of up to 32 bits there is caught (`Journal.BurstStopsReading`), a longer one
  need not be (`Crc.LongerBurstCanHide`), and an altered type byte is read back unnoticed
  (`Journal.DamagedTypeIsRead`).

## Model

| member | source | states |
|---|---|---|
| FlatBook.Best | src/core/order_book.cpp:83-120 | price-time priority: the chosen order has the best price of its side and every earlier arrival on that side is at a strictly worse price; none is chosen only if the side is empty |
| FlatBook.Find | src/core/order_book.cpp:186-188 | the first resting order with an id, or none |
| BookInvariants.EligibleIffBest | src/core/order_book.cpp:61-81 | something is reachable within a limit exactly when the order that trades next is within it |
| BookInvariants.FillTakesEligible | src/core/order_book.cpp:89-106 | a fill takes exactly its quantity from what any given limit can reach |
| BookInvariants.SweepTakesAllItCan | src/core/order_book.cpp:83-148 | a sweep trades all it wants or all that is reachable; a sweep without a price guard stays within any limit that has enough liquidity |
| BookInvariants.FillShrinks | src/core/order_book.cpp:88-106 | termination measure: every fill removes a resting order or reduces the incoming one |
| BookInvariants.AddKeepsWellFormed | src/core/order_book.cpp:151-184 | resting orders have distinct ids, are limit orders with something to fill and the status that says how much was; departed orders are finished, and FILLED exactly when nothing remains |
| BookInvariants.RunKeepsWellFormed | src/core/order_book.cpp:151-206 | the same invariant over every run of adds, cancels and modifies |
| PriceLevels.NextKey | src/core/order_book.cpp:84-119 | ordered iteration over a map's keys: the best key strictly after the given one, none only at the end |
| PriceLevels.LeavesQueue | src/core/order_book.cpp:39-51 | taking an order out of the flat list takes exactly it out of its level's queue and its remainder out of the sum |
| PriceLevels.PlaceInQueue | src/core/order_book.cpp:39-51 | an order stands exactly once in its level's queue, and the level without it agrees with the flat list without it |
| PriceLevels.OrderLeaves | src/core/order_book.cpp:39-56 | both sides and the index still agree with the flat list after an order left, an emptied level being erased |
| PriceLevels.FrontIsBest | src/core/order_book.cpp:84-89 | the front order of the best level is the one a rescan of the flat list picks |
| PriceLevels.AheadOfNext | src/core/order_book.cpp:63-74 | one step of the fill-or-kill scan adds exactly the cached total of one level |
| PriceLevels.AheadIsEligible | src/core/order_book.cpp:61-75 | what the scan has passed is part of the reachable quantity, and all of it once the next level is beyond the limit |
| OrderBooks.OrderBook.MakeTrade | src/core/order_book.cpp:13-28 | a numbered trade between two orders, both filled by its quantity, FILLED exactly when nothing remains |
| OrderBooks.OrderBook.AddToBook | src/core/order_book.cpp:30-37 | the order joins its level, the total and the index; the flat list grows at its end |
| OrderBooks.OrderBook.RemoveFromBook | src/core/order_book.cpp:39-56 | exactly that order leaves level, total, index and flat list |
| OrderBooks.OrderBook.RemoveIf | src/core/order_book.cpp:44-50 | removal by id from a queue: the others in order, and the remainder of what left |
| OrderBooks.OrderBook.EnoughAvailable | src/core/order_book.cpp:61-76 | the scan over cached totals with its two early exits decides exactly whether the flat list offers enough within the limit |
| OrderBooks.OrderBook.FillFront | src/core/order_book.cpp:88-106 | one turn of the inner loop is one fill of the reference book, callbacks included |
| OrderBooks.OrderBook.DrainLevel | src/core/order_book.cpp:88-106 | the inner loop is a prefix of the reference sweep that empties the level or fills the order |
| OrderBooks.OrderBook.SweepAsks | src/core/order_book.cpp:83-112 | the forward-iterator sweep equals the reference sweep: trades, order, book, callbacks |
| OrderBooks.OrderBook.SweepBids | src/core/order_book.cpp:113-145 | the sweep that re-fetches the last level equals the reference sweep |
| OrderBooks.OrderBook.TryMatch | src/core/order_book.cpp:58-149 | expiry without a trade when the fill-or-kill scan fails, the reference sweep otherwise |
| OrderBooks.OrderBook.AddOrder | src/core/order_book.cpp:151-184 | adding an order has the reference outcome (trades, final order state, book, callbacks) and keeps levels, totals and index in agreement |
| OrderBooks.OrderBook.CancelOrder | src/core/order_book.cpp:186-194 | cancel has the reference outcome, unknown ids included |
| OrderBooks.OrderBook.ModifyOrder | src/core/order_book.cpp:196-206 | modify re-queues at the back without matching, or refuses, as the reference does |
| OrderBooks.OrderBook.FindOrder | src/core/order_book.cpp:208-212 | found exactly when resting, and it is that order's object in its current state |
| OrderBooks.OrderBook.BestPrice | src/core/order_book.hpp:47-48 | the best price of the flat list, 0 for an empty side |
| OrderBooks.OrderBook.TopLevels | src/core/order_book.cpp:219-235 | the aggregates of the best min(depth, levels) prices of the flat list, strictly sorted, whatever the depth |
| OrderBooks.OrderBook.Snapshot | src/core/order_book.cpp:214-238 | that, for both sides |
| WholeRuns.PerformAll | src/core/order_book.cpp:151-206 | for every sequence of adds, cancels and modifies the object stands for the reference book after the same sequence |
| WholeRuns.RunNewBook | src/core/order_book.cpp:151-206 | on such an object trades and fills are accounted for, and best bid is below best ask unless a modify reached across |
| Matching.PriorityQueueIsPriceTime | src/core/order_book.cpp:83-145 | repeated rescanning yields a queue sorted by price whose orders at each price are that price's orders in arrival order |
| Matching.SweepEatsPrefix | src/core/order_book.cpp:83-145 | a sweep equals eating a prefix of that queue: same trades, and the rest of the queue is what remains |
| Matching.TradesWalkAwayFromTouch | src/core/order_book.cpp:83-148 | trades hit the queue's orders in turn, numbered on from the counter, at prices that never improve, all makers but the last traded out |
| Matching.SweepTradesTaken | src/core/order_book.cpp:94-127 | every trade names the incoming order on its own side and only there, so the side is recoverable from the trade |
| Matching.AddTradesTaken | src/core/order_book.cpp:151-184 | the same for an added order, which trades no more than it asked for |
| Matching.FillOrKill | src/core/order_book.cpp:61-81 | all or nothing: either trades summing to the quantity, each at the order's price or better, and the order FILLED; or no trade, unchanged resting orders, status EXPIRED; decided by the liquidity within the limit |
| Matching.MaximalMatching | src/core/order_book.cpp:151-177 | limit, market and IOC orders trade min(quantity, reachable liquidity), limit and IOC at their price or better; the remainder rests at the end of the list, is cancelled or expires |
| Matching.StepUncrossedIff | src/core/order_book.cpp:151-206 | an operation keeps an uncrossed book uncrossed if and only if it is not a modify whose new price reaches the other side |
| Matching.NeverCrosses | src/core/order_book.cpp:151-206 | so over every run without such a modify |
| Matching.UncrossedThroughoutIff | src/core/order_book.cpp:151-206 | over every run the book is uncrossed after every operation if and only if no modify reached across |
| Matching.UncrossedIffBestPrices | src/core/order_book.hpp:47-48 | uncrossed means best bid below best ask whenever both exist |
| Matching.ModifyCanCross | src/core/order_book.cpp:196-206 | a run that ends with a crossed book |
| OperationEffects.AddEffect | src/core/order_book.cpp:151-184 | an added order eats a prefix of the other side's price-time queue, unless it is a fill-or-kill order that cannot be filled; what remains of a limit order joins the back of the queue at its price; its own side is otherwise untouched |
| OperationEffects.AddAnnounces | src/core/order_book.cpp:83-184 | all callbacks of an added order, in order: the order as NEW; each trade, then its maker, then the order, as they are after it; the end of what stayed unfilled |
| OperationEffects.CancelRefused | src/core/order_book.cpp:186-188 | an unknown id is refused and nothing changes |
| OperationEffects.CancelEffect | src/core/order_book.cpp:188-193 | a cancelled order leaves its queue, ends as CANCELLED and is announced so; every other queue is as it was, and a taker of any side and limit can reach exactly its remainder less |
| OperationEffects.ModifyAcceptedIff | src/core/order_book.cpp:196-200 | a modify is accepted if and only if the order rests and the new quantity exceeds the volume of the trades naming it; a refused one changes nothing |
| OperationEffects.ModifyEffect | src/core/order_book.cpp:201-205 | an accepted modify moves the order to the back of the queue at the new price, with the new quantity and what it had filled; what a taker of any side and limit can reach changes by exactly that; no callback |
| OperationEffects.LastModifyDecides | src/core/order_book.cpp:196-206 | of two accepted modifies of one order the last decides alone |
| QueueEquivalence.SameSweep | src/core/order_book.cpp:83-148 | two flat lists with the same queue at every side and price sweep alike: same trades, same callbacks, same queues after |
| QueueEquivalence.SameEligible | src/core/order_book.cpp:61-81 | and offer a fill-or-kill order the same quantity |
| QueueEquivalence.QueuesDecideEverything | src/core/order_book.cpp:30-206 | so over every run: the queues the engine keeps are all the state there is, and the arrival order across queues that the reference list adds is not observable |
| Lifecycle.AddAccounts | src/core/order_book.cpp:151-184 | the trades returned are exactly those the trade callback saw, and every order's filled quantity stays the sum of the trades naming it |
| Lifecycle.RunAccounts | src/core/order_book.cpp:13-28 | over every run: trade ids are 1..n in order, and each order has filled exactly the sum of the trades naming it |
| Lifecycle.DoneIsDone | src/core/order_book.cpp:102-105 | a finished order never rests, changes or trades again, whatever follows |
| Lifecycle.AddKnows | src/core/order_book.cpp:151-184 | adding forgets no order and introduces only the new id |
| CallbackLog.CallbacksAreComplete | src/core/order_book.cpp:151-194 | after any run of adds and cancels, folding over the order callbacks alone rebuilds the resting orders, their remainders and their queueing order |
| CallbackLog.ModifyEscapesCallbacks | src/core/order_book.cpp:196-206 | after an accepted modify an observer who held every queue right still does if and only if price and quantity stayed and nobody was queued behind the order at its price |
| CallbackLog.AddOrCancelObserved | src/core/order_book.cpp:151-194 | an add or cancel keeps such an observer right, in whatever order it lists the orders across queues |
| CallbackLog.CallbacksSufficeIff | src/core/order_book.cpp:151-206 | for every run, modifies included: the observer is right after every operation if and only if every modify was refused or harmless in that sense |
| CallbackLog.ObserverCanBeWrong | src/core/order_book.cpp:196-206 | a run after which the observer has the queue wrong, though the modify kept price and quantity |
| NoTrace.ShadowFok | src/core/order_book.cpp:61-81 | a fill-or-kill scan gives the same verdict with and without an order the sweep does not trade with, although it counts it |
| NoTrace.UntradedOrderLeavesNoTrace | src/core/order_book.cpp:151-206 | erasing every mention of an order that never trades from a run leaves all trades, ids included, all other orders and all other callbacks unchanged |
| NoTrace.CancelledUntradedOrderLeavesNoTrace | src/core/order_book.cpp:186-194 | if it is out of the book in the end, the final book is identical as well |
| Mirror.MirrorSweep | src/core/order_book.cpp:83-145 | the sell sweep is the buy sweep on the price-negated, side-swapped book, for any book and order |
| Mirror.MirrorAdd | src/core/order_book.cpp:151-184 | the same for adding an order of any type |
| Mirror.MirrorRun | src/core/order_book.cpp:151-206 | the same for whole runs |
| Risk.RiskManager.OrdersInLastSecond | src/risk/risk_manager.cpp:9-15 | pops exactly the stamps that are too old and counts the rest |
| Risk.RiskManager.CheckOrder | src/risk/risk_manager.cpp:17-58 | the verdict and the whole new state, for every outcome and the order of the checks |
| Risk.RiskManager.Book | src/risk/risk_manager.cpp:65-90 | the step-by-step position update equals one expression for opening, adding, reducing, closing and flipping |
| Risk.RiskManager.OnFillEvent | src/risk/risk_manager.cpp:60-98 | the position after a fill, marked at the market price or the fill price |
| Risk.RiskManager.UpdateMarketPrice | src/risk/risk_manager.cpp:100-109 | the price is kept and an existing position re-marked |
| Risk.RiskManager.TotalPnl | src/risk/risk_manager.cpp:127-133 | the sum over all positions, whatever order the map is walked in |
| RateLimit.RateIsWindowCount | src/risk/risk_manager.cpp:9-15 | the deque's size after popping is the number of approvals in the closed last second |
| RateLimit.CheckRate | src/risk/risk_manager.cpp:49-57 | one check: the deque goes on holding the tail of all approvals, and the rate verdict is decided by those in the last second |
| RateLimit.HistoryTracks | src/risk/risk_manager.cpp:9-57 | over every history the deque holds the tail of all approvals and what it dropped lies outside every later window |
| RateLimit.RateLimitHolds | src/risk/risk_manager.cpp:49-57 | over every history with a non-decreasing clock, no closed interval of 1,000,000,000 ns contains more approvals than the limit |
| RateLimit.RateVerdictIsExact | src/risk/risk_manager.cpp:49-57 | after every such history from a new manager, the next check is rejected for its rate if and only if the other checks pass and at least the limit of all approvals made so far lie in the last second |
| RiskDecisions.VerdictIs | src/risk/risk_manager.cpp:17-57 | after every clocked history from a new manager: the verdict on the next order is decided by quantity, price, size limit, notional limit, position limit against the net of the fills, and approvals in the last second, in this order, each with its own reason |
| RiskDecisions.ApprovedIff | src/risk/risk_manager.cpp:17-57 | so it is approved if and only if it meets all six conditions |
| RiskDecisions.DisabledApproves | src/risk/risk_manager.cpp:17-24 | disabled limits approve everything and still stamp the approval |
| RiskDecisions.ChecksAreCounted | src/risk/risk_manager.cpp:17-57 | every check is counted once, and as rejected exactly when it was not approved |
| RiskDecisions.PositionsAreTraded | src/risk/risk_manager.cpp:60-66 | positions are kept for exactly the symbols that had fills |
| RiskDecisions.OpeningRule | src/risk/risk_manager.cpp:70-75 | opening: the average is the fill's price |
| RiskDecisions.AddingRule | README.md:165-165 | adding: the new average over the whole position is the weighted average of old and new |
| RiskDecisions.ReducingRule | README.md:166-167 | reducing realizes the closed quantity against the average and keeps it; closing clears it; flipping closes all and opens the rest at the fill's price |
| RiskDecisions.FlatStaysBlank | src/risk/risk_manager.cpp:76-97 | over every history a flat position shows no average price and no unrealized profit |
| RiskTheorems.FillConservesCash | src/risk/risk_manager.cpp:65-90 | adding, reducing and flipping all conserve realized profit less open cost plus cash paid |
| RiskTheorems.BooksBalance | src/risk/risk_manager.cpp:60-109 | over every history of checks, fills and prices, net, realized and unrealized profit balance against the fills |
| RiskTheorems.MarkIsLastPrice | src/risk/risk_manager.cpp:92-108 | over every history from a new manager the price a position is marked at is a function of the operations: the last update's, or the last fill's |
| RiskTheorems.ProfitIsCashPlusMark | src/risk/risk_manager.cpp:60-109 | from a new manager, over every history: position, realized and unrealized profit in terms of the operations alone; total profit is cash received less cash paid plus the net of the fills at the last update's price, or the last fill's where there was no update |
| RiskTheorems.FillOrderIsIrrelevant | src/risk/risk_manager.cpp:60-109 | two histories with the same fills, in any order, and the same last price show the same position and total profit |
| RiskDecisions.TotalIsCashPlusMarks | src/risk/risk_manager.cpp:127-133 | over every history the total profit is cash plus inventory at the last prices, summed over the traded symbols |
| FifoBasis.FifoBalances | README.md:162-168 | a first-in first-out ledger keeps the same balance of realized profit, open cost and cash |
| FifoBasis.AverageAgainstFifo | src/risk/risk_manager.cpp:70-97 | over every history the weighted average agrees with that ledger on position and on total profit at any mark, and on realized profit whenever the position is flat |
| FifoBasis.CloseLeavesCost | README.md:162-168 | closing lots takes the cost of the oldest units off the ledger, whatever they are sold for |
| FifoBasis.FillAgreesIff | src/risk/risk_manager.cpp:70-90 | from states that agree, one fill keeps the realized profits equal if and only if it does not close just a part of the position, or the oldest units it closes cost the average |
| FifoBasis.AverageIsFifoIff | src/risk/risk_manager.cpp:70-90 | over every history from a new manager the realized profits agree throughout if and only if every fill meets that condition when it comes |
| FifoBasis.AverageIsNotFifo | README.md:162-168 | a history on which the realized profits differ: 15 against 20 |
| TakerFlow.AddFlow | src/core/simulator.cpp:50-55 | the taker volume and the dollars read off the callbacks grow by exactly the added order's trades, signed by its side |
| SubmitProtocol.StepKeepsInv | src/core/simulator.cpp:27-76 | every step of every submitter, canceller, modifier or tick keeps the protocol's invariant, including tracked position plus unreported fills equals taker flow |
| SubmitProtocol.SubmitKeepsBound | src/risk/risk_manager.cpp:42-47 | an approval keeps the bound on position plus everything in flight, with at most k in flight |
| SubmitProtocol.OthersKeepBound | src/core/simulator.cpp:37-55 | so does every other step |
| SubmitProtocol.PositionStaysBounded | src/core/simulator.cpp:31-55 | with at most k submitters in flight, the tracked position never leaves max_position + (k - 1) * max_order_qty in any interleaving; k = 1 gives the plain limit |
| SubmitProtocol.PositionEqualsTape | src/core/simulator.cpp:50-55 | whenever nobody is in the middle of reporting, the tracked position is incoming-buy less incoming-sell volume over the book's trades |
| SubmitCash.FillBooks | src/core/simulator.cpp:52-55 | reporting a fill books the trade's own price times quantity on its symbol's position and nothing elsewhere |
| SubmitCash.StepKeepsCash | src/core/simulator.cpp:27-83 | every step of the protocol keeps: what a position has booked is what the book's trades moved, less the dollars of fills not yet reported |
| SubmitCash.CashEqualsTape | src/core/simulator.cpp:50-55 | whenever nobody is in the middle of reporting, realized profit less the cost of the open position is minus the taker-signed sum of price times quantity over the book's trades; total profit is that plus the taker volume at the market price |
| BoundIsReached.BoundIsTight | src/core/simulator.cpp:31-55 | for all limits that let an order through, every k and either side, a run with at most k in flight reaches max_position + (k - 1) * max_order_qty exactly |
| BoundIsReached.PlainLimitIffAlone | src/risk/risk_manager.cpp:42-47 | for all enabled limits and every k, every run with at most k in flight stays within max_position if and only if k is 1 or the limits let nothing through that could open a position |
| BoundIsReached.ReachOutside | src/core/simulator.cpp:31-55 | two submitters at a time reach every position up to one order beyond the limit |
| Simulator.ExchangeSimulator.AddSymbol | src/core/simulator.cpp:12-24 | a new empty book, or no change when the symbol exists |
| Simulator.ExchangeSimulator.NextOrderId | src/core/simulator.hpp:71-71 | the counter's next value |
| Simulator.ExchangeSimulator.MatchOrder | src/core/simulator.cpp:37-48 | the stored clone is matched in its symbol's book; all other books are untouched |
| Simulator.ExchangeSimulator.ReportFills | src/core/simulator.cpp:50-55 | every trade is reported once, on the side recovered from the trade |
| Simulator.ExchangeSimulator.SubmitOrder | src/core/simulator.cpp:27-61 | result, books, counters and risk state for rejection, unknown symbol and acceptance |
| Simulator.ExchangeSimulator.CancelOrder | src/core/simulator.cpp:63-68 | the reference cancel in that symbol's book alone |
| Simulator.ExchangeSimulator.ModifyOrder | src/core/simulator.cpp:70-76 | the reference modify in that symbol's book alone |
| Simulator.ExchangeSimulator.OnTick | src/core/simulator.cpp:78-83 | only the risk manager's prices and marks change |
| Simulator.SubmitIsProtocolRun | src/core/simulator.cpp:27-61 | a submission nobody interleaves with is a run of the protocol with the same outcome and at most one more in flight |
| SimulatorRuns.ServeAllIsProtocolRun | src/core/simulator.cpp:27-83 | any sequence of submissions, cancels, modifies and ticks is a protocol run with at most one in flight |
| SimulatorRuns.PositionStaysWithinLimit | src/core/simulator.cpp:27-83 | so from a new simulator no position ever exceeds max_position |
| SimulatorRuns.AllServedPrices | src/core/simulator.cpp:78-83 | over any sequence of requests a symbol's market price is its last tick's, in dollars |
| SimulatorRuns.ProfitIsTape | src/core/simulator.cpp:27-83 | from a new simulator, over any sequence of requests: position, booked profit and total profit of every listed symbol are those of its book's trades and its last tick |
| SimulatorRuns.ServeRequests | src/core/simulator.cpp:27-83 | the simulator object, over any sequence of requests: no position exceeds max_position, and every listed symbol's position and profit are those of its book's trades and its last tick |
| Backtest.CancelKeepsCoverIff | src/core/simulator.cpp:128-132 | after a CANCEL signal the map of live orders still covers the books if and only if the order does not rest in another symbol's book |
| Backtest.CoveredThroughoutIff | src/core/simulator.cpp:121-165 | over every stream of ticks and signals the map covers the books throughout if and only if every CANCEL is local |
| Backtest.CancelEachLeaves | src/core/simulator.cpp:133-138 | after cancelling along the map exactly the orders it does not place in their own book still rest |
| Backtest.CancelAllClearsIffCovered | src/core/simulator.cpp:133-138 | CANCEL_ALL empties every book, whatever the walk order, if and only if the map covered the books |
| Backtest.SubmitKeepsSound | src/core/simulator.cpp:140-163 | a BUY or SELL signal keeps the map covering the books and the tally in step with the simulator's counters |
| Backtest.CancelAllCanMiss | src/core/simulator.cpp:128-138 | a run after which it has missed one: a buy in B on a tick of A, a CANCEL of it on a tick of A, CANCEL_ALL; the buy still rests in B |
| Backtest.CancelAllClearsTheBacktest | src/core/simulator.cpp:121-165 | from a new backtest, over every stream of ticks and signals whose cancels are local, the map covers the books, so CANCEL_ALL empties them |
| SignalEffects.AcceptedIff | src/core/simulator.cpp:140-150 | a BUY or SELL signal is accepted if and only if its symbol is listed, its order is within every limit, at the tick's last price where that is positive, and the approvals kept of the last second leave room |
| SignalEffects.RejectedChangesNothing | src/core/simulator.cpp:149-150 | a rejected signal takes an id and is counted; books, positions, prices, live map and trades stay |
| SignalEffects.SignalEffect | src/core/simulator.cpp:140-163 | an accepted signal: every new trade names its id as buyer for BUY and as seller for SELL, and only there; the tally gains exactly the trades the book announced; the position moves by plus or minus their volume; no other book or position moves |
| SignalEffects.SignalRests | src/core/simulator.cpp:140-148 | its order rests only in the book of the signal's symbol (the tick's if empty), only as the remainder of a limit order, at the back of the queue of the signal's side and price, with the signal's quantity |
| SignalEffects.AllTallied | src/core/simulator.cpp:121-165 | over every stream the tally holds, for every listed symbol, exactly the trades its book announced, in order |
| Backtest.AdvanceKeepsOrderly | src/core/simulator.cpp:121-165 | every tick and signal keeps the books well formed, their ids below the counter and the tally equal to the simulator's counters |
| BacktestProfit.StreamServes | src/core/simulator.cpp:121-165 | every stream is served as a sequence of simulator requests with fresh ids, ticks in place |
| BacktestProfit.BacktestSettles | src/core/simulator.cpp:121-165 | over every stream of a new backtest no position exceeds max_position, and position and profit of every listed symbol are those of its trades and its last tick |
| Backtesters.Backtester.CancelAll | src/core/simulator.cpp:133-138 | the loop over the live map, in an arbitrary order, equals cancelling along that order |
| Backtesters.Backtester.SubmitSignal | src/core/simulator.cpp:140-163 | books, risk state, live map and tally after a BUY or SELL signal |
| Backtesters.Backtester.ProcessTick | src/core/simulator.cpp:121-165 | a tick and exactly its signals, in order, have the specified effect on the whole backtest state |
| Backtesters.Backtester.ProcessTicks | src/core/simulator.cpp:198-219 | the loop over all ticks handles exactly the given ticks and signals, in order |
| Backtesters.RunBacktest | src/core/simulator.cpp:167-219 | a whole backtest: what is handled is exactly the given ticks and signals; the tally holds each book's trades in order; positions and profits are those of the trades and the last ticks; with CANCEL_ALL in the end, if all cancels were local, every book object has no level and no indexed order left |
| Crc.ComputeChecksum | src/journal/journal.cpp:36-44 | the two nested loops compute the checksum the theorems are about |
| CrcTable.ChecksumIsTableCrc | src/journal/journal.cpp:36-44 | on every byte string it is the checksum of section 8 of RFC 1952 in its table-driven form |
| Crc.BitStepInjective | src/journal/journal.cpp:40-41 | one bit step is injective on the 32-bit state |
| Crc.FeedInjective | src/journal/journal.cpp:38-42 | so is feeding any byte string |
| Crc.FeedIsBitByBit | src/journal/journal.cpp:38-42 | the loops over bytes and bits feed the message bit by bit, lowest bit first |
| Crc.FeedBitsIsWord | src/journal/journal.cpp:38-42 | feeding up to 32 bits is adding the word they form once and stepping past all of them |
| Crc.BurstDetected | src/journal/journal.cpp:36-44 | payloads of one size that differ only within 32 consecutive bits, wherever bytes begin, never share a checksum |
| Crc.FourBytesAreABurst | src/journal/journal.cpp:36-44 | differences within four consecutive bytes are such a burst |
| Crc.LongerBurstCanHide | src/journal/journal.cpp:36-44 | 32 is the limit: two payloads that differ only within 33 bits and share a checksum |
| Crc.MatchesIff | src/journal/journal.cpp:129-131 | a stored checksum matches its payload if and only if feeding both leaves one constant behind |
| Crc.BurstNeverMatches | src/journal/journal.cpp:129-131 | a burst of up to 32 bits anywhere in payload and stored checksum, or across the two, leaves a mismatch |
| Journal.CrcRoundTrip | src/journal/journal.cpp:54-54 | the stored checksum's four bytes give the checksum back |
| Journal.FrameLayout | src/journal/journal.cpp:46-57 | a frame byte by byte: type, little-endian size, payload, checksum with its low byte in front |
| Journal.ParseAfter | src/journal/journal.cpp:112-134 | whatever follows intact records is read where they end |
| Journal.WrittenIsRead | src/journal/journal.cpp:46-57 | everything written comes back in order up to the first payload above the reader's limit |
| Journal.RoundTripIff | src/journal/journal.cpp:108-136 | the round trip holds, for any records at all, if and only if every payload is at most 2^20 bytes |
| JournalEntries.EveryJournalIsReadBack | src/journal/journal.cpp:59-106 | the payloads of the public writers are all within that limit, so every journal they make is read back record for record |
| JournalEntries.EntryReadBack | src/journal/journal.cpp:59-106 | reading the packed structs at their fixed offsets, with one type byte per writer, gives each call back |
| JournalEntries.TextKeeps | src/journal/journal.cpp:69-70 | a text field read up to its first zero is the text, cut to what fits |
| JournalEntries.JournalTellsCalls | src/journal/journal.cpp:59-136 | so from the bytes of any journal all calls come back, one for one and in order, as long as integers have the program's widths and texts fit their fields |
| JournalEntries.JournalDeterminesCalls | src/journal/journal.cpp:59-106 | no two different sequences of such calls leave the same bytes |
| JournalEntries.WriteEntry | src/journal/journal.cpp:59-106 | a public writer appends the frame of its packed struct |
| Journal.BurstStopsReading | src/journal/journal.cpp:112-134 | if a record's payload and stored checksum are altered within 32 consecutive bits, exactly the records before it are returned, whatever follows |
| Journal.MismatchStops | src/journal/journal.cpp:129-131 | reading stops at any record whose checksum does not match its payload |
| Journal.DamagedTypeIsRead | src/journal/journal.cpp:46-57 | the type byte is not covered: a record whose type is altered is read back with the other type, and reading goes on |
| Journal.CutFileKeepsWholeRecords | src/journal/journal.cpp:112-134 | a file cut inside a record yields the whole records before it; then, cut within its payload, a zero-padded record only if that has the checksum the unset variable holds, and, cut within its checksum, the record itself if and only if the variable holds the missing bytes |
| Journal.PartOfCrc | src/journal/journal.cpp:126-130 | some checksum bytes read over an unset variable give the checksum if and only if the variable holds the others already |
| Journal.BinaryJournal.WriteRecord | src/journal/journal.cpp:46-57 | exactly one frame is appended and counted when open, nothing otherwise |
| Journal.BinaryJournal.ReadRecord | src/journal/journal.cpp:113-134 | one turn of the reading loop, with end of file, oversize and damage |
| Journal.BinaryJournal.ReadAll | src/journal/journal.cpp:108-136 | the loop returns what the stream's content parses to |

## Left out

- Threads and locks as such: the protocol interleaves whole critical sections; data races inside one are not modelled.
- Floating-point rounding: dollar prices, cost basis and profit are reals.
- 64-bit wrap-around of prices, quantities, ids and counters: they are unbounded integers.
- Order and trade timestamps and `client_id`: nothing in the matching or accounting reads them. An order's own symbol is a parameter of the operations that look it up.
- Price levels are immutable values in a map that the methods reassign, not nodes updated in place; the queue is a sequence of order objects. Iterator invalidation is not captured.
- The inner fill loop, coded twice in the source, is one method used by both sweeps; so are the two fill-or-kill scans and the two halves of a snapshot, taken with the side as a parameter. The switch over order types calls one method per kind of ending, and the five public journal writers are one method over their entries.
- What a callback would see if it read the book while an operation is under way: the log records what each callback is told, not the half-updated levels behind it.
- OrderBooks.OrderBook.AddOrder: a reused id or a quantity that is not positive is a precondition, since the program's callers never pass them.
- SubmitProtocol.PositionStaysBounded: limits are enabled and fixed; changing limits in the middle of a run is not modelled.
- BoundIsReached.BoundIsTight: limits with a position, order size, notional or rate limit below their least positive values are excluded, since under them no position is ever opened (BoundIsReached.PlainLimitIffAlone); reaching the bound takes clocks two seconds apart, as the rate limit would otherwise interfere.
- Simulator.ExchangeSimulator.SubmitOrder: an order that is going to be matched needs an id not in the store, because storing it under a used id would free the order object a book may still point to, and nothing filled; with limits disabled it also needs a positive quantity, because then no check asks for one. A rejected order or an unknown symbol needs nothing.
- Journal.WrittenIsRead: payloads of 2^32 bytes and more, whose size field is cut off, are excluded there; the round trip itself is stated for all payloads.
- Damage to a record's size field: it moves where everything behind it is read, and nothing is claimed about that.
- The journal's file header, and opening and closing of files. The repository has no reader of the payloads' fields; `JournalEntries.EntryIn` is one for the layouts it declares.
- The backtester's equity curve, drawdown, Sharpe ratio and latency figures, and the strategies: a strategy is any source of signals.
- Market data parsing and generation, the serializer, the command line, the Python server and the web page.

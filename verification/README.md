# Verified core of the trading system

This project models the stateful engines of the system and proves what they promise over every
input and every run. `dafny verify dfyconfig.toml` checks all of it.

| files | component |
|---|---|
| `Ledger`, `LedgerLaws`, `LedgerRuns`, `LedgerFailures`, `LedgerHistory`, `LedgerRows`, `LedgerExits`, `LedgerFees`, `LedgerReloads`, `LedgerMarks`, `PositionStore`, `PositionManager` | the positions of a session, in memory and as rows of a table |
| `MockExchange`, `OrderCosts`, `AdverseRuns`, `PaperTrading` | the simulated exchange, and the path of a market order from it to the ledger |
| `Breaker`, `Fallback`, `FallbackHistory` | the circuit breaker of each language model and the client that falls back between models |
| `RateLimiter`, `RateLimitAnswers`, `SlidingWindow` | the per-IP request limiter |
| `Adx`, `AdxTrends` | the average directional index |
| `Candles`, `CandleCharts` | candlesticks from a price series |
| `Conversation` | conversation memory and prompts |
| `Hub` | the WebSocket hub, its clients and their bounded queues |
| `Variants` | A/B experiments by hash bucket |
| `JsonExtract` | finding JSON in a model's answer |
| `Arithmetic`, `Options` | facts and types that several of these use |

Code that changes state is modelled by classes and loops, whose methods are proved against functions
over values; the laws are about those functions. A run is a sequence of operations, and the state
after it is defined by recursion on that sequence, so "after any run" is a statement about all of
them. Time is an integer number of nanoseconds and an argument of the operations. Prices and
quantities are real numbers. A call into the database, an exchange or a language model becomes a
parameter that says how it turns out: `Db.outcomes` lists which of the coming statements succeed,
`Call` says when a model is called and what it replies, `WriteResult` how a write to a connection
goes. Every method that holds a mutex is one atomic step; where one gives its lock up half-way, the
second half is a step of its own.

## Where the code is not what one would expect

- A flip charges the whole fee both to the closed and to the opened position
  (internal/exchange/position_manager.go:107, :115). The profit laws therefore add the exit fees
  back; `LedgerFees.FeesAreAccounted` says where the fees go.
- A partial close without a database does nothing (internal/exchange/position_manager.go:264).
  `LedgerRuns.WithoutDatabase` says exactly which orders are dropped, `RunsWithoutDatabase` which
  runs are not affected.
- The closed part of a partial close is inserted without its exit columns
  (internal/db/positions.go:48-51, :622), so it stays in the table as an open row.
  `LedgerRows.TableMirrorsUnlessReduced` gives the exact condition, `RowsTellProfit` what it means
  for the stored profit, `LedgerReloads.ReloadRestores` for loading a session.
- Opening changes memory before it inserts the row, closing before it updates it. `FailureLaw`
  says which failures leave the positions alone and which leave a position without a row,
  `LedgerFailures.ConservationThroughFailures` what they do to the accounts.
- `IsOpen` gives up its read lock before it takes the write lock (internal/llm/fallback.go:320-321).
  The history laws of the breaker allow that write to come late; `HalfOpenAfterTimeout` says
  exactly which late writes break the timeout, `LateWriteSkipsTimeout` how they come about. The
  fallback client is modelled with requests made one after the other.
- Cleanup gives up the lock of an entry before it deletes it (cmd/api/middleware.go:295-298).
  `RateLimiter.RefinesUnlessHarmed` says exactly which late deletions show in an answer.
- An ADX of 0 is reported as a failed calculation (internal/indicators/adx.go:61-63), although it
  is the correct value of balanced movements: `Adx.ADXFailsOnBalance`, `ADXFailsOnStillness` and,
  for flat prices, `FlatPricesFail`.
- The reply to a ping may be sent after the hub has closed the client's channel, which panics
  (cmd/api/websocket.go:278-279): `Hub.OnlyLatePongsPanic`, and `LatePongHappens` for a case.
- A traffic split is accepted from a total of 0.99 up to 1.01 (internal/llm/experiment.go:100).
  What lies beyond 1 gets no bucket, and what is missing goes to the control:
  `Variants.AllocationIsFair` has the exact condition for a fair share, `EachVariantGetsItsShare`
  that of the variants given; `AcceptedSplitIsUnfair` and `AcceptedSplitFavoursControl` are splits
  that fail it.
- Brackets inside strings are counted (internal/llm/client.go:324-335):
  `JsonExtract.RoundTrip` gives the exact condition, `BraceInStringBreaks` a family that fails.

## Model

| member | source | states |
|---|---|---|
| LedgerRuns.Conservation | internal/exchange/position_manager.go:74-186 | After any run of orders filled without error from an empty book, for every symbol and every price p: realised profit (exit fees added back) plus unrealised profit at p equals the sum over all fills of sign · quantity · (p − fill price), and the signed open quantity equals bought minus sold |
| LedgerFailures.ConservationThroughFailures | internal/exchange/position_manager.go:74-330 | After any run whatever, with statements failing or without a database, worth at every price and net position are those of the effects of the orders: a failed averaging or reducing comes to nothing, a failed opening is traded in full, a failed closing drops the position as if closed at its entry price |
| LedgerFailures.BookedRunsTradeFills | internal/exchange/position_manager.go:87-183 | In runs without a failing call, and without dropped orders, these effects are exactly the fills |
| LedgerFailures.OrderAccounts | internal/exchange/position_manager.go:96-330 | One order, whatever fails in it, changes net position and cash account by its effect and nothing else |
| LedgerRuns.SplittingFills | internal/exchange/position_manager.go:82-94 | Reporting the fills of one order over two calls instead of one changes neither the worth of any symbol at any price nor its net position, whatever comes before and after, with a database or in runs without one that never reduce |
| LedgerRuns.RowsMirrorPositions | internal/exchange/position_manager.go:96-183 | After such a run with a database every open quantity is positive, no two positions share an id, and the row of each position is open with equal symbol, side, entry price and quantity |
| LedgerRuns.HealthyRun | internal/exchange/position_manager.go:96-183 | When no statement fails, no call of any run fails: the early error returns are not reachable otherwise |
| LedgerRuns.FillLaw | internal/exchange/position_manager.go:96-183 | One order filled without error moves the net position and the cash account of every symbol by what its fills trade, through opening, averaging, reducing, closing and flipping, and keeps rows and positions in agreement |
| LedgerRuns.FailureLaw | internal/exchange/position_manager.go:189-330 | When a call fails, positions are left alone if and only if the order was averaging or reducing; rows and positions still agree if and only if it was one of these, or there was a position and one of the two statements of its closing failed |
| LedgerRuns.FailedInsertLeavesNoRow | internal/exchange/position_manager.go:203-213 | A first order whose INSERT fails, of whatever fills, leaves a position without a row |
| LedgerRuns.WithoutDatabase | internal/exchange/position_manager.go:262-288 | Without a database no call fails, and an order is booked if and only if it does not reduce a position; a reducing one changes nothing |
| LedgerRuns.RunsWithoutDatabase | internal/exchange/position_manager.go:262-288 | Over whole runs without a database: the net positions are bought minus sold at every point of the run if and only if no order of it ever reduces a position |
| LedgerRuns.ReducesIsNet | internal/exchange/position_manager.go:104-126 | The branch for partial closing is taken exactly when the signed trade is opposite to the signed position and smaller than it |
| LedgerRuns.FlipTrades | internal/exchange/position_manager.go:104-119 | Once the closing has worked, closing and opening the surplus on the other side trades the order quantity as a whole, also when the new position gets no row |
| LedgerRuns.FlipAgrees | internal/exchange/position_manager.go:104-119 | A flip leaves rows and positions in agreement if and only if it succeeds or one of the two statements of its closing fails |
| LedgerLaws.CloseTrades | internal/exchange/position_manager.go:227-259 | Closing realises what selling the whole position at the exit price earns, and leaves other symbols alone |
| LedgerLaws.ReduceTrades | internal/db/positions.go:573-635 | A partial close realises what trading the closed quantity against the position earns; the profit computed from the row is that of the position in memory |
| LedgerLaws.AverageTrades | internal/exchange/position_manager.go:291-330 | Averaging keeps the cash account: the new entry price times the new quantity is what both purchases paid |
| LedgerLaws.OpenAgrees | internal/exchange/position_manager.go:203-213 | Opening keeps rows and positions in agreement if and only if the INSERT worked, since memory is changed first |
| LedgerLaws.CloseAgrees | internal/exchange/position_manager.go:227-238 | Closing keeps the agreement of all remaining positions with their rows, also when a statement fails |
| LedgerLaws.ReduceAgrees | internal/exchange/position_manager.go:262-273 | Partial closing keeps rows and positions in agreement at every point where a statement can fail |
| LedgerLaws.AverageAgrees | internal/exchange/position_manager.go:297-315 | Averaging keeps rows and positions in agreement: its rollback undoes the change in memory when the UPDATE fails |
| LedgerLaws.PartialCloseRows | internal/db/positions.go:573-635 | A partial close touches only the row it shrinks and the one it inserts; when it fails the shrunk row is as before; the profit is computed from the row |
| LedgerHistory.EntryBetweenFills | internal/exchange/position_manager.go:291-302 | After any run without a failing call (and, without a database, without a reducing order) an open position was built by at least one fill, and its entry price lies between the least and the greatest price of the fills that built it |
| LedgerRows.TableMirrorsUnlessReduced | internal/db/positions.go:47-54 | After any run filled without error the open rows of the table are those of the open positions if and only if no order of the run reduced a position, because the INSERT leaves out the exit columns of the closed part |
| LedgerRows.PartialSellLeavesRow | internal/db/positions.go:597-625 | Buying and then selling a part, with every statement working, is such a run: a row stays open without a position |
| LedgerReloads.ReloadRestores | internal/exchange/position_manager.go:55-71 | Loading the open rows after any run filled without error is sure to give back its positions, by id, symbol, side, entry price and quantity, with the fees and marks of their rows, if and only if no order of the run reduced a position |
| LedgerReloads.RunAges | internal/db/positions.go:599-618 | After any run filled without error the rows are of its session, the row of a position was entered when it was opened, and no row of its symbol is younger |
| LedgerReloads.After | internal/exchange/position_manager.go:40-71 | Over all runs of filled orders, failing or not, and of sessions started, changed and ended: open rows and positions are positive and agree as far as rows are there; and if no call has failed since positions were last loaded (or at all), rows and positions agree fully |
| LedgerReloads.SwitchSound | internal/exchange/position_manager.go:55-71 | Starting or ending a session keeps this; a load that works makes rows and positions agree whatever failed before |
| LedgerReloads.OrphanMayBeLoaded | internal/db/positions.go:178-189 | A row left open without a position, or an older one of its symbol, can be loaded in the place of the position, since the oldest row wins and the closed part keeps the entry time |
| LedgerRows.RowsTellProfit | internal/db/positions.go:247-281 | After any run filled without error the profit logged for a symbol is the profit stored in its rows plus that of its partial closes, which the rows miss; without a reducing order the rows tell all of it |
| LedgerRows.EvenPartialSell | internal/db/positions.go:588-595 | A run that reduces may still leave nothing out: a partial close at the entry price without fees realises nothing |
| LedgerExits.ClosedRows | internal/db/positions.go:247-282 | After any run filled without error every closed row was open until one order of the run closed it: its exit price is the average fill price of that order, its stored profit (exit price − entry) · quantity with the sign of its side, less the fees of that order, which are added to those of the row; its mark is 0 and nothing else has changed |
| LedgerExits.ExitBetweenFills | internal/exchange/position_manager.go:94 | That exit price lies between the least and the greatest price of the fills of the closing order |
| LedgerFees.FeesAreAccounted | internal/exchange/position_manager.go:82-92 | After any booked run, from the fills and the fee rate alone: a position holds the fees of the orders that opened it, added to it and reduced it, its row those of the orders that added to it, and realised profit has been charged the fees of every order that closed or reduced a position; a flip charges its fees twice |
| LedgerMarks.FillsKeepMarks | internal/exchange/position_manager.go:189-330 | Filling an order leaves the mark of a position as it was, and gives a new position none |
| LedgerMarks.FillsKeepRowMarks | internal/db/positions.go:511-570 | The same of the marks in open rows |
| LedgerRows.OrderRows | internal/db/positions.go:597-632 | A row left open without a position stays so for good; only a reducing order makes one |
| LedgerRows.ApplyKeepsRows | internal/exchange/position_manager.go:96-183 | An order changes no row but that of the position in its symbol |
| LedgerHistory.ApplyEntry | internal/exchange/position_manager.go:96-183 | Reducing keeps the entry price, averaging weights it, opening and flipping set it to the fill price |
| PositionManager.PositionManager.OnOrderFilled | internal/exchange/position_manager.go:74-186 | Computes average price, quantity and fees of the fills in one pass and takes the book, its rows and the realised profit to the state of the specification the laws are about; without a session it fails and changes nothing |
| PositionManager.PositionManager.OpenPosition | internal/exchange/position_manager.go:189-224 | Files a new position under its symbol, then inserts its row; the position stays when the INSERT fails |
| PositionManager.PositionManager.ClosePosition | internal/exchange/position_manager.go:227-259 | Removes the position, then closes its row; logs profit net of fees only when that worked |
| PositionManager.PositionManager.PartialClosePosition | internal/exchange/position_manager.go:262-288 | Shrinks the position only after the table did; does nothing without a database |
| PositionManager.PositionManager.AveragePosition | internal/exchange/position_manager.go:291-330 | Changes the position in place and restores it exactly when the UPDATE fails |
| PositionManager.PositionManager.UpdateUnrealizedPnL | internal/exchange/position_manager.go:333-366 | In whatever order they are visited, every position whose price is known is marked, and its row as well when all rows can be reached; a position whose row fails keeps its mark; nothing but marks changes |
| LedgerMarks.AllSettle | internal/exchange/position_manager.go:337-363 | In whatever order the positions have their turns, each whose price is known ends up marked at (price − entry) · quantity with the sign of its side or, if a row failed, as it was; when all rows can be reached every one is marked, in memory and in its row |
| PositionManager.PositionManager.SetSession | internal/exchange/position_manager.go:40-52 | Ends the session, or starts one without a database, with no positions; with a database the session starts from its own open rows, or keeps the positions there are when the query fails |
| PositionManager.PositionManager.LoadOpenPositions | internal/exchange/position_manager.go:55-71 | Every symbol with an open row of the session gets the oldest of these as its position, and no other symbol has one |
| PositionStore.FilingLoads | internal/exchange/position_manager.go:63-66 | Filing such a list by symbol, later entries replacing those before, leaves the oldest row of each symbol |
| PositionStore.DB.GetOpenPositions | internal/db/positions.go:179-233 | Lists exactly the open rows of the session, the latest first, or nothing when the query fails |
| PositionStore.DB.CreatePosition | internal/db/positions.go:46-88 | The new row is open and has no fees, whatever the position says; a taken id or a failing statement inserts nothing |
| PositionStore.DB.ClosePosition | internal/db/positions.go:236-295 | An open row gets its exit price and the profit net of fees; a missing or closed row is refused unchanged |
| PositionStore.DB.UpdatePositionQuantity | internal/db/positions.go:511-538 | Sets the quantity and adds fees on an open row only |
| PositionStore.DB.UpdatePositionAveraging | internal/db/positions.go:541-570 | Sets entry price and quantity and adds fees on an open row only |
| PositionStore.DB.PartialClosePosition | internal/db/positions.go:573-635 | Inserts the closed part and shrinks the row, stopping where a statement fails; refuses quantities that do not leave a rest |
| PositionStore.DB.UpdateUnrealizedPnL | internal/db/positions.go:298-332 | Sets the mark of an open row and nothing else |
| PaperTrading.NoFreeProfit | internal/exchange/mock.go:260-341 | With constant mid prices, none negative, and slippage parameters that are not negative, no series of orders, valid or not, ever makes realised profit before fees plus the open position at mid positive, on any symbol, with a database or without, whichever statements and calls fail on the way |
| AdverseRuns.AdverseOrderLoses | internal/exchange/position_manager.go:74-186 | An order filled no better than at a price earns nothing at it: what has been realised stays at most 0 and the position at best even, also when the call fails half-way or the order is dropped for want of a database |
| AdverseRuns.AdverseRunLoses | internal/exchange/service.go:202-206 | So after every run of such orders, going on after failed calls as the service does |
| PaperTrading.FillsAdverse | internal/exchange/mock.go:270-284 | Every buy fill is at or above the mid price and every sell fill at or below it, also when slippage drives the sell price below zero |
| MockExchange.PartialFillsConserve | internal/exchange/mock.go:344-399 | For every positive quantity the fills are positive and sum exactly to the quantity: one below 1.0, exactly five otherwise, at strictly increasing times |
| MockExchange.AveragePriceAdverse | internal/exchange/mock.go:286-293 | The average price is off the base price by at most 0.04%, on the side against the trader |
| OrderCosts.SmallOrderCost | internal/exchange/mock.go:271-281 | An order q below 1 pays mid · q · (base + impact · q · mid / 10^6) more than mid, or gets that much less, where the cap does not bind, and mid · q · maxSlippage where it does |
| OrderCosts.NoSlippageNoCost | internal/exchange/mock.go:324-340 | With base and impact 0 every order below 1 is filled at mid |
| OrderCosts.FirstFillNearMid | internal/exchange/mock.go:334-338 | The first fill of an order of any size, which pays the base price, is no further from mid than maxSlippage · mid |
| OrderCosts.ValueOfFills | internal/exchange/mock.go:364-396 | All fills together pay the base price per unit, and from a quantity of 1 on 0.021434368% of it more (less for a sale) |
| OrderCosts.FillFractions | internal/exchange/mock.go:364-396 | The five fills take 0.2, 0.192, 0.17024, 0.1400832 and 0.2976768 of the order, 0, 150, 350, 600 and 900 microseconds after its start |
| OrderCosts.FillPriceSteps | internal/exchange/mock.go:376-383 | Each fill is worse than the one before by 0.01% of the base price, which the first pays |
| OrderCosts.SplittingCostsNoMore | internal/exchange/mock.go:324-396 | Two orders never cost more than one for both, nor bring in less, for every split and all parameters that are not negative (for sales, a cap of at most the whole price) |
| OrderCosts.SplitSaleMayBringLess | internal/exchange/mock.go:279-280 | With a cap of twice the price two sales of a half bring in less than one of a whole |
| OrderCosts.DefaultBuy | internal/exchange/mock.go:40-50 | With the default parameters a buy of 0.5 at mid 50000 is filled at 50025.125 |
| MockExchange.ExactlyFiveFills | internal/exchange/mock.go:364-396 | The loop never stops early: the rule for small rests does not apply to orders of 1.0 and more |
| PaperTrading.Exchange.PlaceOrder | internal/exchange/mock.go:77-151 | A request is rejected, without a trace, exactly if it has no symbol, no known side or type, no positive quantity, or is a limit order without a positive price; otherwise it is stored, a market order with the fills that the laws of cost are about; other orders are untouched |
| PaperTrading.PlacedMeans | internal/exchange/mock.go:295-300 | A market order is stored as filled in full, its average price times its quantity being the value of its fills; a limit order as open, with nothing filled |
| PaperTrading.Exchange.Default | internal/exchange/mock.go:40-50 | The default exchange has a base slippage of 0.0005, a market impact of 0.0001 and a cap of 0.003 |
| PaperTrading.Exchange.SimulateMarketFill | internal/exchange/mock.go:260-321 | The order is filled with the specified fills; filled quantity times average price equals the sum of the fill values |
| PaperTrading.Exchange.SimulatePartialFills | internal/exchange/mock.go:344-399 | The loop produces the specified sequence of fills for every quantity |
| PaperTrading.Exchange.AverageFillPrice | internal/exchange/mock.go:286-293 | The average price times the total quantity is the total value of the fills |
| PaperTrading.Exchange.CancelOrder | internal/exchange/mock.go:154-198 | Succeeds exactly for orders that are open or pending, so never for a filled one, and changes no other order |
| PaperTrading.ReportFills | internal/exchange/service.go:200-207 | A filled order is booked with the fills stored for it; without a session nothing is |
| PaperTrading.PlaceMarketOrder | internal/exchange/service.go:103-211 | The fills the exchange gives a market order are what the position manager books if a session is active; a rejected order reaches neither, and an error of the manager is not passed on |
| Breaker.CountersAreStreaks | internal/llm/fallback.go:347-375 | In every interleaving of atomic steps, also with a late half-open write between the locks of a probe, the counters are the lengths of the trailing runs of failures and of successes |
| Breaker.RecoveryNeedsStreak | internal/llm/fallback.go:351-354 | HALF_OPEN closes on a success only after at least SuccessThreshold successes with no failure between; when no probe was disturbed, always then |
| Breaker.ClosedMeansFewFailures | internal/llm/fallback.go:389-398 | A CLOSED circuit has always seen fewer than FailureThreshold failures in a row, in every run, if and only if the threshold is at least 1 |
| Breaker.WindowIsPrunedLog | internal/llm/fallback.go:376-386 | Over runs with a clock that does not go back, the pruned failure list equals the full failure log since the last reset cut off one window before the last failure |
| Breaker.HalfOpenAfterTimeout | internal/llm/fallback.go:317-327 | At every point of a run with a clock that does not go back a half-open circuit has had a full timeout since the failure that opened it, if and only if every late half-open write would pass the timeout test made again under the write lock |
| Breaker.LateWriteSkipsTimeout | internal/llm/fallback.go:319-324 | From every open circuit whose timeout has passed, two requests lead to a late write that makes it half-open with no timeout passed since it was opened again |
| Breaker.FailuresOpen | internal/llm/fallback.go:389-398 | Failures alone open a circuit exactly from FailureThreshold of them on, and at least one |
| Breaker.ResetIsFresh | internal/llm/fallback.go:410-423 | A reset closes the circuit, which from then on behaves as a new one, whatever came before |
| Breaker.LastTimesAreKept | internal/llm/fallback.go:347-376 | The recorded times are those of the last failure and the last success |
| Fallback.FailingModelIsSpared | internal/llm/fallback.go:88-147 | A model that fails every time is called at most max(1, FailureThreshold) + ⌊D/Timeout⌋ times by requests made one after the other within a period D, whatever the other models do |
| Fallback.BoundIsReached | internal/llm/fallback.go:317-402 | That bound is attained, for every threshold (also below 1), every positive timeout and every number of timeouts |
| Fallback.FirstWillingModelAnswers | internal/llm/fallback.go:91-146 | A request is answered by the first model in order of preference whose circuit admits it and whose call succeeds; every model up to it has had exactly one turn, those after it none (which models are admitted: FallbackHistory.RefusedIfBlocked) |
| FallbackHistory.RefusedIfBlocked | internal/llm/fallback.go:306-407 | After any requests, from the calls made alone: a model is refused if and only if its last call failed and ended less than Timeout ago and it is under suspicion, that is FailureThreshold calls in a row have failed and since the last failure fewer than SuccessThreshold have succeeded |
| FallbackHistory.FirstUnblockedModelAnswers | internal/llm/fallback.go:88-147 | After any requests the next one is answered by the first model that is not so blocked and succeeds, and by none if there is no such model |
| FallbackHistory.RecoveredModelIsCalled | internal/llm/fallback.go:316-359 | A model that succeeds from some request on, its timeout over, is called by every request that reaches it, and its circuit is closed after SuccessThreshold of them |
| FallbackHistory.CircuitsShowCalls | internal/llm/fallback.go:258-266 | State, counters and opening time of a circuit are those that its calls say |
| FallbackHistory.CircuitsHaveHistories | internal/llm/fallback.go:91-126 | The circuits of the client are those of the breaker histories made of the probes, successes and failures of its turns, so that the history laws hold of them |
| Fallback.CircuitBreaker.IsOpen | internal/llm/fallback.go:306-335 | Refuses exactly when the circuit is open and its timeout has not passed, or the model does not exist; changes that one circuit at most |
| Fallback.CircuitBreaker.RecordSuccess | internal/llm/fallback.go:338-359 | Takes the one circuit through the success step of the history results and no other |
| Fallback.CircuitBreaker.RecordFailure | internal/llm/fallback.go:362-407 | Takes the one circuit through the failure step, its window pruned by a loop, and no other |
| Fallback.CircuitBreaker.Reset | internal/llm/fallback.go:410-423 | Closes the circuit and clears counters and window, keeping the times of the last events |
| Fallback.FallbackClient.Complete | internal/llm/fallback.go:88-147 | The loop over the models leaves the circuits as the routing specification says and returns its winner |
| Fallback.FallbackClient.constructor | internal/llm/fallback.go:59-85 | Every circuit starts closed; a threshold of 0 replaces the whole configuration by 5 failures, 2 successes, 60 seconds and 5 minutes |
| RateLimiter.RefinesFullLog | cmd/api/middleware.go:111-168 | Over every run with a clock that does not go back, every answer is decided by the log of all admitted requests, as long as no late deletion takes a request that still counts: pruning and eviction never show (what the answers say: RateLimitAnswers.AnswerIsExact) |
| RateLimitAnswers.AnswerIsExact | cmd/api/middleware.go:137-167 | In such a run, with n requests of the IP let through in (now − window, now]: a check is admitted if and only if n < maxRequests; limit is maxRequests, remaining maxRequests − n − 1 or 0, and ResetAt is one window after the oldest of the n requests, or after now if there is none |
| RateLimitAnswers.RemainingIsExact | cmd/api/middleware.go:160-167 | After an admitted check with r remaining, of the checks of that IP that come before its ResetAt the next r are admitted and those after them refused, whatever other checks and cleanups happen |
| RateLimitAnswers.ResetAtAfterAdmission | cmd/api/middleware.go:137-141 | After an admitted check ResetAt is in the future and within a window; until then all that counted still counts, from then on less does |
| RateLimiter.RefinesUnlessHarmed | cmd/api/middleware.go:284-302 | With the deletion of an entry coming late, after its lock was given up, all answers are those of the full log if and only if every such deletion finds no request left in the window |
| RateLimiter.LateDeletionHarms | cmd/api/middleware.go:295-299 | A deletion that comes after one more check was let through always breaks this |
| RateLimiter.HarmShows | cmd/api/middleware.go:295-299 | The first deletion that takes a request that still counts shows in the next answer |
| RateLimiter.EveryWindowIsBounded | cmd/api/middleware.go:143-161 | No interval of the length of the window, wherever it starts, holds more than maxRequests requests of one IP let through, in every run without such a late deletion |
| RateLimiter.ResetAtIsExact | cmd/api/middleware.go:137-158 | After a refusal ResetAt lies in the future, and whatever other checks and cleanups happen the IP is refused before it and admitted from then on |
| RateLimiter.FullWindow | cmd/api/middleware.go:123-158 | A window filled to the limit opens exactly when its oldest request leaves it |
| RateLimiter.CleanupKeepsSame | cmd/api/middleware.go:284-302 | Evicting an entry without a request in two windows loses nothing a later check would see, for windows of any sign |
| RateLimiter.RateLimiter.Check | cmd/api/middleware.go:111-168 | Pruning, deciding and appending give the answers, and leave the entries, that the laws are about |
| RateLimiter.RateLimiter.Prune | cmd/api/middleware.go:123-135 | The loop keeps the requests after the cutoff in order and finds the oldest of them |
| RateLimiter.RateLimiter.CleanupOldEntries | cmd/api/middleware.go:280-302 | Exactly the entries with a request later than two windows ago survive, unchanged, in whatever order they are visited |
| SlidingWindow.AfterTwice | cmd/api/middleware.go:124-135 | Pruning at two cutoffs one after the other is pruning at the later one |
| SlidingWindow.KeepAfter | internal/llm/fallback.go:378-386 | The pruning loop keeps, in order, exactly the times after the cutoff |
| Adx.IndicatorsShareHundred | internal/indicators/adx.go:129-134 | For bars with low ≤ close ≤ high, +DI and −DI are non-negative with a sum of at most 100 at every bar |
| Adx.ADXWithin | internal/indicators/adx.go:90-146 | For any prices whatever every DX and the ADX lie between 0 and 100 |
| AdxTrends.RisingADX | internal/indicators/adx.go:90-146 | If no bar of a proper series has a lower low than the one before, and one of the bars up to number period a higher high, every DX from bar period on is 100 and the ADX of n bars is 100 · (1 − ((period − 1)/period)^(n − period)) |
| AdxTrends.FallingADX | internal/indicators/adx.go:90-146 | The same upside down |
| AdxTrends.IndexIsRatio | internal/indicators/adx.go:129-137 | DX times the sum of the smoothed movements is 100 times their difference, for any prices |
| AdxTrends.SmoothIsWeighted | internal/indicators/adx.go:149-170 | Smoothing in closed form: a datum that entered k bars ago has weight ((period − 1)/period)^k / period, the first period data having entered together |
| AdxTrends.OneMovementCounts | internal/indicators/adx.go:108-116 | Of the two movements of a bar the larger counts in full if it is positive, the other not at all, and neither if they are equal |
| AdxTrends.TrueRangeIsExtent | internal/indicators/adx.go:103-105 | The true range reaches from the least to the greatest of the bar's prices and the last close |
| Adx.ADXFailsOnBalance | internal/indicators/adx.go:59-63 | With enough data the ADX is 0, which is reported as a failed calculation, if and only if the smoothed movements balance at every bar that weighs in |
| Adx.ADXFailsOnStillness | internal/indicators/adx.go:101-117 | In terms of the bars, for proper ones and a period of at least 2: the ADX is 0 if and only if the smoothed movements are equal at bar number period and no later bar moves either way |
| Adx.FlatPricesFail | internal/indicators/adx.go:59-63 | Flat prices, however many, are reported as a failed calculation |
| Adx.ADXIgnoresShift | internal/indicators/adx.go:101-117 | Adding a constant to all prices leaves the ADX unchanged |
| Adx.ADXIgnoresReflection | internal/indicators/adx.go:108-116 | Turning prices upside down swaps +DM and −DM and leaves the ADX unchanged |
| Adx.ADXIgnoresScale | internal/indicators/adx.go:90-146 | Scaling all prices by a positive factor leaves the ADX unchanged |
| Adx.SmoothAdds | internal/indicators/adx.go:149-170 | Smoothing is superadditive against a bound: series that add up to at most a third stay so |
| Adx.SmoothScales | internal/indicators/adx.go:149-170 | Smoothing is homogeneous |
| Adx.SmoothWithin | internal/indicators/adx.go:149-170 | Smoothing keeps a series within its bounds |
| Adx.SmoothIsZero | internal/indicators/adx.go:149-170 | A smoothed non-negative series is 0 at a bar exactly when it was 0 at every bar up to there |
| Adx.MovementsFitRange | internal/indicators/adx.go:101-117 | The two movements of a bar together never exceed its true range |
| Adx.SmoothWilder | internal/indicators/adx.go:149-170 | The loop fills the array with the smoothed series the laws are about |
| Adx.CalculateADXManual | internal/indicators/adx.go:90-146 | The three smoothed arrays and the index loop compute the specified ADX, 0 for too little data |
| Adx.CalculateADX | internal/indicators/adx.go:35-87 | Each error is reported exactly for its own inputs, in the order of the checks; otherwise the value is the ADX, in (0, 100], and its strength weak below 25, strong below 50, very strong from there on |
| Candles.CoarseningIsMerging | internal/market/coingecko.go:642-684 | Candles of k intervals are what merging adjacent candles of one interval gives (first open, greatest high, least low, last close, summed volume), for any price and volume series |
| Candles.CandlesAreRuns | internal/market/coingecko.go:642-684 | The output is one candle per maximal run of prices in one interval; its open, close, high, low and volume are the first, last, greatest and least price and the total volume of the run |
| CandleCharts.ChartCandles | internal/market/coingecko.go:630-687 | In terms of the chart: the candles split the prices into the maximal runs that fall in one interval of so many minutes, starting at a multiple of it; each has the first, last, greatest and least price of its run and the sum of the volumes at its indices |
| CandleCharts.ChartVolume | internal/market/coingecko.go:676-678 | The candles have the volumes of all indices that have a price, and no others |
| Candles.VolumeConserved | internal/market/coingecko.go:676-678 | The total volume of the candles is the sum of the volumes at indices that have a price |
| Candles.TimestampsIncrease | internal/market/coingecko.go:644-661 | For prices in time order the timestamps are multiples of the interval and strictly increasing |
| Candles.TruncateTwice | internal/market/coingecko.go:644 | Rounding down to a multiple of the interval can be done by way of the interval |
| Candles.ToCandlesticks | internal/market/coingecko.go:630-687 | The pass that keeps the current candle and its interval yields the specified candles for every chart and interval length, also 0 or a negative one |
| Candles.GroupPrices | internal/market/coingecko.go:638-686 | The loop over the points and its last append, for any grouping of times into intervals |
| Candles.AddPoint | internal/market/coingecko.go:642-678 | One turn of the loop takes the step of the specification: a point extends the current candle or starts one |
| Conversation.KeptIsHistory | internal/llm/conversation.go:72-96 | After any run of additions and clears the kept system messages are all those added since the last clear, in order, and the kept others are exactly the last max(1, maxMessages − S) of them, however often the memory was trimmed |
| Conversation.KeptInFigures | internal/llm/conversation.go:312-326 | In figures: of t others beside s system messages the last min(t, max(1, maxMessages − s)) are kept |
| Conversation.TrimmedInOrder | internal/llm/conversation.go:323-326 | Trimming puts the system messages before the others |
| Conversation.TokensInFigures | internal/llm/conversation.go:336-338 | A message counts one token for every four bytes, rounded down |
| Conversation.PartOfOne | internal/llm/conversation.go:304-310 | A message is a system message exactly if its role is system |
| Conversation.PromptIsLongestSuffix | internal/llm/conversation.go:147-200 | The prompt is all system messages followed by the longest suffix of the other messages that there is room for and that fits the token budget |
| Conversation.KeptIsBounded | internal/llm/conversation.go:312-321 | The memory holds at most maxMessages messages, or the system messages and one other when those leave no room |
| Conversation.FittingIsLongest | internal/llm/conversation.go:176-192 | Stopping at the first message from the end that does not fit finds the longest suffix that fits |
| Conversation.TrimmedParts | internal/llm/conversation.go:300-333 | Trimming keeps the system messages and the most recent others, each in order |
| Conversation.ConversationMemory.AddMessage | internal/llm/conversation.go:72-96 | Appends, and trims exactly when the limit is exceeded |
| Conversation.ConversationMemory.TrimMessages | internal/llm/conversation.go:300-333 | Rebuilds the messages as the specification says, keeping at least one other message |
| Conversation.ConversationMemory.GetMessagesForPrompt | internal/llm/conversation.go:147-200 | Its loops, the last of them reversing, build the specified prompt and change nothing |
| Conversation.ConversationMemory.constructor | internal/llm/conversation.go:47-69 | Limits of 0 are replaced by 4000 tokens and 20 messages |
| Hub.NoGapDelivery | cmd/api/websocket.go:82-118 | In every run where clients register once and nothing panics, the broadcasts taken and queued for a registered client are exactly those since its registration, in order and each once, and its channel is open; a removed client got a prefix of them and its channel was closed exactly once; what was written is a prefix |
| Hub.BroadcastIsQueued | cmd/api/websocket.go:104-115 | A broadcast is queued last for every registered client with fewer than 256 items queued, evicts the others with their channel closed, and does not concern anybody else |
| Hub.PongIsQueued | cmd/api/websocket.go:278-282 | A pong is queued last for the client that pinged if fewer than 256 items are queued, and dropped otherwise |
| Hub.OnlyLatePongsPanic | cmd/api/websocket.go:266-283 | While clients register once, a step panics if and only if it answers the ping of a client that has been removed, by sending on its closed channel |
| Hub.LatePongHappens | cmd/api/websocket.go:104-113 | A client that pings while one broadcast more than its queue holds goes out is such a case, for every client and all messages: nothing has panicked before, and the pong does |
| Hub.SecondRegistrationPanics | cmd/api/websocket.go:85-113 | Registering a removed client again makes the next broadcast panic |
| Hub.SentIsPrefix | cmd/api/websocket.go:193-228 | What is written, taken and queued are parts of one stream in order |
| Hub.Hub.BroadcastMessage | cmd/api/websocket.go:104-115 | The hub and its clients take the broadcast step that the laws are about |
| Hub.Hub.SendToAll | cmd/api/websocket.go:106-114 | Every client gets the message once or is evicted with its channel closed because its queue was full, in whatever order they are visited |
| Hub.Hub.UnregisterClient | cmd/api/websocket.go:93-99 | Takes the unregister step of the laws: only the channel of a registered client is closed |
| Hub.Hub.RegisterClient | cmd/api/websocket.go:85-88 | Takes the register step of the laws, whether the client is new or has been registered before |
| Hub.Client.SendOrClose | cmd/api/websocket.go:107-113 | Queues the message if there is room and closes the channel otherwise |
| Hub.Client.SendPong | cmd/api/websocket.go:278-282 | Takes the pong step of the laws: queued, or dropped when the queue is full |
| Hub.Client.WriteQueued | cmd/api/websocket.go:193-228 | One turn of the pump takes one pump step of the laws for every item that was queued, until a write fails, and one that stops it if the frame cannot be closed; a frame is sent exactly if everything worked, and then holds all that was queued, in order |
| Hub.ReceiveAllTakes | cmd/api/websocket.go:217-228 | When every write works, n receptions take and write the first n items of the queue, in order |
| Variants.SortedIsUnique | internal/llm/experiment.go:184-197 | There is one sorted listing of a traffic split, so the order in which the map is walked does not matter |
| Variants.LessIsLexicographic | internal/llm/experiment.go:195-197 | The order of ids is lexicographic |
| Variants.EachVariantGetsItsShare | internal/llm/experiment.go:176-217 | With every variant known and non-negative shares, the number of the 10000 buckets given to a variant is less than one away from 10000 times its traffic if and only if its share ends in time and, for the control of a split below 1, what is left over for it and the rounding of its two ends come to less than a bucket |
| Variants.AllocationIsFair | internal/llm/experiment.go:199-203 | A non-negative share covers less than one bucket more or fewer than 10000 times its traffic if and only if it ends at 1, or what it loses beyond 1 and by the rounding of its start is less than a bucket |
| Variants.SharesWithinOne | internal/llm/experiment.go:95-102 | Shares with a total of at most 1 all end in time |
| Variants.AcceptedSplitIsUnfair | internal/llm/experiment.go:100-102 | The accepted split of 0.5 and 0.505 gives the second share 50 buckets too few |
| Variants.ControlGetsTheRest | internal/llm/experiment.go:216-217 | When the total is below 1 the control is given the missing traffic on top of its own, up to the rounding of three numbers |
| Variants.AcceptedSplitFavoursControl | internal/llm/experiment.go:100-102 | The accepted split of 0.5 for the control and 0.49 gives the control 5100 buckets |
| Variants.GivenIsCount | internal/llm/experiment.go:199-217 | Exactly: a variant is given the buckets its share covers, and the control the uncovered ones as well |
| Variants.AllBucketsAssigned | internal/llm/experiment.go:199-217 | For shares of any sign, covered and uncovered buckets add up to 10000, and none is left uncovered if and only if the shares reach beyond 0.9999 |
| Variants.CoveredOnce | internal/llm/experiment.go:199-203 | For shares of any sign, a bucket is covered by exactly one share if it is within their reach, otherwise by none |
| Variants.SelectionIsCoverage | internal/llm/experiment.go:199-217 | A bucket is given the variant of the share that covers it, and the control if none does |
| Variants.SelectionIsFirst | internal/llm/experiment.go:199-217 | For any split, known variants or not: a bucket is given the known variant of the first share up to which the shares add up to more than its ten-thousandth part, and the control if there is none |
| Variants.FoundIsFirst | internal/llm/experiment.go:208-212 | The variant found for an id is the first of the list that has it, and none only if none has |
| Variants.BeyondOneGetsNothing | internal/llm/experiment.go:100-102 | A share that starts beyond 1 gets no bucket |
| Variants.NoTrafficNoBucket | internal/llm/experiment.go:199-203 | A share without traffic, or with a negative one, gets no bucket |
| Variants.ExperimentManager.SelectVariant | internal/llm/experiment.go:166-218 | Unknown and stopped experiments are refused; otherwise the variant is that of the hash bucket under every sorted listing of the split |
| Variants.ExperimentManager.CreateExperiment | internal/llm/experiment.go:87-117 | Registers the experiment as active if and only if its shares add up to between 0.99 and 1.01 |
| Variants.ExperimentManager.StopExperiment | internal/llm/experiment.go:143-162 | Makes a known experiment inactive and changes nothing else |
| JsonExtract.RoundTrip | internal/llm/client.go:291-338 | An object or array printed with any white space around its structural characters, after prose without opening brackets and before any text, is extracted exactly as printed if and only if its content is balanced in the brackets of its own kind, those inside strings included |
| JsonExtract.CleanRoundTrip | internal/llm/client.go:291-338 | So it is whenever its strings, names and numbers contain no bracket of that kind, however it is printed, although the other kind is not counted |
| JsonExtract.PrintedIsExtracted | internal/llm/client.go:291-338 | Printed without white space such a value is extracted, and no way to print it is shorter |
| JsonExtract.PrintIsShortest | internal/llm/client.go:291-338 | Every text of a value is at least as long as the one without white space |
| JsonExtract.BraceInStringBreaks | internal/llm/client.go:324-335 | Every object whose one string is a closing brace is extracted wrongly, however it is printed |
| JsonExtract.EndsAt | internal/llm/client.go:315-335 | The scan ends at a place if and only if the depth first returns to 0 there |
| JsonExtract.WhatIsExtracted | internal/llm/client.go:297-337 | What is extracted reaches from the first opening bracket to where the brackets of its kind first balance; if they never do it is empty |
| JsonExtract.NothingToExtract | internal/llm/client.go:311-313 | From a text without an opening bracket nothing is extracted |
| JsonExtract.BracketedIsFound | internal/llm/client.go:297-335 | A bracketed text is found whole if and only if what is inside is balanced |
| JsonExtract.PrintIsBalanced | internal/llm/client.go:316-322 | A value with clean texts is balanced in either kind of bracket, however it is printed |
| JsonExtract.ExtractFirstJSONObject | internal/llm/client.go:291-338 | The two scanning loops return the specified part of the trimmed text, or nothing |

## Left out

- Floating-point rounding: real numbers stand for float64 throughout, so sums do not depend on their order.
- Overflow of 64-bit durations and counters, and times outside the range of time.Time.
- SQL, connection pools, logging, metrics, HTTP handlers and configuration: plumbing around the modelled steps.
- Concurrency inside one locked method, and requests to the fallback client that overlap.
- LedgerReloads.ReloadRestores: is about a session with a table of its own; in the methods and in LedgerReloads.After the table holds the rows of all sessions. Entry times are numbered in the order of opening, so two positions are never opened at the same time.
- PositionManager.PositionManager.OnOrderFilled: takes at least one fill and positive quantities, as the exchange reports them; with a total of zero the division has no result over the reals.
- Position fields that take no part: exchange name, stop loss, take profit, reasons, metadata and all times but the order of opening; the FLAT side, which no order opens.
- PaperTrading.Exchange.PlaceOrder: does not persist orders and trades to a database, whose failures are only logged (internal/exchange/mock.go:113-123); all timestamps of one call are one instant.
- OrderCosts.SplittingCostsNoMore: leaves out sales with a slippage cap above the whole price, for which it is false (`SplitSaleMayBringLess`).
- PaperTrading.PlaceMarketOrder: the library breaker around the exchange is taken to be closed.
- PaperTrading.PlacedOrder and Hub.Client keep their changing fields together in one value.
- Fallback.FallbackClient.Complete: CompleteWithRetry, which differs only in how a single model is called, is not modelled.
- RateLimiter.RateLimiter.CleanupOldEntries: one limiter stands for the five that are cleaned alike; a check that still works on an entry after it was deleted and created anew is not modelled.
- RateLimiter.RateLimiter.constructor: limits are not negative, since allocating a log of negative capacity panics.
- Adx.CalculateADX: the extraction of arrays and of the default period from untyped arguments is not modelled.
- Conversation: thoughts, metadata and identities; contents are byte strings.
- Hub: ping timers, deadlines and the text of messages; the line feeds between queued messages of a frame are left out.
- Variants.ExperimentManager.CreateExperiment: adds the shares in the order of their ids and is given the id, which CreateExperiment makes up when it is empty.
- Variants.ExperimentManager.SelectVariant: takes the hash of the key, of which nothing is assumed; the library sort is modelled by insertion; ids are compared character by character; end times and the tracking of decisions are not modelled.
- Variants.EachVariantGetsItsShare: is about shares that are not negative, although a split with negative ones is accepted; of those `CoveredOnce` and `NoTrafficNoBucket` say what they cover. A share of an unknown variant passes its buckets on to the next known one, which is modelled and not counted.
- JsonExtract.ExtractFirstJSONObject: works on characters; text that is not valid UTF-8 and the extraction from code fences are not modelled.
- The Binance exchange, strategies, vaults, notifications, migrations and the remaining indicators, whose arithmetic is in a library: they would add only easy members.

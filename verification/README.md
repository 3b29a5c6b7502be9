# Verification of the trading core

A Dafny model of the stateful core of the trading bot and proofs of what it keeps. Floats are real numbers, clock readings
are parameters that do not go back, and every random draw is a parameter or an arbitrary choice, so each result holds for
all of them. `dafny verify dfyconfig.toml` checks the project.

Classes carry the attributes that the source updates in place, and each method is proved to take them where a function on
plain values says. The theorems are about those functions, over whole runs.

| file | what it models |
|---|---|
| `circuit_breaker.dfy`, `breaker_log.dfy` | the breaker as interleaved admissions and recordings, with calls in flight, and against the log of its runs |
| `order_pipeline.dfy`, `pipeline_log.dfy` | status poller, fill processor, submission and cancellation on shared orders |
| `position_book.dfy` | the engine's position book behind the FIFO bus, as shared objects |
| `position_invariant.dfy`, `position_runs.dfy`, `position_profit.dfy` | when the book is right, over all interleavings, and what it says of profit |
| `idle_fill.dfy`, `idle_runs.dfy` | the same when fills are published on an idle bus only |
| `end_to_end.dfy`, `end_to_end_profit.dfy` | pipeline, bus and book together |
| `paper_account.dfy`, `paper_market.dfy`, `paper_tracker.dfy` | the paper account, its market prices and its profit tracker |
| `paper_safety.dfy`, `paper_cash.dfy` | when its cash can go negative |
| `fill_pricing.dfy`, `pricing_law.dfy`, `book_walk.dfy`, `worst_sale.dfy` | fill prices, slippage and fee tiers; the simulated order book, and the least a sale can bring in |
| `router.dfy`, `routing.dfy` | routing over venues, buys and sells |
| `backpressure.dfy`, `backpressure_runs.dfy` | the bounded priority queue |
| `token_bucket.dfy` | the three token buckets |
| `self_evolver.dfy`, `evolution_law.dfy` | genes, generations, elitism and the hall of fame |
| `volume_profile.dfy` | binning and value area |
| `timestamps.dfy`, `bars.dfy`, `bar_runs.dfy` | two bar aggregators and their two ways to round timestamps |
| `rule_tree.dfy`, `genome_encoder.dfy` | rule trees, their generators and their evaluator |
| `tree_node.dfy`, `tree_surgery.dfy`, `strategy_genome.dfy`, `genome_mutation.dfy` | tree objects, crossover and mutation in place |
| `ordered_dict.dfy`, `stable_sort.dfy`, `arithmetic.dfy`, `roots.dfy` | insertion-ordered dictionaries, stable sorting, real numbers |

## Where the code departs from what is written about it

The model follows the code.

- The breaker counts consecutive failures; its rolling window (circuit_breaker.py:48) decides nothing (`WindowIsIrrelevant`).
- `half_open_max_calls` is described as the successful calls needed to close (circuit_breaker.py:46). It is the number of
  probes let in, and with fewer of them than `success_threshold`, or with calls that end unrecorded, HALF_OPEN can become final
  (`RecoveryTheorem`).
- A poll that finds an order filled while its fill is still queued announces the fill again (`ExactlyOnceIff`), and an
  order that comes back filled from submission is never announced (`FilledAtSubmissionIsSilent`), nor is the filled part
  of an order that is then cancelled (`CancelledIsSilent`), nor a fill of the shared object itself
  (`FilledInPlaceIsSilent`).
- The event for a closed position puts the closed object back into the book (`BookTheorem`, `LostFill`); on an idle bus that
  alone does no harm (`IdleTheorem`). A buy enlarges a short position (`ShortedRun`,
  `ShortMisread`), and a sale that takes a position short is booked in full against the cost of a part (`TooMuchIff`).
- The equity figure is described as cash plus positions; it adds only unrealised profit (`EquityTheorem`).
- The impact model takes more than the whole price from a large enough market sale, and so does a wide spread from the
  bids of the book; the account goes into debt (`CashTheorem`, `DefaultRunIntoDebt`).
- A request for more tokens than the bucket holds waits for ever (`AwaitTheorem`).
- The penalty for running out of bids is added to the price of a sale (`OversellingPays`).
- CRITICAL messages are described as never dropped (backpressure.py:29); `CriticalEvictedIff` and `CriticalRefusedIff` say
  exactly when they are.
- Elites are put into the hall of fame anew in every generation (`ChampionFillsHall`).
- `random_tree(max_depth)` can be one level deeper than `max_depth` (`RandomTree`).
- Insertion gives two nodes one id (`InsertionTheorem`); deletion and subtree mutation can break the typing of a rule
  (`MutationIff`), after which an evaluation can yield a number (`DeletedComparison`).
- Fractional instants just before a boundary at or before the epoch are rounded to different starts by the two aggregators
  (`FloorsAgreeIff`).

## Model

| member | source | states |
|---|---|---|
| `CircuitBreakers.RecoveryTheorem` | src/tradingbot/infrastructure/circuit_breaker.py:157-254 | From every state that interleaved calls can reach, the breaker can get back to CLOSED without `reset` or `trip`, if and only if every call is recorded at its end (no exception type is excluded, and no call ends in an exception outside `Exception`), `half_open_max_calls` is at least 1 and at least `success_threshold`. |
| `CircuitBreakers.NoWedge` | src/tradingbot/infrastructure/circuit_breaker.py:157-188 | Under that condition every reachable HALF_OPEN state admits another call or has a probe of its own episode in flight, stale successes of earlier episodes included. |
| `CircuitBreakers.WedgeRun` | src/tradingbot/infrastructure/circuit_breaker.py:157-254 | Without it there is a run into a HALF_OPEN state with the quota spent and nothing in flight. |
| `CircuitBreakers.WedgedForever` | src/tradingbot/infrastructure/circuit_breaker.py:157-188 | From such a state every run without `reset` or `trip` stays in it and admits nobody. |
| `CircuitBreakers.HalfOpenCloses` | src/tradingbot/infrastructure/circuit_breaker.py:225-231 | The run that closes a HALF_OPEN breaker exists from every state that keeps the invariant, by induction on the successes still missing. |
| `CircuitBreakers.InvRun` | src/tradingbot/infrastructure/circuit_breaker.py:130-188 | Half-open calls never exceed successes plus probes of the current episode in flight; counters stay within their thresholds in every interleaving. |
| `CircuitBreakers.ClosedBelowThreshold` | src/tradingbot/infrastructure/circuit_breaker.py:233-254 | CLOSED implies consecutive failures below the threshold in all runs, exactly when the threshold is positive. |
| `CircuitBreakers.HalfOpenBelowSuccessThreshold` | src/tradingbot/infrastructure/circuit_breaker.py:225-231 | The same for HALF_OPEN, its success count and the success threshold. |
| `CircuitBreakers.EpisodeQuota` | src/tradingbot/infrastructure/circuit_breaker.py:157-176 | However calls interleave, one HALF_OPEN episode admits at most `half_open_max_calls` of them. |
| `CircuitBreakers.OpenHoldsForTimeout` | src/tradingbot/infrastructure/circuit_breaker.py:130-188 | OPEN admits nobody and is left only by `reset` until `recovery_timeout` has passed since the latest opening; after that the next look starts an episode. |
| `CircuitBreakers.OpenedAtIsLastOpening` | src/tradingbot/infrastructure/circuit_breaker.py:233-267 | `_opened_at` of an OPEN breaker is the time of its latest opening, read off the run alone. |
| `CircuitBreakers.WindowIsIrrelevant` | src/tradingbot/infrastructure/circuit_breaker.py:151-153 | Two window lengths give the same runs in everything but the list of failure times. |
| `CircuitBreakers.CircuitBreaker.Transition` | src/tradingbot/infrastructure/circuit_breaker.py:137-149 | The fields after a state change, in place. |
| `CircuitBreakers.CircuitBreaker.MaybeTransition` | src/tradingbot/infrastructure/circuit_breaker.py:130-135 | OPEN turns HALF_OPEN once the timeout has passed. |
| `CircuitBreakers.CircuitBreaker.BeginCall` | src/tradingbot/infrastructure/circuit_breaker.py:157-176 | The locked admission section: new fields and verdict are those of the specification the run theorems are about. |
| `CircuitBreakers.CircuitBreaker.RecordSuccess` | src/tradingbot/infrastructure/circuit_breaker.py:225-231 | The locked recording of a success. |
| `CircuitBreakers.CircuitBreaker.RecordFailure` | src/tradingbot/infrastructure/circuit_breaker.py:233-254 | The locked recording of a failure, excluded ones without effect. |
| `CircuitBreakers.CircuitBreaker.PruneOldFailures` | src/tradingbot/infrastructure/circuit_breaker.py:151-153 | The loop keeps exactly the recent failure times. |
| `CircuitBreakers.CircuitBreaker.Reset` | src/tradingbot/infrastructure/circuit_breaker.py:258-261 | Manual reset. |
| `CircuitBreakers.CircuitBreaker.Trip` | src/tradingbot/infrastructure/circuit_breaker.py:263-267 | Manual trip. |
| `BreakerLogs.PhaseTheorem` | src/tradingbot/infrastructure/circuit_breaker.py:130-267 | Every change of phase in every run, read off its log: a failure opens a CLOSED breaker exactly when it completes the threshold with no success since, and a HALF_OPEN one always; the successes of the episode close it at their threshold; time leads from OPEN to HALF_OPEN; nothing else changes the phase but `reset` and `trip`. |
| `BreakerLogs.OpensIff` | src/tradingbot/infrastructure/circuit_breaker.py:233-254 | Without a trip a CLOSED breaker opens exactly on a failure that is the last of `failure_threshold` in a row. |
| `BreakerLogs.LogTheorem` | src/tradingbot/infrastructure/circuit_breaker.py:157-267 | In every run the counters are those of the log: failures since the last success or reset, failures in all, calls turned away, and for the current HALF_OPEN episode its successes and admissions. |
| `BreakerLogs.AnswerTheorem` | src/tradingbot/infrastructure/circuit_breaker.py:157-176 | Whether a call is admitted, refused or sent to the fallback, from the log alone. |
| `BreakerLogs.TimesTheorem` | src/tradingbot/infrastructure/circuit_breaker.py:151-153 | The list of failure times holds those since the last closing that lie within the window of the latest. |
| `OrderPipelines.ExactlyOnce` | src/tradingbot/engine/order_pipeline.py:290-361 | In every interleaving of poller, processor, submissions and exchange replies in which the order is not detected again while its fill is queued and is not flushed, what is published for it once nothing of it is queued is what the exchange reported, less what submission showed, and nothing while it was not detected; for quantity and commission alike. |
| `OrderPipelines.ExactlyOnceIff` | src/tradingbot/engine/order_pipeline.py:290-361 | For an order the exchange fills completely the published total is right if and only if there was no such second detection. |
| `OrderPipelines.EveryDetectionIsAnnounced` | src/tradingbot/engine/order_pipeline.py:327-361 | Whatever the interleaving, published plus queued is the whole difference once for every detection. |
| `OrderPipelines.DoubleFill` | src/tradingbot/engine/order_pipeline.py:327-361 | A concrete run that publishes a fill of 5 as 10. |
| `OrderPipelines.FilledAtSubmissionIsSilent` | src/tradingbot/engine/order_pipeline.py:341-353 | An order that is FILLED when submission returns is never announced as a fill. |
| `OrderPipelines.CancelledIsSilent` | src/tradingbot/engine/order_pipeline.py:354-361 | An order the exchange ends unfilled leaves the open map exactly when a poll hears of it, and whatever part of it was filled is in no fill and in no record, over every run. |
| `OrderPipelines.FilledInPlaceIsSilent` | src/tradingbot/engine/order_pipeline.py:340-353 | An order whose very object the exchange fills, as the paper adapter does with a pending order (paper_trading.py:453-459), is never announced as filled and never leaves the open map, over every run in which polls are answered with that object or with EXPIRED. |
| `OrderPipelines.AnnouncedStep` | src/tradingbot/engine/order_pipeline.py:290-361 | Processing moves value from queue to bus; only a detection adds to the sum, and it adds report minus record. |
| `OrderPipelines.OrderStep` | src/tradingbot/engine/order_pipeline.py:290-361 | What each atomic section does to the record, the open flag and the queue entries of one order. |
| `OrderPipelines.Order.Apply` | src/tradingbot/engine/order_pipeline.py:304-314 | A fill updates the shared order object in place. |
| `OrderPipelines.OrderPipeline.Track` | src/tradingbot/engine/order_pipeline.py:191-196 | The tail of `submit_signal` adds the order to the open map and announces it. |
| `OrderPipelines.OrderPipeline.ProcessFill` | src/tradingbot/engine/order_pipeline.py:290-325 | One round of the fill processor on the shared objects, open map, queue and bus. |
| `OrderPipelines.OrderPipeline.HandleReply` | src/tradingbot/engine/order_pipeline.py:340-361 | What one reply of the exchange does, be it a fresh object or the tracked one; the order may already have left the open map. |
| `OrderPipelines.OrderPipeline.Cancel` | src/tradingbot/engine/order_pipeline.py:272-284 | A confirmed cancellation, whether or not the exchange hands back the same object. |
| `OrderPipelines.OrderPipeline.DrainFills` | src/tradingbot/engine/order_pipeline.py:129-141 | The flush loop empties the fill queue, losing what was in it. |
| `PipelineLogs.PriceTheorem` | src/tradingbot/engine/order_pipeline.py:344-353 | In every run each fill that is queued or published for an order carries the average price of the exchange's verdict on it. |
| `PipelineLogs.RecordTheorem` | src/tradingbot/engine/order_pipeline.py:304-314 | In every run without a flush the record of an order that the exchange fills shows what it was tracked with and the fills published for it, quantities and commissions added and the price of the last; the fill that completes it is the last it takes up, and then it leaves the open map. |
| `PipelineLogs.NoticeTheorem` | src/tradingbot/engine/order_pipeline.py:354-361 | Every submission, cancellation and rejection is published once, and nothing else as one. |
| `PipelineLogs.CancelTheorem` | src/tradingbot/engine/order_pipeline.py:272-284 | A confirmed cancellation takes the order out of the open map for good and marks the record only where the exchange hands back the order object itself. |
| `PipelineLogs.ClosedStays` | src/tradingbot/engine/order_pipeline.py:290-361 | An order that has left the open map never comes back, and no fill changes its record any more. |
| `PipelineLogs.FlushLoses` | src/tradingbot/engine/order_pipeline.py:129-141 | A flush loses what is queued: without another detection nothing more is announced. |
| `EndToEnd.EndToEndTheorem` | src/tradingbot/engine/async_engine.py:407-446 | In every joint run of pipeline, bus and engine without flush, second detection or fills that can spoil the book: once both queues are empty, the book holds in each symbol the signed sum over its orders of what the exchange reported as filled, less what submission had shown. |
| `EndToEnd.PipeProjects` | src/tradingbot/engine/order_pipeline.py:290-361 | The pipeline's part of a joint run is a run of the pipeline. |
| `EndToEnd.BookProjects` | src/tradingbot/engine/order_pipeline.py:317-317 | The book's part is a run of the book, and the fills it gets are those the pipeline publishes. |
| `EndToEnd.PublishedIsDue` | src/tradingbot/engine/order_pipeline.py:290-361 | Whatever became of an order, what is published for it is what was due, none of its fills being queued. |
| `EndToEnd.NetIsBooked` | src/tradingbot/engine/async_engine.py:407-446 | The net of the published fills is the signed sum, order by order. |
| `EndToEndProfits.ProfitEndToEnd` | src/tradingbot/engine/async_engine.py:407-446 | In every joint run as in `EndToEndTheorem` whose fills are tame, once both queues are empty: a position has realised what its orders were filled for at the prices the exchange reported, plus what is held at its average entry, apart from what a sale that took it short was credited too much. |
| `EndToEndProfits.CashIsReceived` | src/tradingbot/engine/async_engine.py:407-446 | The cash of the published fills is that of the orders, each at the price of its verdict. |
| `PositionRuns.BookTheorem` | src/tradingbot/engine/async_engine.py:407-446 | For every stream of fills: the book shows the net of the handled fills at every moment of every interleaving of publication and handling, if and only if no fill comes to a symbol that is short, none reopens a symbol that has gone flat, and no symbol comes after one whose key starts with its own key. |
| `PositionRuns.TameIsSafe` | src/tradingbot/engine/async_engine.py:335-446 | The safe direction, over all interleavings. |
| `PositionRuns.ReopeningRun` | src/tradingbot/engine/async_engine.py:335-338 | For every stream that reopens a flat symbol, a run in which the stale announcement puts the deleted object back. |
| `PositionRuns.ShadowedRun` | src/tradingbot/engine/async_engine.py:409-411 | For every stream with a shadowed symbol, a run in which its fill lands in another symbol's position. |
| `PositionRuns.ShortedRun` | src/tradingbot/engine/async_engine.py:411-430 | For every stream that goes on with a short symbol, a run after which its position is wrong: the branch for buys adds to the size of a short position, and the one for sales takes from it. |
| `PositionRuns.LostFill` | src/tradingbot/core/events.py:81-106 | A FIFO run of four fills after which the bus is idle, every fill is handled, and half of what was bought is gone. |
| `PositionRuns.FillKeeps` | src/tradingbot/engine/async_engine.py:407-446 | A fill handled in order keeps the book invariant: one object for each symbol, long or short, holding its net, found under its own key. |
| `PositionRuns.RoundTrip` | src/tradingbot/engine/async_engine.py:319-338 | A fill through the bus and back leaves an idle bus, every object listed, and the invariant. |
| `PositionRuns.StaleAnnouncement` | src/tradingbot/engine/async_engine.py:335-338 | An announcement of a flat object makes the book disagree whenever its symbol is held. |
| `IdleRuns.IdleTheorem` | src/tradingbot/engine/async_engine.py:407-446 | For every stream: if no fill is published before the bus is idle, the book is right at every moment of every such run, reopened symbols included, if and only if no fill comes to a symbol that is short, or while the key of another symbol starts with its own and stands in front of it, or, at its symbol's first fill, anywhere. |
| `IdleRuns.FreeIsSafe` | src/tradingbot/engine/async_engine.py:335-446 | The safe direction, and no fill is lost or invented on the way. |
| `IdleRuns.BlockedRun` | src/tradingbot/engine/async_engine.py:409-411 | For every other stream, such a run that goes wrong. |
| `IdleFills.FreeFinds` | src/tradingbot/engine/async_engine.py:409-411 | The scan for a free fill finds its own symbol's entry, or none at all at the first fill. |
| `IdleFills.FreeLands` | src/tradingbot/engine/async_engine.py:407-446 | Handling a free fill leaves a book that agrees at once, and is settled again after its announcement. |
| `IdleRuns.TameIsFree` | src/tradingbot/engine/async_engine.py:335-446 | What is safe at any speed is safe on an idle bus. |
| `PositionProfits.ProfitTheorem` | src/tradingbot/engine/async_engine.py:411-430 | In every interleaving of a tame stream: size times average entry of a position is the average cost of what its fills leave; its realised profit is the cash they brought in plus that cost, and what a sale that took it short was credited too much; and the average entry of a long position lies between the lowest and the highest price bought at. |
| `PositionProfits.TooMuchIff` | src/tradingbot/engine/async_engine.py:419-428 | A sale is credited too much exactly when it takes a long position short at another price than its average cost: the whole fill is booked against it. |
| `PositionProfits.ShortMisread` | src/tradingbot/engine/async_engine.py:411-430 | A fill that comes to a short position: a buy counts as more of the same at the mean price, a sale as if it bought back what it sold, with the profit of that. |
| `PositionBooks.Position.Apply` | src/tradingbot/engine/async_engine.py:411-430 | A fill changes the shared position object in place; tells whether it closed. |
| `PositionBooks.PositionEngine.PublishFill` | src/tradingbot/core/events.py:81-86 | A fill goes to the end of the bus, unless the bus is full. |
| `PositionBooks.PositionEngine.HandleNext` | src/tradingbot/core/events.py:88-106 | One event off the bus and through its handler, on heap objects that queue and dictionary share, does what the value model says. |
| `PositionBooks.PositionEngine.FirstCandidate` | src/tradingbot/engine/async_engine.py:409-411 | The loop finds the first key that starts with the symbol and a colon. |
| `PositionBooks.PositionEngine.ApplyToExisting` | src/tradingbot/engine/async_engine.py:410-433 | The branch for a position that exists, with deletion and announcement. |
| `PositionBooks.PositionEngine.ApplyToNew` | src/tradingbot/engine/async_engine.py:434-446 | The branch that creates, stores and announces a position. |
| `PositionBooks.PositionEngine.Store` | src/tradingbot/engine/async_engine.py:335-338 | Re-installing whatever object an announcement carries. |
| `PaperAccounts.EquityTheorem` | src/tradingbot/exchanges/paper_trading.py:782-788 | `_calculate_equity` is cash plus market value less the cost basis, so it is the true account value exactly while the open positions cost nothing. |
| `PaperAccounts.PositionArithmetic` | src/tradingbot/exchanges/paper_trading.py:713-773 | For any fills, through shorts and flips: signed quantity is the sum of signed fills, and recorded gross P&L is net cash flow plus cost of what is held. |
| `PaperAccounts.MarkToMarket` | src/tradingbot/core/types.py:208-211 | Realised plus unrealised P&L is net cash flow plus signed quantity at the last price. |
| `PaperAccounts.BuyKeepsCash` | src/tradingbot/exchanges/paper_trading.py:516-525 | The balance check covers the commission: a buy it lets through never overdraws. |
| `PaperAccounts.SellKeepsCash` | src/tradingbot/exchanges/paper_trading.py:703-711 | No sale at a given price takes cash out of the account, whatever its size, exactly when the price and what the fee leaves of it do not have opposite signs. |
| `PaperAccounts.ExecutedBalances` | src/tradingbot/exchanges/paper_trading.py:489-580 | One order either changes nothing or keeps the account balanced. |
| `PaperAccounts.RepricedBalances` | src/tradingbot/exchanges/paper_trading.py:775-780 | Marking to new prices keeps the account balanced. |
| `PaperAccounts.LongStaysLong` | src/tradingbot/exchanges/paper_trading.py:713-773 | What the checks let through never turns a long position short. |
| `PaperAccounts.EnhancedPaperTrading.ExecuteOrder` | src/tradingbot/exchanges/paper_trading.py:489-580 | The price of the book, slippage, the two checks, the fee tier and the settlement, in place, and the outcome returned; what `random` says of a partial fill is given. |
| `PaperAccounts.EnhancedPaperTrading.UpdatePrice` | src/tradingbot/exchanges/paper_trading.py:329-334 | The new book of the symbol, and the positions marked to the prices of all books. |
| `PaperAccounts.EnhancedPaperTrading.Settle` | src/tradingbot/exchanges/paper_trading.py:516-580 | Balance check, position, profit record, volume and equity of one fill. |
| `PaperAccounts.EnhancedPaperTrading.ApplyBalanceChange` | src/tradingbot/exchanges/paper_trading.py:703-711 | The cash after a fill. |
| `PaperAccounts.EnhancedPaperTrading.UpdatePosition` | src/tradingbot/exchanges/paper_trading.py:713-773 | The average-cost position and the closing trade after a fill, flips included. |
| `PaperAccounts.EnhancedPaperTrading.CalculateEquity` | src/tradingbot/exchanges/paper_trading.py:782-788 | The loop computes the equity figure that the theorem is about. |
| `PaperAccounts.EnhancedPaperTrading.UpdateUnrealizedPnl` | src/tradingbot/exchanges/paper_trading.py:775-780 | The loop marks exactly the open positions with a known price. |
| `PaperMarkets.ShownTheorem` | src/tradingbot/exchanges/paper_trading.py:775-780 | Over every run an open position shows the price of its own last fill or, if any price update came later, the latest price of its symbol, and the unrealised profit that belongs to it. |
| `PaperMarkets.UpdateShows` | src/tradingbot/exchanges/paper_trading.py:329-334 | A price update is seen at once by every open position of its symbol. |
| `PaperMarkets.MarketEquity` | src/tradingbot/exchanges/paper_trading.py:782-788 | The equity figure is the cash plus the profit of the open positions at the prices that the events give them. |
| `PaperMarkets.ClosedTheorem` | src/tradingbot/exchanges/paper_trading.py:755-765 | A closed position shows no entry price. |
| `PaperTrackers.TrackerTheorem` | src/tradingbot/exchanges/paper_trading.py:203-234 | Over every run the tracker holds what the log says: the sales and their commissions, how often the realised profit rose and fell, and the peak and the greatest fall of equity after a fill. |
| `PaperCash.CashTheorem` | src/tradingbot/exchanges/paper_trading.py:489-620 | No run with orders up to a size ends in debt, whatever the opening balance, the prices and the draws, if and only if no fee can exceed the notional and market sales are safe: while slippage takes less than the whole price (for the impact model, sizes up to (100 / factor) squared), the worst proceeds of the book at that size are not negative; where it takes more, no sale is worth anything. |
| `PaperCash.PlainCashTheorem` | src/tradingbot/exchanges/paper_trading.py:582-606 | Where half the spread and the ticks down to the last level make up less than the price, fees and slippage decide alone: no fee above the notional, and slippage within the price at that size, which for the impact model means factor * factor * size at most 10000. |
| `PaperCash.RunIntoDebt` | src/tradingbot/exchanges/paper_trading.py:489-580 | Any sale that comes to less than nothing after slippage and fee makes a run into debt: a price, a purchase up to the volume of that fee, a price, the sale. |
| `PaperCash.FeeDebt` | src/tradingbot/exchanges/paper_trading.py:608-620 | With a fee above the notional at some volume, a run into debt. |
| `PaperCash.UnsafeMarketSale` | src/tradingbot/exchanges/paper_trading.py:582-606 | Whenever market sales are not safe: a mid price, draws, a size within the bound and its root for which one is priced below zero after slippage. |
| `PaperCash.WorthyBeyond` | src/tradingbot/exchanges/paper_trading.py:161-184 | In a book that is safe up to a size, some larger sale is priced above zero, unless nothing is worth anything. |
| `PaperCash.FeeStays` | src/tradingbot/exchanges/paper_trading.py:608-620 | A fee met at some volume is met at some volume above zero. |
| `PaperCash.DefaultRunIntoDebt` | src/tradingbot/exchanges/paper_trading.py:582-606 | With the default book, balance and fees and the impact model at its default factor, buying and selling 4000000 units at 0.008 ends more than 28000 in debt, whatever the book draws. |
| `PaperSafety.SafeRuns` | src/tradingbot/exchanges/paper_trading.py:489-606 | In a safe configuration in which no purchase is paid for, no run ends in debt. |
| `PaperSafety.AccountConservation` | src/tradingbot/exchanges/paper_trading.py:489-580 | Over every run of executions and price updates: cash plus cost of positions is the opening balance plus realised P&L less commissions on buys; all positions stay long; and in a safe configuration in which no purchase is paid for, cash does not go negative; `CashTheorem` proves that condition exact. |
| `PaperSafety.SellPrice` | src/tradingbot/exchanges/paper_trading.py:582-606 | Where market sales are safe, a sale of any kind and size within the bound is not priced below zero after slippage. |
| `PaperSafety.BuyPrice` | src/tradingbot/exchanges/paper_trading.py:582-606 | Where nobody is paid for a purchase, none is priced below zero after slippage. |
| `WorstSales.SafeBookIff` | src/tradingbot/exchanges/paper_trading.py:161-184 | Whatever mid price and draws, no sale of any size up to the bound is priced below zero, if and only if the worst proceeds at that size, a figure computed from the configuration, are not negative. |
| `WorstSales.WorstIsLowest` | src/tradingbot/exchanges/paper_trading.py:161-184 | No book the draws allow brings in less than the worst one: the lowest quantities on the way down, and all that can come on top of them at the lowest prices. |
| `WorstSales.WorstHappens` | src/tradingbot/exchanges/paper_trading.py:161-184 | Some book the draws allow brings in as little. |
| `WorstSales.NothingGained` | src/tradingbot/exchanges/paper_trading.py:177-181 | With no bid above zero a sale can only gain past the depth, and most in the lowest book. |
| `WorstSales.AboveZeroIsSafe` | src/tradingbot/exchanges/paper_trading.py:95-114 | A book with all bids above zero is safe at every size. |
| `WorstSales.NegativeBidIsUnsafe` | src/tradingbot/exchanges/paper_trading.py:95-114 | A book whose best bid is below zero is safe at none. |
| `FillPricing.SimulateFillPrice` | src/tradingbot/exchanges/paper_trading.py:123-159 | The price of market, limit and other orders, the index error of a book without levels included. |
| `FillPricing.SalesArePriced` | src/tradingbot/exchanges/paper_trading.py:123-159 | In a book `update` builds with every bid above zero, no sale of any kind or size is priced at zero or below. |
| `FillPricing.ApplySlippage` | src/tradingbot/exchanges/paper_trading.py:582-606 | The four slippage models, for market orders alone. |
| `FillPricing.SaleSlipsIff` | src/tradingbot/exchanges/paper_trading.py:582-606 | A market sale slips below zero exactly when the order is too large for the configuration. |
| `FillPricing.GetTieredFee` | src/tradingbot/exchanges/paper_trading.py:608-620 | The loop over the sorted tiers picks the last that the volume has reached. |
| `FillPricing.TierTheorem` | src/tradingbot/exchanges/paper_trading.py:608-620 | That is the listed tier with the highest threshold reached, and the first one listed while none is. |
| `PricingLaws.LimitTheorem` | src/tradingbot/exchanges/paper_trading.py:140-159 | An order with a limit pays no more than the limit and the best ask, and gets no less than the limit and the best bid; its price is one of the two. |
| `PricingLaws.MarketTheorem` | src/tradingbot/exchanges/paper_trading.py:142-145 | A market order walks the side it trades against, and always has a price. |
| `PricingLaws.SlippageTheorem` | src/tradingbot/exchanges/paper_trading.py:582-606 | Slippage takes from a seller what it costs a buyer, in each of the models; without a model, and for all but market orders, there is none. |
| `PricingLaws.MakersAreQueued` | src/tradingbot/exchanges/paper_trading.py:622-648 | A limit order is charged as a maker exactly when it would be queued at the current price; icebergs always are, and no other order is. |
| `PricingLaws.FeeTheorem` | src/tradingbot/exchanges/paper_trading.py:608-620 | The fee is the maker or taker rate, as the order is, of the tier that the volume has earned, or the base rate where there is none. |
| `BookWalks.BuyingIsConvex` | src/tradingbot/exchanges/paper_trading.py:95-114 | For every book `update` can build: the average price of a market buy does not fall with its size and lies between best ask and shortage price. |
| `BookWalks.CostIsConvex` | src/tradingbot/exchanges/paper_trading.py:161-184 | The cost curve of a walk over ascending levels is convex. |
| `BookWalks.AverageRises` | src/tradingbot/exchanges/paper_trading.py:161-184 | Over ascending levels the average price rises with the quantity. |
| `BookWalks.Supported` | src/tradingbot/exchanges/paper_trading.py:161-184 | The marginal price supports the cost curve everywhere. |
| `BookWalks.SellAverageFalls` | src/tradingbot/exchanges/paper_trading.py:161-184 | Up to the depth of the bids the average price of a sale does not rise with its size. |
| `BookWalks.SellAverageIff` | src/tradingbot/exchanges/paper_trading.py:161-184 | Over all sizes it does not rise, exactly when the shortage price is no better than the average of the whole book. |
| `BookWalks.OversellingPays` | src/tradingbot/exchanges/paper_trading.py:177-181 | In books of at most 50 levels selling past the depth raises the average: the penalty is added on both sides. |
| `BookWalks.AllSalesPositiveIff` | src/tradingbot/exchanges/paper_trading.py:161-184 | Sales of every size fetch something exactly when selling the whole book does and the shortage price is not negative. |
| `BookWalks.SalesArePositive` | src/tradingbot/exchanges/paper_trading.py:95-114 | In every book `update` builds with bids above zero, a sale of any size has a positive price. |
| `BookWalks.Shortage` | src/tradingbot/exchanges/paper_trading.py:177-181 | The shortage price matters only past the depth, and then for every unit. |
| `BookWalks.ShortageTheorem` | src/tradingbot/exchanges/paper_trading.py:177-180 | What the book cannot supply costs half a percent of the mid price more than its last level, on either side; without levels a tenth of a percent, against the trader. |
| `BookWalks.PowTheorem` | src/tradingbot/exchanges/paper_trading.py:104-111 | The depth of the book falls by the same factor from level to level. |
| `BookWalks.WalkBook` | src/tradingbot/exchanges/paper_trading.py:161-184 | The loop computes the volume-weighted price of the specification, shortage included. |
| `BookWalks.Update` | src/tradingbot/exchanges/paper_trading.py:95-114 | The loop builds the levels of both sides. |
| `Routings.PlanTheorem` | src/tradingbot/exchanges/multi_exchange.py:68-141 | Routing takes from the quotes that pass by latency, size and price, best first by the price with its fee and equally good ones in the order of their venues, as many as the limit allows: each decision names its quote, trades at its ask within its ask size for a buy and at its bid within its bid size for a sale, with its fee and net price, until nothing more is wanted. |
| `Routings.BestExecution` | src/tradingbot/exchanges/multi_exchange.py:68-141 | The plan delivers what is wanted or all that those quotes have, and no way of spreading as much over all passing quotes within their sizes costs less with fees, or nets more of a sale; all from the fields of the quotes. |
| `Routings.OffersAreQuotes` | src/tradingbot/exchanges/multi_exchange.py:75-82 | What is ranked are the passing quotes, with the price, size and fee of the side. |
| `Routers.RoutingIsOptimal` | src/tradingbot/exchanges/multi_exchange.py:68-141 | Routing delivers the quantity or all that the chosen venues hold, and no allocation of the same total over all usable venues within their sizes is cheaper with fees; for sales none nets more. |
| `Routers.GreedyIsCheapest` | src/tradingbot/exchanges/multi_exchange.py:68-141 | The exchange argument over the sorted offers. |
| `Routers.PlanCostIsGreedy` | src/tradingbot/exchanges/multi_exchange.py:84-104 | What the decisions cost is the cost of filling from the front. |
| `Routers.TotalSort` | src/tradingbot/exchanges/multi_exchange.py:80-82 | Sorting the venues changes neither the size nor the cost of an allocation. |
| `Routers.MultiExchangeRouter.UpdateQuote` | src/tradingbot/exchanges/multi_exchange.py:52-54 | The quote is found under its exchange afterwards, every other exchange keeps its own, and the order of the venues stays. |
| `Routers.MultiExchangeRouter.ValidOffers` | src/tradingbot/exchanges/multi_exchange.py:75-80 | The usable venues of one side in dictionary order. |
| `Routers.MultiExchangeRouter.Route` | src/tradingbot/exchanges/multi_exchange.py:84-141 | The loop over the first `max_exchanges` venues decides what the specification says. |
| `BackpressureRuns.QueueTheorem` | src/tradingbot/infrastructure/backpressure.py:151-249 | In every run: depth within capacity, expendable messages within the high watermark, and exact conservation of messages over enqueued, refused, dequeued, evicted, cleared and waiting. |
| `BackpressureRuns.SheddingIsAnnounced` | src/tradingbot/infrastructure/backpressure.py:170-186 | Not shedding implies depth at most the high watermark in all runs, exactly when that watermark is not negative and the watermarks are in order or capacity or drop level make it so. |
| `BackpressureRuns.GetsAreSorted` | src/tradingbot/infrastructure/backpressure.py:190-211 | With no put between, n gets deliver the first n messages of the stable sort by priority, and the rest keep their order. |
| `BackpressureRuns.GetTakesHead` | src/tradingbot/infrastructure/backpressure.py:190-211 | One get takes the head of the stable sort. |
| `BackpressureRuns.CriticalEvictedIff` | src/tradingbot/infrastructure/backpressure.py:158-168 | A put throws out a waiting CRITICAL message exactly when the queue is full of nothing else and the newcomer is not expendable. |
| `BackpressureRuns.CriticalRefusedIff` | src/tradingbot/infrastructure/backpressure.py:158-177 | Exactly when a CRITICAL message is turned away. |
| `BackpressureRuns.RefusedIff` | src/tradingbot/infrastructure/backpressure.py:151-188 | A message of any priority is turned away exactly when the queue is full and it is expendable or nobody can make room, or when it is expendable and the high watermark is reached. |
| `BackpressureRuns.PutTheorem` | src/tradingbot/infrastructure/backpressure.py:151-188 | What a put leaves, from sizes and priorities: the messages, every counter, and when shedding begins and ends. |
| `BackpressureRuns.DrainTheorem` | src/tradingbot/infrastructure/backpressure.py:217-225 | How many a drain takes from the front, for every bound. |
| `Backpressure.BackpressureQueue.constructor` | src/tradingbot/infrastructure/backpressure.py:109-121 | The watermarks are the fractions of the capacity, truncated towards zero whatever their sign. |
| `Backpressure.BackpressureQueue.Put` | src/tradingbot/infrastructure/backpressure.py:151-188 | All branches of `put` on counters, shedding flag and messages. |
| `Backpressure.BackpressureQueue.Get` | src/tradingbot/infrastructure/backpressure.py:190-211 | The scan removes the first of the most urgent messages. |
| `Backpressure.BackpressureQueue.EvictLowest` | src/tradingbot/infrastructure/backpressure.py:235-249 | The scan removes the first of the least urgent messages. |
| `Backpressure.BackpressureQueue.Drain` | src/tradingbot/infrastructure/backpressure.py:217-225 | Takes messages from the front, as many as the bound says. |
| `Backpressure.BackpressureQueue.Clear` | src/tradingbot/infrastructure/backpressure.py:227-231 | Empties the queue and returns how many there were. |
| `StableSorting.SortIsStable` | src/tradingbot/evolution/self_evolver.py:273-273 | The sort the callers rely on is sorted and keeps equal keys in order; nothing is lost. |
| `StableSorting.SortedIsUnique` | src/tradingbot/evolution/self_evolver.py:273-273 | There is only one such result. |
| `StableSorting.TakeSort` | src/tradingbot/evolution/self_evolver.py:297-298 | Truncating a ranking between batches loses nothing of the final first k. |
| `SelfEvolution.StreamingIsBatch` | src/tradingbot/evolution/self_evolver.py:293-298 | After any generations the hall of fame is the first 20 of the stable descending sort of everybody above 0.5 who ever appeared. |
| `SelfEvolution.BestNeverFalls` | src/tradingbot/evolution/self_evolver.py:264-304 | Feeding each result to the next call, over any number of calls: the best fitness of a later population is never below that of an earlier one, and every member of every population is inside the schema. |
| `SelfEvolution.NextGeneration` | src/tradingbot/evolution/self_evolver.py:264-304 | One call keeps the champion in front, all members inside the schema, and fills the population. |
| `SelfEvolution.HallTheorem` | src/tradingbot/evolution/self_evolver.py:293-298 | After every call of such a run the hall of fame is the first twenty of all good enough members of all populations returned. |
| `SelfEvolution.ElitismKeeps` | src/tradingbot/evolution/self_evolver.py:273-277 | A member of the first population that nobody else ever matches is in every later one. |
| `SelfEvolution.ChampionFillsHall` | src/tradingbot/evolution/self_evolver.py:264-304 | So a champion above 0.5 that nobody else matches fills all twenty places of the hall after twenty calls. |
| `SelfEvolution.MutationStaysAllowed` | src/tradingbot/evolution/self_evolver.py:143-166 | Every mutated gene stays within its specification, whatever the noise. |
| `SelfEvolution.ShippedSchema` | src/tradingbot/evolution/self_evolver.py:59-96 | The shipped schema is satisfiable. |
| `SelfEvolution.MutateGenome` | src/tradingbot/evolution/self_evolver.py:143-166 | The loop over the schema yields exactly the genome the dice say, missing parameters from their defaults, and keeps a genome that is inside the schema there. |
| `SelfEvolution.MutatedInSchema` | src/tradingbot/evolution/self_evolver.py:143-166 | No throw of the dice takes a genome out of the schema. |
| `SelfEvolution.Crossover` | src/tradingbot/evolution/self_evolver.py:168-176 | The child takes each parameter from the parent the dice say, None where it is missing, and stays inside the schema when both parents are. |
| `SelfEvolution.ByFitnessMembers` | src/tradingbot/evolution/self_evolver.py:273-273 | Ranking keeps all members and puts a fittest one in front. |
| `SelfEvolution.SelfEvolver.Offspring` | src/tradingbot/evolution/self_evolver.py:279-291 | After the elite come the children of the births, each with the crossed and mutated genome of its own parents, their ids, and its fitness. |
| `SelfEvolution.SelfEvolver.UpdateHallOfFame` | src/tradingbot/evolution/self_evolver.py:293-298 | Append, sort and truncate in place. |
| `SelfEvolution.SelfEvolver.EvolveGeneration` | src/tradingbot/evolution/self_evolver.py:264-304 | One generation, for any elite fraction: the elite and then the children, as the relation says that the theorems about runs are about; hall of fame updated; fails exactly on an empty population that needs children. |
| `EvolutionLaws.MutationMoves` | src/tradingbot/evolution/self_evolver.py:143-166 | A number moves by the noise and a whole number by the shift as far as their bounds allow, a choice falls on one of the values, and a switch turns over. |
| `EvolutionLaws.AnyChoice` | src/tradingbot/evolution/self_evolver.py:143-166 | Every value of a choice can come. |
| `EvolutionLaws.MissingGenes` | src/tradingbot/evolution/self_evolver.py:143-166 | What a parameter counts as that the genome lacks. |
| `EvolutionLaws.CrossingTakes` | src/tradingbot/evolution/self_evolver.py:168-176 | Crossing takes each gene of the schema from the parent the dice say, and nothing else. |
| `EvolutionLaws.ChildTheorem` | src/tradingbot/evolution/self_evolver.py:279-291 | A child's id, fitness and parents, and each of its genes: the one handed on by the parent the dice say, mutated where they say so. |
| `EvolutionLaws.EliteTheorem` | src/tradingbot/evolution/self_evolver.py:276-276 | The elite is the fraction asked for, rounded down, but at least one and at most all. |
| `EvolutionLaws.PlacesTheorem` | src/tradingbot/evolution/self_evolver.py:279-280 | Children fill the population, and none come where the elite does. |
| `EvolutionLaws.FamousTheorem` | src/tradingbot/evolution/self_evolver.py:294-296 | The famous are the members above a half in fitness, in the order in which they stand. |
| `EvolutionLaws.FamousAlone` | src/tradingbot/evolution/self_evolver.py:294-296 | A fitness of exactly a half is not enough. |
| `VolumeProfiles.ValueAreaIsMinimal` | src/tradingbot/data/trade_aggregator.py:253-265 | The greedy bins hold 70%, and no set of bins that does is smaller, exactly when there is volume at all; ties broken in any way. |
| `VolumeProfiles.FrontIsHeaviest` | src/tradingbot/data/trade_aggregator.py:253-265 | No k bins hold more than the first k in descending order. |
| `VolumeProfiles.OrderHoldsAll` | src/tradingbot/data/trade_aggregator.py:253-265 | All bins together hold the whole volume. |
| `VolumeProfiles.BinBrackets` | src/tradingbot/data/trade_aggregator.py:231-240 | A price lands between the edges of its bin, the highest in the last bin. |
| `VolumeProfiles.BinVolumes` | src/tradingbot/data/trade_aggregator.py:231-247 | The loop gives every bin its own bars, and bin volumes sum to the bars' volume. |
| `VolumeProfiles.ValueArea` | src/tradingbot/data/trade_aggregator.py:253-265 | The loop stops at the shortest front of the order that holds 70%. |
| `TokenBuckets.WindowBound` | src/tradingbot/infrastructure/backpressure.py:74-99 | Over any window of any run, with the rate adjusted at will, granted tokens are at most capacity plus maximal rate times length. |
| `TokenBuckets.WaitingWorksIff` | src/tradingbot/infrastructure/rate_limiter.py:46-51 | Asking for `wait_time` at any instant and acquiring when it is over, with no grant between, always succeeds exactly when the request fits the capacity and either no waiting was needed or the rate is positive and not below the divisor's floor; it divides by zero exactly when it must wait at no rate and no floor. |
| `TokenBuckets.WaitIsLeast` | src/tradingbot/infrastructure/rate_limiter.py:46-51 | At no moment before the wait is over is the request granted, where the rate is not below the floor. |
| `TokenBuckets.RateTheorem` | src/tradingbot/infrastructure/backpressure.py:92-99 | A bucket begins full at its highest rate, and its rate always divides the range as the pressure reported last does. |
| `TokenBuckets.AwaitTheorem` | src/tradingbot/exchanges/base_connector.py:119-136 | The waiting acquire with nobody interfering: a request within the capacity is granted at once or after one sleep, one above it is refused for as long as the loop runs, and a bucket of no rate raises when it should wait. |
| `TokenBuckets.Starvation` | src/tradingbot/exchanges/base_connector.py:119-136 | A request that fits can be kept waiting through any number of tries, each made when its sleep is over, by requests of any smaller size. |
| `TokenBuckets.RunBudget` | src/tradingbot/infrastructure/backpressure.py:74-85 | Tokens granted and left never exceed what was there and what time added, over every run of competing acquires. |
| `TokenBuckets.RateBounds` | src/tradingbot/infrastructure/backpressure.py:92-99 | Pressure moves the rate monotonically between its limits. |
| `TokenBuckets.RateLimiter.Acquire` | src/tradingbot/infrastructure/rate_limiter.py:34-44 | Refill, cap and spend in place. |
| `TokenBuckets.RateLimiter.AcquireWaiting` | src/tradingbot/exchanges/base_connector.py:119-130 | The loop of refill, attempt and sleep, by the clock readings it gets. |
| `TokenBuckets.RateLimiter.WaitFor` | src/tradingbot/infrastructure/backpressure.py:87-90 | The wait, the division by zero included. |
| `TokenBuckets.RateLimiter.AdjustForPressure` | src/tradingbot/infrastructure/backpressure.py:92-99 | The new rate; the tokens are untouched. |
| `Timestamps.FloorsAgreeIff` | src/tradingbot/engine/data_feed.py:185-188 | The two `_floor_timestamp` functions agree on an instant exactly when it is not a fractional one just before a boundary at or before the epoch. |
| `Timestamps.FloorsRise` | src/tradingbot/data/trade_aggregator.py:283-288 | Later instants never have earlier floors, for both. |
| `BarRuns.FeedTheorem` | src/tradingbot/engine/data_feed.py:139-182 | In any mix of symbols, exchanges and timeframes, the bars made for one key whose ticks are in time order, returned and partial, are the groups of its ticks by floored start. |
| `BarRuns.TradeTheorem` | src/tradingbot/data/trade_aggregator.py:52-125 | The same for `aggregate_time_bar`, weighted price included, for a symbol with one exchange and timeframe. |
| `BarRuns.AggregatorsAgreeIff` | src/tradingbot/engine/data_feed.py:139-182 | Given the same ticks of one key the two implementations complete the same bars if and only if no tick falls into an earlier interval than one before it. |
| `BarRuns.StreamsAgreeIff` | src/tradingbot/data/trade_aggregator.py:82-84 | Closing on any other start and closing on a later start agree exactly on streams that never go back. |
| `BarRuns.StreamingIsBatch` | src/tradingbot/data/trade_aggregator.py:52-125 | Closed bars and the open one are one group for each start, in order: open first, close last, extremes, sums, count. |
| `BarRuns.KeysAreIndependent` | src/tradingbot/engine/data_feed.py:145-148 | A key fares in any mixed run as if its ticks were alone. |
| `BarRuns.VwapInRange` | src/tradingbot/data/trade_aggregator.py:97-97 | The weighted price of a group lies between its low and high as soon as something was traded, and is 0 before. |
| `BarRuns.TicksFollowBar` | src/tradingbot/data/trade_aggregator.py:62-125 | In every run, late ticks and mixed timeframes included, the current bar is the group of the stored ticks. |
| `BarRuns.TicksFollowBarIff` | src/tradingbot/data/trade_aggregator.py:79-83 | Unless a timeframe of no length meets a symbol with a bar: then exactly, the stored tick is one the bar does not know. |
| `Bars.BarAggregator.ProcessTick` | src/tradingbot/engine/data_feed.py:139-182 | The dictionary and the returned bar after one tick, all branches. |
| `Bars.TradeAggregator.AggregateTimeBar` | src/tradingbot/data/trade_aggregator.py:52-125 | The three dictionaries and the outcome after one tick, the division by zero included; other symbols untouched. |
| `RuleTrees.RandomTree` | src/tradingbot/genome/rule_tree.py:215-232 | Every tree it can make is correctly typed, has drawn leaves only, and depth at most the maximum plus one. |
| `RuleTrees.RandomLogical` | src/tradingbot/genome/rule_tree.py:197-212 | The same for logical nodes; a comparison exactly when no depth is left. |
| `RuleTrees.RandomComparison` | src/tradingbot/genome/rule_tree.py:188-194 | A comparison of two values, of depth one. |
| `RuleTrees.RandomValue` | src/tradingbot/genome/rule_tree.py:175-185 | A leaf of a drawn kind; cross-asset and meta nodes never occur. |
| `RuleTrees.RandomIndicator` | src/tradingbot/genome/rule_tree.py:119-160 | An indicator leaf with exactly the parameters listed for its kind, each with one of the values listed. |
| `GenomeEncoders.EvalTheorem` | src/tradingbot/genome/genome_encoder.py:73-178 | On every correctly typed rule the evaluator returns None exactly when some node is a cross or a leaf the context does not know, and otherwise the boolean that plain two-valued logic gives. |
| `GenomeEncoders.GrownRules` | src/tradingbot/genome/genome_encoder.py:73-178 | So it does on every tree the generators make, in every context, without raising. |
| `GenomeEncoders.GrownIsClean` | src/tradingbot/genome/genome_encoder.py:144-160 | No look-up of a generated tree can raise. |
| `GenomeEncoders.ComparisonLaws` | src/tradingbot/genome/genome_encoder.py:94-107 | Comparisons evaluate as those of an order: monotone in the left number, GTE denies LT and LTE denies GT, GT turned round is LT, and EQ means nearer than 1e-10; crosses never have a value. |
| `GenomeEncoders.LeavesAreApart` | src/tradingbot/genome/genome_encoder.py:113-170 | No leaf reads the entry of another: same outcome in every context means same kind and same parameters, symbols up to slashes. |
| `GenomeEncoders.LeafFinds` | src/tradingbot/genome/genome_encoder.py:113-170 | A look-up raises exactly where a pair's symbol is not text; otherwise it gives what the context holds under the leaf's key. |
| `GenomeEncoders.UsualParams` | src/tradingbot/genome/genome_encoder.py:130-163 | A leaf that lacks a parameter reads what it would with the usual one. |
| `GenomeEncoders.Coercions` | src/tradingbot/genome/genome_encoder.py:78-107 | In an ill-typed tree a number counts as true unless it is zero, and a verdict counts as one or zero. |
| `GenomeEncoders.MissingOperands` | src/tradingbot/genome/genome_encoder.py:78-98 | A junction without children raises; any other operator that lacks an operand has no value. |
| `TreeNodes.TreeNode.constructor` | src/tradingbot/genome/rule_tree.py:23-29 | The fields of a new node. |
| `TreeNodes.FromDict` | src/tradingbot/genome/rule_tree.py:51-59 | New, pairwise different objects that stand for the given tree, ids kept. |
| `TreeNodes.ToDict` | src/tradingbot/genome/rule_tree.py:42-49 | Reads back exactly the tree the objects stand for, so `clone` is an exact copy. |
| `TreeNodes.CollectNodes` | src/tradingbot/genome/rule_tree.py:64-69 | The objects of the tree in pre-order. |
| `TreeNodes.CollectedStands` | src/tradingbot/genome/rule_tree.py:64-69 | The k-th collected object stands for the k-th node in pre-order. |
| `StrategyGenomes.CrossTrees` | src/tradingbot/genome/strategy_genome.py:41-66 | Crossover yields the first parent with the first hit in every node replaced by a copy of the chosen subtree of the second, for some choice of non-root nodes; or a parent if one has no subtree. |
| `StrategyGenomes.ReplaceHits` | src/tradingbot/genome/strategy_genome.py:57-61 | The in-place loop over the pre-order snapshot leaves every node of it edited once, each hit with a clone of its own. |
| `StrategyGenomes.ReplaceChild` | src/tradingbot/genome/strategy_genome.py:58-61 | The inner loop replaces the first child with the id, and only it. |
| `StrategyGenomes.LoopGrafts` | src/tradingbot/genome/strategy_genome.py:56-63 | The objects after the loop stand for the grafted tree, although replaced nodes stay in the snapshot and clones are not in it. |
| `TreeSurgery.CrossoverTheorem` | src/tradingbot/genome/strategy_genome.py:41-66 | With unique ids in the first parent exactly the chosen subtree is exchanged where it stands; size is |A| - |cut| + |graft|, depth at most depth(A) + depth(B) - 1, and ids stay unique exactly when the graft's are unique and disjoint from what remains. |
| `TreeSurgery.CrossoverTypingIff` | src/tradingbot/genome/strategy_genome.py:41-66 | The child of two correctly typed rules is correctly typed exactly when a rule came for a rule or a value for a value. |
| `TreeSurgery.GraftTheorem` | src/tradingbot/genome/strategy_genome.py:56-61 | Ids and size whenever the chosen id is unique below the root. |
| `TreeSurgery.GraftIsReplace` | src/tradingbot/genome/strategy_genome.py:56-61 | The loop's result is replacement at one path. |
| `TreeSurgery.GraftIds` | src/tradingbot/genome/strategy_genome.py:56-61 | Conservation of ids for every tree: what results and what is cut is what was there and one graft for every cut. |
| `TreeSurgery.CrossoverDepth` | src/tradingbot/genome/strategy_genome.py:51-61 | The depth bound, ids unique or not. |
| `TreeSurgery.SelfCrossIff` | src/tradingbot/genome/strategy_genome.py:41-66 | Crossing a tree with itself keeps ids unique exactly when the graft comes from inside the part it replaces. |
| `TreeSurgery.DuplicateCuts` | src/tradingbot/genome/strategy_genome.py:57-61 | With a shared id under two children both occurrences are replaced. |
| `GenomeMutations.MutationIff` | src/tradingbot/genome/strategy_genome.py:140-199 | A mutation of a correctly typed rule is correctly typed, unless it deletes or regrows below a comparison at the root: then never. |
| `GenomeMutations.MutantsStayTyped` | src/tradingbot/genome/strategy_genome.py:140-165 | Point and node mutation keep the typing, at whatever node. |
| `GenomeMutations.RelabelTyping` | src/tradingbot/genome/strategy_genome.py:156-165 | Any change of label within a sort keeps it. |
| `GenomeMutations.InsertionTheorem` | src/tradingbot/genome/strategy_genome.py:177-187 | Insertion keeps the typing, adds one level, and always makes two ids equal. |
| `GenomeMutations.DeletionIff` | src/tradingbot/genome/strategy_genome.py:190-199 | Deletion keeps the typing exactly at a logical root. |
| `GenomeMutations.DeletedComparison` | src/tradingbot/genome/strategy_genome.py:190-199 | After a deletion below a comparison the tree never evaluates to a boolean. |
| `GenomeMutations.MutantsKeep` | src/tradingbot/genome/strategy_genome.py:140-165 | What point and node mutation leave alone: everything but one period or constant, or the kind within its sort; a new period is at least two. |
| `GenomeMutations.MutantMoves` | src/tradingbot/genome/strategy_genome.py:140-153 | A whole period moves by exactly a whole noise, from two on; a missing one counts as 20 for EMA and SMA and as 14 for the others; a constant moves by exactly the noise. |
| `GenomeMutations.ShapesKept` | src/tradingbot/genome/strategy_genome.py:168-199 | What insertion, deletion and subtree mutation keep: the id and, but for deletion, the root's own value and parameters, and every other child. |
| `GenomeMutations.SubtreeIff` | src/tradingbot/genome/strategy_genome.py:168-174 | Subtree mutation keeps the typing exactly at a logical root. |
| `GenomeMutations.MutateTree` | src/tradingbot/genome/strategy_genome.py:101-119 | One operator is drawn and applied in place; it raises only where a period parameter is text. Holds for trees no two nodes of which share a `params` dictionary. |
| `GenomeMutations.PointMutate` | src/tradingbot/genome/strategy_genome.py:140-153 | One node's period moves by the noise, rounded down and kept at two or more, or its constant moves by it; all other nodes stay, unless they share its `params` dictionary, which is not modelled. |
| `GenomeMutations.NodeMutate` | src/tradingbot/genome/strategy_genome.py:156-165 | One inequality or junction changes into another; all else stays. |
| `GenomeMutations.SubtreeMutate` | src/tradingbot/genome/strategy_genome.py:168-174 | One child of the root gives way to a random rule within the depth asked plus one. |
| `GenomeMutations.InsertionMutate` | src/tradingbot/genome/strategy_genome.py:177-187 | The root becomes a junction of a clone of the tree and a new comparison. |
| `GenomeMutations.DeletionMutate` | src/tradingbot/genome/strategy_genome.py:190-199 | The root takes over everything of one child but its id. |
| `GenomeMutations.RelabelStands` | src/tradingbot/genome/strategy_genome.py:140-165 | Writing to one collected object changes exactly that node of the tree. |

## Left out

- Rounding of floats, NaN and overflow: arithmetic is over real numbers.
- Exchange clients, servers, databases, credentials, logging and metrics: the exchange appears as replies that are parameters.
- Threads and asyncio as such: a locked section, or the code between two awaits, is one step.
- `CircuitBreaker.guard`, the registry of breakers, durations and the racy `_total_calls` counter.
- `submit_signal` before tracking (risk check, size clamp, validation, routing to an exchange), and the failures it catches.
- OrderPipelines.OrderPipeline.Track: requires an id never tracked before; the source would overwrite the older order.
- Bus subscribers other than the engine's own, and exceptions in handlers; runs of the position book assume the bus has room, which `PublishFill` itself does not.
- The position reconciliation loop, which overwrites the book from the exchange.
- PositionRuns.BookTheorem: speaks of fills of positive quantity.
- OrderPipelines.ExactlyOnce: an exchange has one terminal answer for an order; one that changes its mind is not modelled.
- The draw of partial fills in paper trading: the filled quantity is a parameter. `math.sqrt` is one too, with the property that defines it.
- PaperSafety.AccountConservation: speaks of runs whose fills are not of negative size; for orders of negative size the impact model raises.
- PaperCash.CashTheorem: requires that a book has a level (without one, all but market orders raise), that its depth decays by a positive factor, that mid and limit prices are above zero, that no purchase is paid for (`Costly`: a spread above -20000, slippage and the first fee of at least -100%), and that some taker fee is not exactly the notional.
- When pending limit and stop orders in paper trading are triggered (`_queue_pending`, `_check_pending_orders`): an order may be executed at any time.
- Position objects of the paper account as shared objects: they are values in the dictionary, so aliasing is not captured.
- `RateLimiter` with its map of endpoints and backoff, and the fairness of its locks.
- `LoadShedder`: the larger of two ratios, which sets the pressure; the pressure is a parameter here.
- Backpressure.BackpressureQueue.Get: the wait on an empty queue, None after a timeout, and the order of waiting threads are not modelled; neither is `peek`.
- SelfEvolution.MutateGenome: requires genes that the operator can work on; for others the source raises a TypeError.
- SelfEvolution.SelfEvolver.EvolveGeneration: requires members inside the schema; outside it a mutation may raise.
- EndToEnd.EndToEndTheorem: symbol and side of an order are fixed, and the events of the pipeline other than fills pass the bus without effect on the book.
- The odds of a tournament: a parent is any member; the backtest behind a fitness value.
- A volume profile whose bars share one price, and the point of control.
- `aggregate_volume_bar` and `compute_vwap`; the volume bars share the dictionaries of the time bars, which the model gives to time bars alone.
- Time zones: the two aggregators attach different ones to the same start.
- The formatting of context keys into strings: keys are kept in parts, so two different parts never collide.
- Sharing of `params` dictionaries between a node and its clone: parameters are values.
- GenomeMutations.PointMutate: the rounding of a mutated constant to cents is not modelled.
- TreeNodes.FromDict: every node has an id; the source makes one up where the dictionary has none.
- RuleTrees.RandomTree: which trees can occur is bounded, how likely they are is not modelled.
- The risk parameters of a genome, and the signal made from an evaluation.

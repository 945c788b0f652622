# A verified model of the trading agent's core

This project models the parts of the agent that keep state or move money, and proves what they keep:

- **Orders and brackets.** `Orders.dfy` gives every operation of the executor as a function on a table of
  orders: fills, bracket children, placements, cancellations, expiry, and one visit of the reconcile pass.
  `Executor.dfy` is the executor itself, a heap of `Order` objects keyed by id that its methods mutate in
  place; every method is proved to follow the function of the same operation, including the pass that cancels
  siblings while it walks a snapshot. `Passes.dfy` shows that a whole pass (and each sweep) is a run of single
  actions, so what `OrderInvariants.dfy` and `OrderRuns.dfy` prove of every run of actions, in any interleaving
  of placing, visiting, cancelling, closing and expiring, holds of every pass. Live answers of the exchange, the
  clock, quotes and what other tasks do meanwhile are arbitrary inputs. `Outcomes.dfy`, `LiveAnswers.dfy`,
  `Cancelling.dfy` and `Expiry.dfy` say what single operations come to, order by order; `Births.dfy`, `Ages.dfy` and
  `LateArming.dfy` what every reachable table is like; `Directions.dfy` and `Mirror.dfy` relate YES and NO.
  `Oversell.dfy` says exactly when brackets can sell more than was bought, and `Stakes.dfy` when an exit sells what its
  row books. `Sweeps.dfy` has the continuations of a table, by whole passes and by actions of other tasks; over them
  `Overtake.dfy`, `LiveOvertake.dfy`, `DearPasses.dfy`, `PaperOvertake.dfy` and `TakeProfits.dfy` say exactly when a
  take-profit can still lose.
- **Fills.** `FillLedger.dfy` is the arithmetic of one order, `Schedules.dfy` gives the exact fill after any number
  of passes for every size and ratio, and `EntryFills.dfy` (with `Touches.dfy`, on what an action leaves alone)
  proves that the entries of the table follow that schedule in every run.
- **The duplicate gate** (`Dedup.dfy`, and over runs of the executor `GatedRuns.dfy`) and **the book walk**
  (`Slippage.dfy`).
- **Wallet routing** (`Wallets.dfy`) and **batched cross-market signals** (`CrossSignals.dfy`).
- **P&L**: the trades table (`Tracker.dfy`), the glue from order events to it (`Lifecycle.dfy`) and the report
  (`Metrics.dfy`). `Desk.dfy` runs the order table and the trades table together, from nothing, through any number
  of placements and booked passes; `BracketExits.dfy` follows an exit from its trigger to the row it closes,
  `Reports.dfy` ties the report to what the passes reported, `Fees.dfy` says what a trade is charged,
  `HandCloses.dfy` adds closing trades by hand, and `LosingRun.dfy` is one whole losing run.
- **Guards with time**: `CircuitBreaker.dfy`, `RateLimiter.dfy`, `TtlCache.dfy`, `TrailingStop.dfy`. The clock is
  an argument of each operation; theorems about runs say what they ask of it.
- **Sizing and drawdown**: `Sizer.dfy`, `Portfolio.dfy`, `Drawdown.dfy`.

Money, sizes, prices and times are exact reals. `Rounding.dfy` has Python's `round` (half to even), used exactly
where the code rounds: eight places in the fill ledger, two in the slippage estimate and the sizer, four in the
trailing stop. `StableSort.dfy` is the stable sort behind `sorted`. Fresh ids come from a counter.

Where the code is an object that updates its fields, the model is a class whose methods are proved against a
function of the old state; loops are loops with invariants. The lemmas are about those functions.

## Where the code does less than one would expect

Each of these is a theorem with the exact condition; what it asks of its inputs is under "Left out":

- A bracket can sell more than its entry bought, but only if `partial_fill_ratio` is so small that a first
  partial fill of a minimal order rounds to nothing at eight places (`Oversell.OversellExactly`; the witness is a
  placement and two whole passes, `Oversell.DustOversells`). The filled size is then zero, and children are armed
  with the full order size (`src/polymarket_agent/execution/executor.py:462`).
- A paper entry is completed by enough passes only if its step exceeds half of 1e-8 (`Schedules.CompletesExactly`).
- Passes numbering at least one over the ratio complete a paper entry if and only if that many *rounded* steps leave
  at most one unit of the size (`Schedules.EnoughPassesComplete`). With a ratio of 1/7, seven passes leave 2e-8 of an
  entry of size one unfilled (`Schedules.SevenSeventhsFallShort`).
- A take-profit can close its trade at a loss: fills after the first arming move the average, and the trigger is not
  moved with it. Let `top` be the highest price of any fill to come. Over all continuations by whole passes and other
  tasks, an entry can lose if and only if its average is above the trigger already, filled in whole or in part, or can
  still get there. An entry that has ended, or is not reconciled, cannot (`PaperOvertake.IdleSafeExactly`). An open
  live entry can if and only if filling the rest at `top` brings it there (`LiveOvertake.GridSafeExactly`). An open
  paper entry can if and only if passes at the highest price it accepts do (`PaperOvertake.PaperSafeExactly`), which
  at most twice the steps of its size and three passes decide (`DearPasses.DearIsDecided`), and for steps on the grid
  a closed form (`PaperOvertake.GridPaperSafeExactly`). In each case a row closed at a gross loss is booked, and in no
  other (`TakeProfits.LossesAreBooked`). A whole paper run from an empty table does it
  (`LosingRun.TakeProfitBooksLoss`).
- A paper entry that fills again without completing does not resize its children: an exit then sells less than the
  stake of its row (`Stakes.MatchedExactly`, `Stakes.SoldIsStakeExactly`). Live entries are resized by every answer
  (`Stakes.LiveMatchedStays`).
- An exchange that reports less than half of 1e-8 more than is booked moves the average at every poll and fills
  nothing, since only the filled size is rounded. With such reports an open live entry with anything left can lose
  whenever `top` is above the trigger (`LiveOvertake.AnySafeExactly`).
- Closing a trade by hand is not reported: what was reported is what the table would have realised without it
  (`HandCloses.ClosedExactly`), and what the table has realised differs from it by what those closes changed, row by
  row (`HandCloses.ReportedGap`).
- A visit whose quote has no midpoint takes the entry's limit for a YES price. A NO entry is then judged, and filled, at
  one less its limit (`Directions.FallbackTurnsLimit`); otherwise NO is exactly YES in the mirror
  (`Mirror.RunIsMirrored`, `Mirror.MidpointIsNeeded`).
- The late arming at the end of a visit never has anything to do (`LateArming.LateArmingIsIdle`).
- The wallet bound holds of every wallet that was ever picked. It holds of wallets that were never picked only
  under the condition of `Wallets.EveryWalletExactly`, which can fail (`Wallets.FreshCanExceed`).
- CLOSED means "count below the threshold" only for thresholds of at least one
  (`CircuitBreaker.CountTellsExactly`).
- The rate limiter stamps its refill before it sleeps, so a sleep is counted twice: the bound has a factor of two
  and is attained (`RateLimiter.BoundIsAttained`).
- The buy and sell sides of the report add up to the whole only if every closed row is YES or NO
  (`Metrics.SidesAddUp`).

In `slippage.py` the field `total_depth_usdc` is documented as depth but is the sum of price times size; the
model follows the code.

## Model

| member | source | states |
|---|---|---|
| Executor.Order.ApplyFill | src/polymarket_agent/execution/executor.py:386-415 | In-place fill of an order equals the ledger function: capped at the remainder, weighted average, rounding to eight places, snap of the last unit, status |
| OrderInvariants.FillKeepsLedger | src/polymarket_agent/execution/executor.py:386-415 | Any fill keeps the size ledger (grid, bound by size, remainder rounded or snapped), never shrinks the filled size, and leaves a complete order untouched |
| OrderInvariants.FillWhole | src/polymarket_agent/execution/executor.py:386-415 | Filling an untouched order for its whole size completes it at that price |
| FillLedger.FillsKeepLedger | src/polymarket_agent/execution/executor.py:386-415 | The ledger holds after every sequence of fills, of any sizes and prices |
| FillLedger.LedgerAddsUp | src/polymarket_agent/execution/executor.py:407-414 | After any fills, filled plus remaining is the size up to the rounding and the snap; on the grid exactly, or one unit short once complete |
| FillLedger.AverageIsWeightedMean | src/polymarket_agent/execution/executor.py:400-407 | After any fills the average is the size-weighted mean of what was taken, up to half a unit of rounding per fill |
| FillLedger.AverageIsExactOnGrid | src/polymarket_agent/execution/executor.py:400-407 | With sizes on the 1e-8 grid that mean is exact |
| FillLedger.AverageWithinTolerance | src/polymarket_agent/execution/executor.py:907-934 | No sequence of acceptable passes moves the average above limit plus tolerance |
| Schedules.StepRounds | src/polymarket_agent/execution/executor.py:400-414 | Multiples of a rounded step lie on the 1e-8 grid and one more step rounds to the next of them: half units do not drift |
| Schedules.PassesFill | src/polymarket_agent/execution/executor.py:907-934 | For every size and ratio, after k acceptable passes: complete if and only if k rounded steps leave at most a unit; before that filled is exactly k rounded steps; and a complete entry holds what the completing pass filled |
| Schedules.PassesTrack | src/polymarket_agent/execution/executor.py:907-934 | For every size and ratio the fill after k passes is within k+3 half units of min(size, k*ratio*size) |
| Schedules.EnoughPassesComplete | src/polymarket_agent/execution/executor.py:907-934 | At least 1/ratio passes complete an entry if and only if that many rounded steps leave at most a unit, and always when the step is not rounded down |
| Schedules.SevenSeventhsFallShort | src/polymarket_agent/execution/executor.py:907-934 | Size 1 and ratio 1/7: seven passes leave 0.99999998 filled, 2e-8 remaining and the entry open |
| Schedules.DustNeverFills | src/polymarket_agent/execution/executor.py:386-415 | A step of at most half a unit is rounded away every time: the entry never fills |
| Schedules.CompletesExactly | src/polymarket_agent/execution/executor.py:907-934 | Some number of acceptable passes completes a paper entry if and only if its step exceeds half a unit |
| Touches.OthersLeaveAlone | src/polymarket_agent/execution/executor.py:386-1109 | An action about another order, or about none, leaves the size, fill, average and status of every entry as they are |
| Touches.FillsAreReported | src/polymarket_agent/execution/executor.py:897-1109 | Whatever an action changes in the fill of an entry, it reports an event of that entry |
| EntryFills.RunFollowsOffers | src/polymarket_agent/execution/executor.py:897-947 | Over any run that does not cancel it, a paper entry is exactly as full as the passes at the acceptable prices it was visited with make it |
| EntryFills.PassesFollow | src/polymarket_agent/execution/executor.py:893-1037 | Consecutive passes over the whole table fill a working paper entry once each, whatever else the table holds and other tasks do |
| EntryFills.ReconciledFill | src/polymarket_agent/execution/executor.py:893-1037 | The schedule in the executor table: after k reconcile passes with acceptable quotes an untouched paper entry is on its exact schedule, and its average is within the tolerance |
| Executor.OrderExecutor.SyncChildSizes | src/polymarket_agent/execution/executor.py:422-429 | Resizes exactly the armed children of the list, in place |
| Executor.OrderExecutor.ArmBracketOrders | src/polymarket_agent/execution/executor.py:431-540 | In-place arming equals the table function: refresh of an existing bracket, or two fresh children; other orders keep their identity |
| Executor.OrderExecutor.CreateBracket | src/polymarket_agent/execution/executor.py:460-540 | First arming: a take-profit and a stop-loss child in a fresh OCO group, linked with the parent |
| OrderInvariants.CreateChildrenKeeps | src/polymarket_agent/execution/executor.py:431-540 | First arming keeps every link, group and ledger, fills nothing, and covers the children once the entry has a fill |
| OrderInvariants.ArmKeeps | src/polymarket_agent/execution/executor.py:431-540 | Arming or re-arming keeps the invariant, and coverage whenever the entry has a fill |
| OrderInvariants.SyncChildrenKeeps | src/polymarket_agent/execution/executor.py:422-429 | Resizing children to a covered size keeps the invariant and coverage |
| Executor.OrderExecutor.CheckBook | src/polymarket_agent/execution/executor.py:587-601 | The slippage gate of a live placement: open without a two-sided book, else the estimate within the limit |
| Executor.BookGateExactly | src/polymarket_agent/execution/executor.py:587-601 | With a positive midpoint a placement passes exactly if in a dry run, or if the asks cover it at a cost above its value at the midpoint by no more than the configured basis points, up to rounding; without a two-sided book it passes |
| Executor.OrderExecutor.PassGate | src/polymarket_agent/execution/executor.py:328-346 | The duplicate gate on the mutable cache equals its function |
| Executor.OrderExecutor.PlaceOrder | src/polymarket_agent/execution/executor.py:564-646 | A placement is refused without a trace, or stopped by the gate, or adds exactly the requested entry and fills it on paper as configured |
| OrderRuns.PlaceKeeps | src/polymarket_agent/execution/executor.py:564-646 | A placement adds one entry, described by the request, and keeps the invariant and coverage |
| Executor.OrderExecutor.ClosePositionOrder | src/polymarket_agent/execution/executor.py:806-857 | A closing order is refused for a bad price or size, else stored and filled on paper |
| OrderRuns.CloseKeeps | src/polymarket_agent/execution/executor.py:806-857 | Closing orders keep the invariant and fill no child |
| Executor.OrderExecutor.CancelOne | src/polymarket_agent/execution/executor.py:735-772 | In-place cancellation equals its function: final orders untouched, local cancels take open children along, live entries as the exchange answers |
| OrderRuns.CancelOrderKeeps | src/polymarket_agent/execution/executor.py:735-772 | Any cancellation, with any exchange answer, keeps the invariant and coverage and fills nothing |
| Executor.OrderExecutor.CancelAllOpen | src/polymarket_agent/execution/executor.py:780-786 | Cancels over a snapshot while the table changes under it, and counts the successes |
| Executor.OrderExecutor.CancelExpired | src/polymarket_agent/execution/executor.py:788-804 | The expiry sweep over a snapshot: armed children past their time, old entries through cancellation |
| Executor.OrderExecutor.CancelOcoSiblings | src/polymarket_agent/execution/executor.py:1001-1020 | After a trigger, cancels exactly the other armed members of the group, in table order, with their events |
| Executor.OrderExecutor.Trigger | src/polymarket_agent/execution/executor.py:989-1035 | Fills the child whole, cancels its siblings, marks the parent closed and reports the exit |
| Executor.OrderExecutor.VisitBracketChild | src/polymarket_agent/execution/executor.py:949-1035 | One visit of a child: expiry first, then the trigger against the evaluated price |
| OrderInvariants.TriggerKeeps | src/polymarket_agent/execution/executor.py:973-1035 | A trigger keeps the invariant: its child becomes the only filled member and every sibling has ended |
| OrderInvariants.ExpireKeeps | src/polymarket_agent/execution/executor.py:952-966 | An expiring child ends empty and keeps the invariant |
| Executor.OrderExecutor.FillPaperEntry | src/polymarket_agent/execution/executor.py:907-934 | A paper visit fills at an acceptable price only, and arms the bracket when the status changes |
| Executor.OrderExecutor.VisitEntry | src/polymarket_agent/execution/executor.py:902-947 | One visit of an entry that is not live equals its function |
| OrderInvariants.PaperEntryFillKeeps | src/polymarket_agent/execution/executor.py:907-934 | A paper fill and its arming keep the invariant, and coverage unless a fill can round to nothing |
| OrderInvariants.PaperFillPositive | src/polymarket_agent/execution/executor.py:907-915 | Outside the dust ratios a paper fill of an open entry leaves a positive filled size |
| Executor.OrderExecutor.ReconcileLiveEntry | src/polymarket_agent/execution/executor.py:1041-1109 | Live reconciliation equals its function for every list of exchange answers |
| Executor.OrderExecutor.TakeOthers | src/polymarket_agent/execution/executor.py:735-857 | While live answers are awaited other tasks may cancel, close and expire, none of which takes the lock: any list of them acts on the mutable table as the actions do |
| OrderInvariants.LiveEntryKeeps | src/polymarket_agent/execution/executor.py:1041-1109 | Whatever the exchange answers, a live visit keeps the invariant and coverage |
| LiveAnswers.VisitBooks | src/polymarket_agent/execution/executor.py:1041-1109 | A live visit without interference books the sum of the answers less what is booked, as far as it is left, at the price of the last answer that carries one; and which status it leaves, for every list of answers |
| LiveAnswers.UnmanagedNeverFills | src/polymarket_agent/execution/executor.py:903-907 | Without live reconciliation, or without an exchange, no run ever fills a live entry |
| LiveAnswers.VisitAddsUp | src/polymarket_agent/execution/executor.py:1041-1066 | With size and reports in units of 1e-8 an open entry then holds exactly the smaller of its size and the larger of what it held and the sum of the answers |
| LiveAnswers.SplitDoesNotMatter | src/polymarket_agent/execution/executor.py:1041-1066 | The same amounts in another order, or the same total split otherwise, leave the same fill |
| Executor.OrderExecutor.VisitLive | src/polymarket_agent/execution/executor.py:902-947 | A live visit with any cancelling, closing and expiring by other tasks while its answers are awaited |
| Executor.OrderExecutor.ReconcileOrders | src/polymarket_agent/execution/executor.py:897-1037 | One pass over a snapshot, mutating the table it walks, equals the pass function: same table, same events |
| OrderRuns.StepKeeps | src/polymarket_agent/execution/executor.py:386-1109 | Every action keeps the invariant and moves orders only as allowed; only a trigger fills a child |
| OrderRuns.RunKeeps | src/polymarket_agent/execution/executor.py:386-1109 | The invariant holds in every table reachable by any interleaving of actions, with children covered outside dust configurations |
| OrderRuns.RunMoves | src/polymarket_agent/execution/executor.py:386-1109 | From any reachable table to any later one: no order disappears or changes identity, fills never shrink, finished children are frozen |
| OrderRuns.OcoGroupsAreExclusive | src/polymarket_agent/execution/executor.py:1001-1008 | In every reachable table at most one member of an OCO group has a fill, and a group with a filled member has no armed one |
| OrderRuns.FinishedChildrenNeverChange | src/polymarket_agent/execution/executor.py:735-752 | Over the rest of any run a filled, cancelled or expired child stays exactly as it is |
| OrderRuns.StepEvents | src/polymarket_agent/execution/executor.py:973-1035 | Only a trigger reports an exit, exactly one, last, with the child's parent and the price that fired it |
| OrderRuns.ExitsAreReportedOnce | src/polymarket_agent/execution/executor.py:973-1035 | Over any run every filled child has its exit event, every exit event its filled child and firing price, and no two share a parent |
| OrderRuns.BracketsNeverOversell | src/polymarket_agent/execution/executor.py:422-540 | In every reachable table the children of an entry have sold at most what the entry has filled |
| Oversell.DustOversells | src/polymarket_agent/execution/executor.py:455-462 | In a dust configuration a placement and two whole passes sell what was never bought |
| Oversell.DustedIsReached | src/polymarket_agent/execution/executor.py:893-1037 | The table they lead to is the result of a run of actions |
| Oversell.OversellExactly | src/polymarket_agent/execution/executor.py:422-540 | No run oversells if and only if the configuration is not a dust configuration |
| Stakes.MatchedExactly | src/polymarket_agent/execution/executor.py:907-934 | From its first part fill on, over any run that leaves it armed, a child of a paper entry is as large as what the entry holds if and only if the entry is complete or has not filled since |
| Stakes.LiveMatchedStays | src/polymarket_agent/execution/executor.py:1041-1109 | Over any run that leaves it armed, a child that is as large as what a live entry holds stays so |
| Stakes.SoldIsStakeExactly | src/polymarket_agent/main.py:460-478 | The exit that a pass fires sells the size of its child, its row books the stake the entry holds, and the two are equal if and only if the child matches the entry |
| Passes.PassIsRun | src/polymarket_agent/execution/executor.py:897-1037 | A reconcile pass over any snapshot, with any cancelling, closing and expiring by other tasks inside it, is a run of single actions: same table, same events |
| Passes.CancelAllIsRun | src/polymarket_agent/execution/executor.py:780-786 | Cancelling all open orders is a run |
| Passes.ExpireAllIsRun | src/polymarket_agent/execution/executor.py:788-804 | The expiry sweep is a run |
| Outcomes.PlacedExactly | src/polymarket_agent/execution/executor.py:272-326 | A placement adds an entry exactly if nothing is wrong with the request, else changes nothing |
| Outcomes.SettledExactly | src/polymarket_agent/execution/executor.py:646-733 | A failed submission cancels its entry, a successful one marks it as waiting if it is to be bracketed; nothing else changes |
| Outcomes.ClosedExactly | src/polymarket_agent/execution/executor.py:806-857 | A closing order is refused for a bad price or size, else it is the one new order, for that contract and size at the clamped price, on paper filled at once |
| Outcomes.CancelledExactly | src/polymarket_agent/execution/executor.py:735-772 | Which cancellations succeed, and every order and state they change: a local entry takes its armed children along, a live one leaves them |
| Outcomes.VisitReports | src/polymarket_agent/execution/executor.py:907-949 | A visit of a working paper entry does nothing above limit and tolerance, else reports the fill first: complete or in part, at the price of the contract, for the size asked |
| Outcomes.SoldExactly | src/polymarket_agent/execution/executor.py:982-1035 | A child that sells fills whole, closes its bracket and cancels the other child if armed; the exact events, the exit last; no other order changes |
| Outcomes.ExpiredExactly | src/polymarket_agent/execution/executor.py:956-970 | A child past its deadline ends unsold, its bracket with it, and one event says so |
| Outcomes.ArmedExactly | src/polymarket_agent/execution/executor.py:460-540 | First arming adds two armed children for what is filled, or the size while nothing is, and the exact events |
| Outcomes.RearmedExactly | src/polymarket_agent/execution/executor.py:431-459 | Arming again gives the entry new levels and its children that are still armed the filled size; their triggers stay |
| LateArming.LateArmingIsIdle | src/polymarket_agent/execution/executor.py:941-949 | In every reachable table the late arming at the end of a visit changes and reports nothing |
| Cancelling.CancelAllExactly | src/polymarket_agent/execution/executor.py:780-786 | From every reachable table it cancels every open order but the live entries the exchange refuses, changes nothing else but bracket states, and counts all of those but the armed children that went with their entry |
| Expiry.SweepExactly | src/polymarket_agent/execution/executor.py:788-804 | From every reachable table the sweep cancels exactly the resting orders older than 60 times the configured minutes in seconds, with the armed children of the entries it cancels locally, expires exactly the other armed children past their deadline, and returns the orders that ended in their own turn |
| Ages.OldestFirst | src/polymarket_agent/execution/executor.py:431-646 | In every reachable table orders are listed by age and every child comes after its entry |
| Births.EveryOrderIsBorn | src/polymarket_agent/execution/executor.py:272-540 | Every entry of a reachable table was acceptable: side, market, size and limit; every child waits for its parent's contract at a valid price on its own side, for 60 times the configured or requested minutes |
| Births.NoBracketsNoChildren | src/polymarket_agent/execution/executor.py:348-356 | Without brackets in the configuration or in any request no child is ever created |
| Directions.FillIsBookedAtMidpoint | src/polymarket_agent/execution/executor.py:907-934 | On either side, the first visit at a midpoint fills exactly if the contract costs no more than limit and tolerance, and its trade is entered at that midpoint |
| Directions.FallbackTurnsLimit | src/polymarket_agent/execution/executor.py:907-913 | Without a midpoint a YES entry fills at its limit, a NO entry at one less its limit |
| Directions.PlacementBidsBelow | src/polymarket_agent/execution/executor.py:607-646 | A placement bids a tenth of a cent below its contract; filled at once, its trade is entered that much below the quoted YES price, or above it for NO |
| Directions.VisitIsBookedAtQuote | src/polymarket_agent/execution/executor.py:952-1037 | On either side, an armed child expires past its deadline, else sells exactly if its contract has reached the level, and its trade closes at the YES price it was judged by |
| Mirror.RunIsMirrored | src/polymarket_agent/execution/executor.py:265-266 | With every side turned and every quote x replaced by 1 - x, any run from any table leaves the mirrored table and reports the same events, fills and prices |
| Mirror.MidpointIsNeeded | src/polymarket_agent/execution/executor.py:911-913 | The mirror needs midpoints: without one an entry fills at 0.7 and its mirror at 0.3 |
| Passes.PassFromReachable | src/polymarket_agent/execution/executor.py:893-1037 | A pass from any reachable table keeps the invariant, moves orders only as allowed and ends in a reachable table |
| Dedup.CapDropsOldest | src/polymarket_agent/execution/executor.py:319-326 | The hard cap drops the oldest stamps: nothing kept is older than anything dropped |
| Dedup.CacheStaysSmall | src/polymarket_agent/execution/executor.py:315-346 | In every run the cache has distinct keys and never more than 10001 of them |
| Dedup.PassedIsCachedOrOld | src/polymarket_agent/execution/executor.py:315-326 | While the cap has not run, everything that passed is cached or has left the window |
| Dedup.BlockedExactly | src/polymarket_agent/execution/executor.py:328-346 | Until then a placement passes if and only if every earlier pass for its key has left the window |
| Dedup.PassesAreApart | src/polymarket_agent/execution/executor.py:603-629 | Hence two passes for the same market and direction are stamped more than a window apart |
| GatedRuns.RunFollowsGate | src/polymarket_agent/execution/executor.py:564-646 | In any run of the executor the cache is that of the gate's own history, and the entries of the table are the placements that passed it, in order, with their markets, directions and times |
| GatedRuns.EntriesAreApart | src/polymarket_agent/execution/executor.py:328-346 | Any two entries of the table for one market and direction have timestamps more than a window apart, while the clock does not go back and the cap has dropped no stamp |
| Slippage.WalkBook | src/polymarket_agent/execution/slippage.py:64-77 | The accumulating loop computes the greedy walk |
| Slippage.EstimateSlippage | src/polymarket_agent/execution/slippage.py:27-131 | The estimate, its rounding, and liquidity sufficient exactly for positive orders within the depth of a two-sided book |
| Slippage.FillsTheSmaller | src/polymarket_agent/execution/slippage.py:64-77 | The walk fills exactly the smaller of order and total side depth |
| Slippage.WeakDuality | src/polymarket_agent/execution/slippage.py:64-77 | Every allocation pays at least any price bound per unit, less the savings below it |
| Slippage.StrongDuality | src/polymarket_agent/execution/slippage.py:60-77 | On a sorted side the walk attains that bound at its marginal price |
| Slippage.WalkIsAllocation | src/polymarket_agent/execution/slippage.py:64-77 | The walk is itself an allocation within the level sizes |
| Slippage.WalkIsOptimal | src/polymarket_agent/execution/slippage.py:55-77 | No allocation of the same total is cheaper for a BUY or brings more for a SELL |
| Slippage.VwapMonotone | src/polymarket_agent/execution/slippage.py:79-90 | The average price is non-decreasing in size for a BUY, non-increasing for a SELL |
| Slippage.AcceptsMeans | src/polymarket_agent/execution/slippage.py:134-144 | The gate accepts exactly the positive sizes within depth whose rounded slippage is within the limit |
| Slippage.AcceptsInMoney | src/polymarket_agent/execution/slippage.py:106-144 | At a positive midpoint the gate accepts exactly the sizes within depth whose cost is no further from their value at the midpoint than the limit in basis points, rounding and ties to even included |
| Slippage.LimitHolds | src/polymarket_agent/execution/slippage.py:106-144 | Accepted means within the limit and half a hundredth of a basis point, on both sides; half a hundredth inside it is enough |
| Slippage.NoMidpointAccepts | src/polymarket_agent/execution/slippage.py:98-104 | Without a positive midpoint only the depth is looked at |
| Slippage.EstimateMeans | src/polymarket_agent/execution/slippage.py:50-131 | The estimate reports the midpoint of the first levels, cost over filled, the value of the whole side to the cent, and the fewest best levels that cover the order |
| Slippage.GateIsDownwardClosed | src/polymarket_agent/execution/slippage.py:134-144 | If the gate accepts a size it accepts every smaller positive one, rounding included |
| Wallets.Build | src/polymarket_agent/infra/wallet_manager.py:42-64 | The constructor fails exactly on no keys, mismatched lengths, a non-positive total or only blank keys; else it normalises, strips each key and skips those that are blank |
| Wallets.StripsExactly | src/polymarket_agent/infra/wallet_manager.py:54-60 | Stripping removes every blank character around a key and nothing of the key |
| Wallets.AllocationsAddToOne | src/polymarket_agent/infra/wallet_manager.py:42-64 | Without blank keys the allocations are the scaled weights and add up to one |
| Wallets.PickLeast | src/polymarket_agent/infra/wallet_manager.py:110-126 | `min` with a key picks the first of the least |
| Wallets.WalletManager.GetWallet | src/polymarket_agent/infra/wallet_manager.py:110-126 | Round robin in turn, least utilised, least utilised per allocation, and the fallback for unknown strategies |
| Wallets.WalletManager.RecordUtilization | src/polymarket_agent/infra/wallet_manager.py:134-140 | Adds to the first wallet with the address, compared without case, and to no other |
| Wallets.SameAddressExactly | src/polymarket_agent/infra/wallet_manager.py:135-141 | Addresses match if they agree character by character but for the case of letters |
| Wallets.WalletManager.ResetUtilization | src/polymarket_agent/infra/wallet_manager.py:142-145 | Clears every wallet's load and count |
| Wallets.WeightedStepBounds | src/polymarket_agent/infra/wallet_manager.py:118-140 | One pick-then-record keeps every load bound |
| Wallets.WeightedTracksAllocations | src/polymarket_agent/infra/wallet_manager.py:110-140 | After any run of weighted picks every wallet ever picked holds at most its share of the total plus one amount |
| Wallets.EveryWalletExactly | src/polymarket_agent/infra/wallet_manager.py:110-140 | The bound holds of all wallets after every run if and only if it holds of the fresh ones |
| Wallets.FreshCanExceed | src/polymarket_agent/infra/wallet_manager.py:110-140 | That condition can fail: allocations of 0.9 and 0.1 and amounts of zero |
| Wallets.MinUtilizationSpread | src/polymarket_agent/infra/wallet_manager.py:116-117 | Under min_utilization any two wallets differ by at most one amount, always |
| Wallets.TurnsCount | src/polymarket_agent/infra/wallet_manager.py:112-115 | The turns of a wallet are the picks whose number leaves its index modulo the number of wallets |
| Wallets.RoundRobinIsFair | src/polymarket_agent/infra/wallet_manager.py:112-115 | After any number of turns two wallets differ by at most one pick, the earlier never behind |
| CrossSignals.GetCrossMarketSignals | src/polymarket_agent/models/edge.py:205-268 | The per-market loops compute the five strongest signals of its category peers |
| CrossSignals.GroupByCategory | src/polymarket_agent/models/edge.py:288-290 | Every category that occurs is a key with exactly its markets, in order |
| CrossSignals.SignalsInGroup | src/polymarket_agent/models/edge.py:293-329 | The inner loop over cached histories collects what the group contributes, passing over the market itself |
| CrossSignals.PrecomputeCrossSignals | src/polymarket_agent/models/edge.py:270-339 | The batched computation maps every market to exactly the list the per-market one returns: entries, stable order, cut |
| CrossSignals.GroupIsPeers | src/polymarket_agent/models/edge.py:214-216 | Collecting over the category and skipping oneself is collecting over the peers |
| CrossSignals.TopFiveIsBest | src/polymarket_agent/models/edge.py:263-268 | The list is a best five: strongest first, and nothing dropped is stronger than anything kept |
| CrossSignals.SignalsExactly | src/polymarket_agent/models/edge.py:205-268 | At most five signals, strongest first, each a peer's: its change over its last 24 points, or all it has, and the correlation over the common length, at least five; whatever a peer has to tell is listed, or five at least as strong are |
| CircuitBreaker.CircuitBreaker.ReadState | src/polymarket_agent/infra/circuit_breaker.py:51-57 | Reading the state moves an open circuit to half-open once its timeout has passed |
| CircuitBreaker.CircuitBreaker.RecordSuccess | src/polymarket_agent/infra/circuit_breaker.py:59-67 | A success counts towards closing when half-open, and lowers the failure count when closed |
| CircuitBreaker.CircuitBreaker.RecordFailure | src/polymarket_agent/infra/circuit_breaker.py:69-75 | A failure counts, is stamped, and opens the circuit at the threshold |
| CircuitBreaker.CircuitBreaker.BeginCall | src/polymarket_agent/infra/circuit_breaker.py:77-80 | A call is admitted exactly when the state read is not open |
| CircuitBreaker.CountIsMaxSuffix | src/polymarket_agent/infra/circuit_breaker.py:59-75 | From any closed circuit with count zero, fresh or recovered: while it stays closed the count is the maximum over all suffixes of failures minus successes |
| CircuitBreaker.TripsExactly | src/polymarket_agent/infra/circuit_breaker.py:59-75 | From any closed circuit with count zero: it has stayed closed if and only if no stretch of outcomes reached the threshold |
| CircuitBreaker.TrippedHasReached | src/polymarket_agent/infra/circuit_breaker.py:69-75 | Whatever the threshold, a circuit that is not closed has reached it |
| CircuitBreaker.CountTellsExactly | src/polymarket_agent/infra/circuit_breaker.py:51-92 | In every run closed means count below threshold, if and only if the threshold is at least one |
| CircuitBreaker.HalfOpenFailureReopens | src/polymarket_agent/infra/circuit_breaker.py:69-75 | In any run, at any threshold, a single failure of a half-open circuit reopens it |
| CircuitBreaker.HalfOpenIsLate | src/polymarket_agent/infra/circuit_breaker.py:51-57 | A half-open circuit is at least the recovery timeout past its last failure |
| CircuitBreaker.AdmittedExactly | src/polymarket_agent/infra/circuit_breaker.py:51-86 | In any run a call is admitted if and only if the circuit is closed or the recovery timeout has passed since the last recorded failure |
| CircuitBreaker.RecoveryTakes | src/polymarket_agent/infra/circuit_breaker.py:59-65 | Recovery takes exactly the configured number of successes in a row |
| CircuitBreaker.RecoveryStartsOver | src/polymarket_agent/infra/circuit_breaker.py:48-65 | From an open circuit whose timeout has passed, exactly the configured number of successes closes it, whatever was counted before |
| RateLimiter.TokenBucketRateLimiter.AcquireToken | src/polymarket_agent/infra/rate_limiter.py:27-41 | Refill, cap, wait and spend on the mutable bucket equal the function |
| RateLimiter.AcquireSpends | src/polymarket_agent/infra/rate_limiter.py:27-41 | Tokens stay within zero and burst, and one acquisition is paid out of refill and sleep |
| RateLimiter.GrantsArePaidFor | src/polymarket_agent/infra/rate_limiter.py:27-41 | Along any serialised run, grants plus tokens left are covered by tokens, elapsed time and time slept |
| RateLimiter.RateIsBounded | src/polymarket_agent/infra/rate_limiter.py:27-41 | Grants are at most burst plus rate times elapsed plus rate times slept, hence burst plus twice rate times elapsed |
| RateLimiter.BoundIsAttained | src/polymarket_agent/infra/rate_limiter.py:27-41 | At every rate runs of any length reach both bounds, so none without the sleep term holds |
| RateLimiter.BurstIsFree | src/polymarket_agent/infra/rate_limiter.py:27-41 | As many acquisitions at once as there are whole tokens sleep not at all and leave the rest; the next sleeps exactly until a whole token is in |
| TtlCache.TTLCache.Lookup | src/polymarket_agent/data/gamma_client.py:30-41 | A hit, a miss or a lazy deletion, with its counter |
| TtlCache.TTLCache.Store | src/polymarket_agent/data/gamma_client.py:43-47 | Evicts at the configured size, then stores with the entry's or the default lifetime |
| TtlCache.TTLCache.Evict | src/polymarket_agent/data/gamma_client.py:55-59 | Removes exactly the expired entries |
| TtlCache.RefinesLog | src/polymarket_agent/data/gamma_client.py:30-59 | On a clock that never goes back the cache answers every get as the plain log of last writes does, and counts the answers |
| TtlCache.SizeIsInvisible | src/polymarket_agent/data/gamma_client.py:43-59 | Eviction never changes an answer: any two sizes give the same ones |
| TtlCache.SetEvicts | src/polymarket_agent/data/gamma_client.py:43-59 | Below the configured size a set deletes nothing, no set deletes a live entry, and beyond it nothing but live entries is held |
| TrailingStop.TrailingStop.UpdatePrice | src/polymarket_agent/execution/trailing_stop.py:92-105 | One update of the mutable stop equals the function; a triggered stop is left alone |
| TrailingStop.TrailingStop.UpdateSell | src/polymarket_agent/execution/trailing_stop.py:107-137 | The SELL update: raise the mark and the stop, then test |
| TrailingStop.TrailingStop.UpdateBuy | src/polymarket_agent/execution/trailing_stop.py:139-170 | The BUY update: lower the mark and the stop, then test |
| TrailingStop.FiresAtFirstCross | src/polymarket_agent/execution/trailing_stop.py:107-137 | A SELL stop fires at exactly the first price at or below the level of the highest price so far, and is frozen from then on |
| TrailingStop.AmountInTicks | src/polymarket_agent/execution/trailing_stop.py:64-74 | In amount mode on 1e-4 ticks the level is the plain difference |
| TrailingStop.HighestIsHighest | src/polymarket_agent/execution/trailing_stop.py:107-118 | The mark a SELL stop trails is the maximum of its first price and all prices since, and one of them |
| TrailingStop.FiresAtFirstDrop | src/polymarket_agent/execution/trailing_stop.py:107-137 | In amount mode on ticks the stop has fired if and only if some price lies at least the trail below the highest so far, and it fired at the first such price |
| TrailingStop.StopNeverRetreats | src/polymarket_agent/execution/trailing_stop.py:107-170 | In every mode the stop never moves away from the market |
| TrailingStop.TriggeredIsFrozen | src/polymarket_agent/execution/trailing_stop.py:92-105 | No price changes a triggered stop |
| TrailingStop.ResetIsFresh | src/polymarket_agent/execution/trailing_stop.py:186-196 | After a reset a stop behaves over every stream as a new one at that price |
| TrailingStop.BuyMirrorsSell | src/polymarket_agent/execution/trailing_stop.py:139-170 | The BUY stop on a stream is the SELL stop on the mirrored stream, update for update |
| TrailingStop.BuyFiresAtFirstCross | src/polymarket_agent/execution/trailing_stop.py:139-170 | A BUY stop fires at exactly the first price at or above the level of the lowest price so far |
| Drawdown.PeakIsHighest | src/polymarket_agent/risk/drawdown.py:30-31 | After any updates the peak is the highest value the controller has seen, and one of them |
| Drawdown.DrawdownController.RecordTradePnl | src/polymarket_agent/risk/drawdown.py:43-55 | The daily sum starts over when the date changes |
| Drawdown.DrawdownController.GetMultiplier | src/polymarket_agent/risk/drawdown.py:68-84 | The multiplier in all its branches, with a daily limit or without one |
| Drawdown.MultiplierIsFraction | src/polymarket_agent/risk/drawdown.py:68-84 | For all thresholds it is a fraction, non-decreasing in the bankroll, and zero exactly when trading has to stop |
| Drawdown.MultiplierIsLinear | src/polymarket_agent/risk/drawdown.py:68-84 | Between the thresholds the multiplier is what is left of the way to the second; before the first it is one |
| Drawdown.LimitHitExactly | src/polymarket_agent/risk/drawdown.py:56-61 | The daily limit is hit when the day has lost its magnitude, whatever its sign, and never without one |
| Drawdown.ResolvePositions | backtest/simulator.py:225-261 | The resolution loop books each position, extends the curve and feeds the controller |
| Drawdown.EquityConserves | backtest/simulator.py:225-261 | The equity curve ends at the start plus all P&L |
| Drawdown.ResolvedPaysOut | backtest/simulator.py:225-240 | A position is as many contracts as its size buys on its side, each paying what that side resolves to, less costs |
| Drawdown.LossIsBounded | backtest/simulator.py:225-240 | A resolved position on either side never loses more than its size and costs |
| Drawdown.WorstIsLargestLoss | backtest/simulator.py:348-355 | The running-maximum drawdown is the largest relative loss over all ordered pairs of points |
| Drawdown.StreamIsWorst | src/polymarket_agent/risk/drawdown.py:92-96 | The worst drawdown the streaming controller reports is the same number |
| Drawdown.ThreeDrawdownsAgree | backtest/simulator.py:348-355 | For every positive curve the three agree |
| Sizer.ZeroOrMinimum | src/polymarket_agent/risk/sizer.py:147-170 | A size is zero or at least the minimum |
| Sizer.KellyExactly | src/polymarket_agent/risk/sizer.py:48-95 | A bet needs an edge at the estimate and at its lower bound; the Kelly fraction is that edge over one less the price of the side, but for the epsilon |
| Sizer.CappedIsLargest | src/polymarket_agent/risk/sizer.py:101-145 | The caps leave the largest amount within the Kelly amount, the share of one trade, the portfolio, the category and the single-loss cap: none skipped, none added |
| Sizer.SizeExactly | src/polymarket_agent/risk/sizer.py:48-170 | Every size: zero if anything stands in the way, else the largest amount allowed up to the scaled Kelly amount, times the multiplier, to the cent, nothing below the minimum |
| Sizer.SizeIsMirrorSymmetric | src/polymarket_agent/risk/sizer.py:48-105 | YES at (prob, price) and NO at (1 - prob, 1 - price) get the same size |
| Sizer.LargerKelly | src/polymarket_agent/risk/sizer.py:66-170 | Through scaling, caps, rounding and the floor a larger Kelly fraction never makes a smaller size |
| Sizer.SizeFollowsProbability | src/polymarket_agent/risk/sizer.py:48-105 | The size of a YES bet is non-decreasing in the probability |
| Sizer.SizeShrinksWithUncertainty | src/polymarket_agent/risk/sizer.py:76-95 | More non-negative uncertainty never makes a larger size |
| Sizer.SizeFollowsMultiplier | src/polymarket_agent/risk/sizer.py:147-170 | The size is non-decreasing in the drawdown multiplier |
| Portfolio.Trader.RunCycle | src/polymarket_agent/main.py:801-917 | One cycle: at most five opportunities, each refused, resting or filled, with the deductions of fills and the recomputed bankroll at the end |
| Portfolio.SizeFits | src/polymarket_agent/risk/sizer.py:101-170 | A positive size keeps the portfolio and the category capacity, the share of one trade and the single-loss cap, up to half a cent, and needs a free slot |
| Portfolio.PlaceKeepsLimits | src/polymarket_agent/main.py:810-878 | One placement, whatever becomes of the order, keeps every limit and loses no equity |
| Portfolio.PlacementsKeepLimits | src/polymarket_agent/main.py:801-917 | In the middle of any cycle after any number of others, with any closes in between, open size, each category and the counts are within their limits of the most the account has been worth; the half cent does not accumulate |
| Portfolio.TradingConserves | src/polymarket_agent/main.py:909-917 | After any cycles and closes cash plus open size is the initial bankroll plus realised P&L, unless more than that is open and there is no cash; every size paid for is open or closed |
| Portfolio.RecomputeIsIdle | src/polymarket_agent/main.py:909-917 | While every order is refused or fills at once and nothing closes, the recomputation at the end of a cycle gives the bankroll the deductions already left |
| Tracker.PerformanceTracker.TradeIdFor | src/polymarket_agent/tracking/tracker.py:324-330 | The first row opened by the order, if any |
| Tracker.PerformanceTracker.RecordFee | src/polymarket_agent/tracking/tracker.py:913-925 | Fees and gas accumulate on the row |
| Tracker.PerformanceTracker.UpdatePosition | src/polymarket_agent/tracking/tracker.py:399-421 | Marks a row to a YES price net of costs; an unknown row changes nothing |
| Tracker.PerformanceTracker.ClosePosition | src/polymarket_agent/tracking/tracker.py:423-474 | Closes a row at a contract price and returns its net P&L |
| Tracker.PerformanceTracker.CloseTradeForOrder | src/polymarket_agent/tracking/tracker.py:550-592 | Closes the order's trade at the price clamped below at zero; unknown orders earn nothing |
| Tracker.GrossInContractSpace | src/polymarket_agent/tracking/tracker.py:191-213 | For both directions the YES-space arithmetic is (exit - average) * stake / average in contract prices |
| Tracker.NetInContractSpace | src/polymarket_agent/tracking/tracker.py:496-548 | Net P&L of a closed trade is that less fees and gas |
| Tracker.LossIsBounded | src/polymarket_agent/tracking/tracker.py:496-548 | A closed trade never loses more than stake, fees and gas, at any non-negative exit price |
| Tracker.GrossSign | src/polymarket_agent/tracking/tracker.py:191-213 | The sign of gross P&L is the sign of exit minus average, at any prices, strictly negative for exits below the average and below one |
| Lifecycle.SyncEntry | src/polymarket_agent/main.py:439-454 | An entry event copies the fill into its row and books the fee of a filled live entry once |
| Lifecycle.ReconcileLifecycle | src/polymarket_agent/main.py:432-491 | The event loop books every event in order and reports the realised P&L to the drawdown controller, whose daily sum starts over on a new date |
| Lifecycle.ReportedIsRealised | src/polymarket_agent/main.py:462-484 | What is reported over a pass is exactly what the pass adds to the realised P&L of the table, and a row ends closed if and only if it was or an exit event names its order |
| Desk.EnterKeeps | src/polymarket_agent/main.py:848-873 | Recording a placement, after whatever ran since, adds one row in step with its entry and keeps the desk sound |
| Desk.CycleIsFresh | src/polymarket_agent/main.py:432-491 | From any sound desk, with open and closed rows, the events of any further actions name only open trades |
| Desk.CycleKeeps | src/polymarket_agent/main.py:432-491 | Booking the events of any further actions against the table they leave keeps the desk sound |
| Desk.DeskIsSound | src/polymarket_agent/main.py:432-491 | Over every run of placements and booked passes: one row per entry and in step with it, a trade closed if and only if an exit of its entry was reported, and the P&L reported so far exactly the realised P&L of the table |
| Fees.PaperFees | src/polymarket_agent/main.py:463-870 | Over every run of the desk a paper trade has been charged the rate on its size at its entry, and once closed the rate on its one exit |
| Fees.LiveFeeOnce | src/polymarket_agent/main.py:439-454 | Booking any events but exits charges a live trade for its entry once, when it is filled and has not been charged |
| HandCloses.HandIsBeside | src/polymarket_agent/tracking/tracker.py:423-474 | Over every run of the desk with closes by hand in between: orders and reported P&L are those of the run without them, and so is every row but those closed by hand, of which only the way they were closed differs |
| HandCloses.ClosedExactly | src/polymarket_agent/tracking/tracker.py:423-474 | A trade is closed if and only if an exit of its entry was reported or it was closed by hand, and what was reported is what the table would have realised without the closes by hand |
| HandCloses.ReportedGap | src/polymarket_agent/tracking/tracker.py:423-474 | Over every run with closes by hand, realised less reported P&L is the sum over the rows closed by hand of what the closes changed |
| HandCloses.HandBreaksExactly | src/polymarket_agent/tracking/tracker.py:423-474 | After one close by hand on a sound desk, reported and realised P&L agree if and only if the close earned what the row had been booked with |
| Lifecycle.LevelsAroundEntry | src/polymarket_agent/execution/executor.py:417-420 | The take-profit level is at or above the entry if and only if the entry is at most 0.99, the stop level at or below it if and only if it is at least 0.01 |
| Lifecycle.PlacementArmsWhole | src/polymarket_agent/execution/executor.py:564-646 | A paper placement that fills at once arms both children around its limit price |
| Lifecycle.ExitSide | src/polymarket_agent/execution/executor.py:973-996 | The exit event of a child of a whole entry is priced on its side of the average |
| BracketExits.PaperVisitArmsWhole | src/polymarket_agent/execution/executor.py:902-947 | A reconcile visit that completes an untouched paper entry in one fill arms both children around that fill |
| BracketExits.LiveAnswerArmsWhole | src/polymarket_agent/execution/executor.py:1041-1109 | A live answer that completes an untouched entry in one fill arms both children around that fill |
| BracketExits.BookedExit | src/polymarket_agent/main.py:460-478 | Any exit, of an entry filled in whole or in part, at any point of any run of the desk: the row ends closed at the price of the event with that P&L less fees and gas, on the average and stake the entry has after the cycle if an event of it came first, else before the cycle, and the gross has the sign of price less average |
| BracketExits.CompleteExit | src/polymarket_agent/main.py:460-478 | The row of an entry that was complete before its exit is closed on exactly that average |
| BracketExits.WholeEntryExits | src/polymarket_agent/main.py:460-478 | For every entry complete when its bracket was armed, paper or live, the row a take-profit exit writes has gross P&L of at least zero, a stop-loss exit at most zero |
| Overtake.RunTells | src/polymarket_agent/execution/executor.py:973-1035 | From any table the exit events of a run name a filled child, its parent and a price that fires it |
| Sweeps.EndedStays | src/polymarket_agent/execution/executor.py:900-905 | Over every continuation by whole passes, with any interference inside them, and by actions of other tasks, an entry that has ended keeps its ledger and stays ended |
| Sweeps.PassLeavesArmed | src/polymarket_agent/execution/executor.py:897-1037 | A pass whose quotes fire no member of a bracket leaves its armed children armed, whatever the other orders do |
| LiveOvertake.GridSafeExactly | src/polymarket_agent/execution/executor.py:1041-1109 | An open live entry with reports in whole units of 1e-8 at prices of at most `top` can lose to its armed take-profit if and only if its average, as it is or with the rest filled at `top`, exceeds the trigger |
| LiveOvertake.AnySafeExactly | src/polymarket_agent/execution/executor.py:1041-1109 | With any reports at prices of at most `top` an open live entry can lose if and only if its average exceeds the trigger, or something remains and `top` exceeds the trigger |
| PaperOvertake.PaperRun | src/polymarket_agent/execution/executor.py:902-947 | Over any run, cancelled on the way or not, the ledger of a paper entry is that of some passes at prices of at most `top` and of limit plus tolerance |
| DearPasses.PassesDearer | src/polymarket_agent/execution/executor.py:400-414 | Dearer passes fill an order as much and leave it at no lower an average |
| DearPasses.DearIsDecided | src/polymarket_agent/execution/executor.py:907-934 | Whether any number of passes brings the average of an entry above a bound shows after twice the steps in its size and three: it is above now, or then, or the entry is then stuck on a step that is rounded away and still offered above the bound |
| DearPasses.GridDear | src/polymarket_agent/execution/executor.py:907-934 | For sizes and steps on the grid it is above the bound now, or with all that passes will still fill bought at the highest price; a last unit that whole steps leave over is not filled |
| PaperOvertake.PaperSafeExactly | src/polymarket_agent/execution/executor.py:902-947 | An open paper entry can lose if and only if some number of passes at the highest price it accepts, and at most `top`, brings its average above the trigger |
| PaperOvertake.GridPaperSafeExactly | src/polymarket_agent/execution/executor.py:902-947 | The same in closed form for sizes and steps on the grid |
| PaperOvertake.IdleSafeExactly | src/polymarket_agent/execution/executor.py:900-905 | An entry that has ended, paper or live, or a live one that is not reconciled, can lose if and only if its average exceeds the trigger |
| TakeProfits.TakeProfitSafeExactly | src/polymarket_agent/execution/executor.py:431-458 | Over all continuations by whole passes and actions of other tasks with fills of at most `top`, for every kind of entry, filled in whole or in part: one brings its average above the trigger and fires its take-profit below it if and only if the entry is exposed in the sense of the cases above |
| TakeProfits.WithinTriggerIsSafe | src/polymarket_agent/execution/executor.py:431-458 | No entry loses that was bought within the trigger and pays no more than the trigger for the rest |
| TakeProfits.LossesAreBooked | src/polymarket_agent/main.py:432-491 | Over every run of the desk from a sound one, with any further placements and passes: some cycle books the trade of the entry as closed by its take-profit below its average, at a gross loss, if and only if the entry is exposed |
| LosingRun.TakeProfitBooksLoss | src/polymarket_agent/main.py:432-491 | A whole run of the desk from nothing: fills at 0.40 and 0.50, a take-profit that fires at 0.424 below the average of 0.45, and a row closed at a gross loss |
| Metrics.TotalSplits | src/polymarket_agent/tracking/tracker.py:639-646 | Total P&L is gross profit less gross loss, both non-negative |
| Metrics.GroupBy | src/polymarket_agent/tracking/tracker.py:690-701 | One entry for each key that occurs, the tally of exactly its rows; the entries add up to the total |
| Metrics.TallyMeans | src/polymarket_agent/tracking/tracker.py:690-701 | The tally of a key counts the rows that have it and those of them that gained, and sums what they earned |
| Metrics.NamedUnknown | src/polymarket_agent/tracking/tracker.py:690-722 | Rows without a category or a regime, or with an empty one, count as "unknown" |
| Metrics.GroupedSnoc | src/polymarket_agent/tracking/tracker.py:720-730 | One more row adds its own tally to its key's entry and touches no other |
| Metrics.SidesAddUp | src/polymarket_agent/tracking/tracker.py:706-715 | The YES and NO statistics add up to the whole if and only if every closed row is one of the two |
| Metrics.CountStreaks | src/polymarket_agent/tracking/tracker.py:765-789 | The longest streaks are the longest contiguous all-win and all-loss segments; the current streak is the trailing run |
| Metrics.StreakSnoc | src/polymarket_agent/tracking/tracker.py:771-789 | A further row grows or breaks the trailing run, and only that run can beat the longest one |
| Metrics.StreaksAreDetermined | src/polymarket_agent/tracking/tracker.py:765-789 | The four streak figures are determined by the closing order |
| Metrics.CloseOrderIsStable | src/polymarket_agent/tracking/tracker.py:632-637 | Streaks are read off exactly the closed rows, by closing time, ties in table order |
| Metrics.GetMetrics | src/polymarket_agent/tracking/tracker.py:627-789 | Of the report: totals, both dictionaries, both sides and the streaks as above |
| Reports.TotalIsRealised | src/polymarket_agent/tracking/tracker.py:639-646 | The total of the report is the realised P&L of the same rows of the trades table |
| Reports.ReportAgrees | src/polymarket_agent/tracking/tracker.py:639-646 | After any run of the desk the total of the report is what its passes reported |

## Left out

- Oversell.OversellExactly: for bracket lifetimes that are not negative; with a negative one children expire before the witness run can fire them.
- LosingRun.TakeProfitBooksLoss: one configuration and one run, as the witness; the condition over all tables and continuations is TakeProfits.TakeProfitSafeExactly.
- TakeProfits.TakeProfitSafeExactly: from tables between two visits, with no answers awaited; an answer already awaited when its entry is cancelled could still fill it. For triggers from 0 to below 1, which the clamp of every level ensures; of a live entry `top` is at least its limit, at which a fill without a price is booked, and its size is in whole units where the reports are, as sizes in cents are.
- GatedRuns.EntriesAreApart: on a clock that never goes back and until the hard cap drops a stamp, after which a key that was dropped can be placed again.
- Stakes.SoldIsStakeExactly: for a pass that does not also fill the entry; BracketExits.BookedExit says which stake is booked when it does.
- PaperOvertake.GridPaperSafeExactly: for sizes and steps on the 1e-8 grid; off it every pass weighs its price by the unrounded step, so the average has no closed form, and DearPasses.DearIsDecided computes it.
- BracketExits.WholeEntryExits: for averages up to 0.99 at a take-profit and from 0.01 at a stop-loss; beyond them the clamp puts the level on the other side of the average, as Lifecycle.LevelsAroundEntry says exactly.
- Slippage.WalkIsOptimal: for level sizes that are not negative; a negative size is no liquidity, and the code does not filter it.
- Wallets.WeightedTracksAllocations: for recorded amounts between zero and M and distinct addresses, which the bound needs.
- Desk.DeskIsSound: rows are closed by exit events only; HandCloses.ClosedExactly has the rows closed by hand as well, as the trade reconciler does; when it decides to is not modelled.
- Metrics.GetMetrics: leaves out averages, Brier scores, calibration buckets, exposure, signal accuracy and status counts: plain ratios and counts.
- Splitting a live order into chunks, its submission, the intent log in SQLite, and balance and gas checks; the result of a submission is an action with arbitrary outcome.
- The parsing of exchange responses; a parsed answer is an arbitrary input.
- The failure of a live closing order is an action of its own; its submission is not modelled.
- Token ids and exchange order ids, event messages, alerts and logging.
- The kill-switch file (a boolean input), the random ids (a counter), and address derivation (a function argument).
- Rolled-back database transactions, and the migration of the trades table.
- Wallets, trade rows and positions are values inside a list field, so aliasing of one row through two references is not captured; orders are objects.
- Exceptions inside history loading or correlation; a failing load is a missing history and a failing correlation a missing value.
- The awaiting of the guarded coroutine in the circuit breaker; a call is its beginning and its outcome.
- The fallback exit price of `close_trade_for_order` for events without one; every exit event carries its fill price.
- Edge estimation, model fitting and feature engineering.
- TWAP, batch and arbitrage execution, the paper engine and the trade reconciler.
- Floating-point error.

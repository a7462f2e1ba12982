# Verified models of the finance and futures services

This project models the parts of the repository with the most state, branching and arithmetic, and proves what
they keep over every input, every run or every interleaving. Check all of it with `dafny verify dfyconfig.toml`.

What is modelled, by file:

- **Backtest engine** — `CausalPrices` (forward adjustment as of a day) and `CausalFactors` (what one action does to the
  history), `Drawdown` (running peak against worst fall), `Backtest` (the day loop with its orders, fees, lots, corporate
  actions and receivable). What it answers is said over the data alone in `BacktestSetup` (which runs are refused),
  `BacktestAnswers` (orders), `BacktestFees` (charges), `BacktestActions` (splits and dividends) and `BacktestDays` (rows,
  orders and signals of a day); what holds over whole runs in `BacktestOrders`, `BacktestLedger`, `BacktestSettlement`,
  `BacktestShares` and `BacktestCausality`. `BacktestPlainRuns` (days nothing interferes with) serves the families of runs
  of `BacktestLateSettlement` and `BacktestOverdraft`.
- **Research runs** — `ResearchRun` (the row, every conditional update of it and the agents that read in one step and
  write in a later one), `ResearchRunSafety` (what holds over every interleaving), `ResearchRunTimes` (who may change the
  row when), `ResearchRunReaping` (lost leases), `ResearchRunDeletion` (when a requested deletion happens), `Admission`
  (creation over the table of all runs).
- **Budgets and grants** — `RunBudget` (the counter form refines the counting form) and `RunBudgetCaps` (answers and
  limits by the rows), `FuturesBudget` and `FuturesLedger` (double entry between users, reservations and the module),
  `FuturesQuota` (answers and tokens), `FuturesHistory` (accounts by the operations that succeeded), `Grants` and
  `GrantAnswers` (one-time tokens).
- **Small stateful objects** — `LoginLimiter` (backoff and eviction), `LoginWindow` (passes in any fifteen minutes),
  `BackupBarrier` (a lock held across calls), `BackupAnswers` (its calls alone), `BackupStaleEnd` (an End that comes too
  early).
- **Text and records** — `SqlSplit` and `SqlLexemes` (the migration splitter), `DocumentSpans` and `DocumentOffsets`
  (paragraph spans and their offsets), `Observations` and `ObservationIngest` (point-in-time snapshots and the chain of
  revisions) and `ObservationAnswers` (what both answer).

`Common`, `Market`, `RealMath`, `Sums` and `WhiteSpace` hold shared data types and small facts.

How to read the models:

- A loop or an object of the source is a method or a class, proved equal to a specification function; the properties
  are then lemmas about that function, and what it computes is said once more over the data, without its helpers.
  Transactions and conditional UPDATE statements are atomic steps that report
  whether a row changed. Concurrency is an arbitrary sequence of steps of any number of agents; the clock of a step is
  an argument and, unless a lemma says otherwise, need not be monotone.
- Decimals are reals, so division is exact. Dates and times are integers of which only the order, or the distance in
  nanoseconds for the login limiter, is used. Ids, hashes and digests are numbers, so equal exactly when equal in the
  source and free of collisions; the empty string is a number set aside or an absent value.
- Indicators and strategy conditions are arguments of the backtest: `computable`, `exit` and `entry`. The no-look-ahead
  results assume that a condition on bar i reads bars up to i.
- The lease authorizer, the executor's acknowledgement, the report checks and drawn uuids are arguments of the steps.

Where the code does not do what it might be thought to do, the code is modelled and the fact is stated by a lemma:

- With T+N settlement for N >= 2 the engine sells earlier when the data ends earlier, so it looks ahead exactly for
  N >= 2 (`BacktestLateSettlement.LookAheadFreeIffAtMostT1`).
- Selling can cost more than it brings, so cash and equity can go below zero (`BacktestOverdraft.CashBoundIsTight`).
  Then the single pass misses falls from a lower start: a run reports its worst fall, and one of at most 1, exactly
  when no equity row is negative (`BacktestLedger.ReportedDrawdownIsRightIff`,
  `BacktestOverdraft.ReportedDrawdownCanHideAFall`).
- Deleting a run that is being canceled can be lost: the finaliser uses the stage it read before the deletion was asked
  for. It deletes the run exactly if that stage was deleting or it runs for the deletion itself, and the deletion is
  lost for good exactly when no agent is left that will carry it out (`ResearchRunDeletion.FinaliserDeletesIff`,
  `ResearchRunDeletion.LostForGoodIff`, `ResearchRunDeletion.DeletionCanBeLost`).
- The reaper ends a run by its version, which a renewal of the lease does not change, so it can reap a run whose lease
  was renewed after its read (`ResearchRunReaping.RenewedRunCanBeReaped`): the lease a run is reaped with is the
  expired one that was read exactly unless it was renewed since (`ResearchRunReaping.ReapedAfterExpiry`).
- A known settlement may take a futures account past its limit (`FuturesLedger.SettlementCanPassTheLimit`); the exact
  condition is `FuturesLedger.SettlementWithinLimitsIff`.
- End checks the barrier in two loads without the lock, so an End that arrives before its epoch is stored can end that
  epoch while its Begin is still under way. The barrier is then active with its lock free: guarded requests get 503,
  Begin is refused as active and no End can change it until a restart (`BackupStaleEnd.StaleEndBreaksFromStart`,
  `BackupStaleEnd.BrokenRefuses`). The release trap of `app/scripts/backup.sh` can send such an End, for a Begin that
  was cut off. An End is safe exactly when its epoch is stored (`BackupStaleEnd.EndIsSafeIffStored`); if all Ends
  come that late, the 503 and the refusal of Begin as active are never given (`BackupBarrier.NeverRefusedAsActive`).
- Ingest does not keep (series, period, revision) unique (`ObservationIngest.OneRevisionTwice`), and a snapshot depends
  on the order of its records exactly when two usable records differ at the top revision of a period
  (`Observations.OrderIndependentIff`).
- An inserted row's link is right exactly unless it is a first revision that supersedes something
  (`ObservationIngest.LinkIsRightIff`): such a row may supersede one of another series
  (`ObservationIngest.FirstRevisionSupersedesElsewhere`).

## Model

| member | source | states |
|---|---|---|
| CausalPrices.CloseBefore | app/server/service/backtest/causal.go:47-54 | the close of the last bar dated before the day, or zero when there is none |
| CausalPrices.FactorsFor | app/server/service/backtest/causal.go:13-37 | the price and volume factors of a bar are the products over all actions, an action inactive on the bar counting as one |
| CausalPrices.ApplyFactor | app/server/service/backtest/causal.go:24-37 | one active action multiplies both factors by its own, whichever its kind; CausalFactors.OneMoreAction says what that does to the bars |
| CausalPrices.CausalQfq | app/server/service/backtest/causal.go:10-45 | every bar is its raw bar scaled by the products of the factors active on it |
| CausalPrices.CausalIgnoresActionOrder | app/server/service/backtest/causal.go:10-45 | the adjusted history is the same for every rearrangement of the actions |
| CausalPrices.CloseBeforeIgnoresLaterBars | app/server/service/backtest/causal.go:47-54 | bars dated on or after a day do not change the close before it |
| CausalPrices.AsOfConsistency | app/server/service/backtest/causal.go:10-54 | for days i <= j each bar of the earlier history reappears in the later one scaled by exactly the factors of the actions that became active in between |
| CausalPrices.SplitsKeepTradedValue | app/server/service/backtest/causal.go:24-37 | with splits only, price times volume of every bar is unchanged, at each of its four prices |
| CausalFactors.OneMoreAction | app/server/service/backtest/causal.go:14-42 | adding one action anywhere in the list rescales exactly the bars before it took effect: a dividend below the last close p before it multiplies prices by (p - c) / p, a split divides prices and multiplies volume, other and later bars stay |
| CausalFactors.OneDividend | app/server/service/backtest/causal.go:31-37 | one dividend takes itself off the last close before it takes effect and its share off earlier prices; volumes and later bars stay |
| Drawdown.MaxDrawdown | app/server/service/backtest/engine.go:598-605 | the greatest noted drawdown: an upper bound of all rows, zero or one of them |
| Drawdown.SinglePassIsWorstFall | app/server/service/backtest/engine.go:294-309 | without negative equity the running-peak pass finds the worst relative fall over all pairs of points, and it lies in [0, 1] |
| Drawdown.AtMostWholeIffNoDebt | app/server/service/backtest/engine.go:294-309 | the reported drawdown is at most 1 exactly when no equity value is negative |
| Drawdown.WorstFallWithinWholeIff | app/server/service/backtest/engine.go:294-309 | the pass finds the worst fall, and one of at most 1, exactly when no equity value is negative |
| Drawdown.NegativeEquityHidesAFall | app/server/service/backtest/engine.go:294-309 | a curve with negative equity whose reported drawdown is not its worst fall |
| Backtest.SumLots | app/server/service/backtest/engine.go:286-292 | the total quantity of the lots |
| Backtest.SellableQty | app/server/service/backtest/engine.go:449-458 | the total quantity of the lots whose available day has been reached, all of them for T+0 |
| Backtest.ReduceLots | app/server/service/backtest/engine.go:482-499 | the loop leaves what first-in-first-out consumption leaves |
| Backtest.ApplyActions | app/server/service/backtest/engine.go:311-335 | cash, lots and receivable after the day's actions, each judged by the holding at the start of the day |
| Backtest.Execute | app/server/service/backtest/engine.go:374-480 | the order and the book after the pending order meets the day, for every gate, rounding, cap and fee; BacktestAnswers and BacktestFees say over the data which order and book that is |
| Backtest.TradeDay | app/server/service/backtest/engine.go:187-203 | a filled order and a refused buy are dropped, a refused exit stays pending |
| Backtest.RunDay | app/server/service/backtest/engine.go:175-238 | one iteration of the day loop with its skips and early exits; BacktestDays.DayLives says over the data what it does |
| Backtest.DayLoop | app/server/service/backtest/engine.go:175-238 | the loop ends in the state reached by all days, or stops at the end date or an indicator error |
| Backtest.Run | app/server/service/backtest/engine.go:106-268 | every refusal in the order of the checks, else the outcome of the day loop |
| Backtest.StaysEnded | app/server/service/backtest/engine.go:180-182 | past the end date or an indicator error no later bar matters |
| BacktestSetup.RunIsRefusedIff | app/server/service/backtest/engine.go:106-159 | which runs are refused with which code, the first reason deciding; the others run with their own cash, ten basis points of slippage and one percent of the volume unless given, and can fail only by an indicator error |
| BacktestAnswers.BuyIsAnswered | app/server/service/backtest/engine.go:374-435 | a purchase takes the greatest whole number of lots that both volume caps and the budget at the rates allow, at the least tick not below the slipped open, and each refusal has its exact reason |
| BacktestAnswers.ExitIsAnswered | app/server/service/backtest/engine.go:437-479 | a sale takes the greatest whole number of lots that the settled part of the lot and both volume caps allow, at the greatest tick not above the slipped open, and each refusal has its exact reason |
| BacktestAnswers.BoughtLotSettles | app/server/service/backtest/engine.go:429-431 | a bought lot is sellable from the day of the bar N later, or after the day of purchase if the data ends before that bar |
| BacktestFees.FilledIsCharged | app/server/service/backtest/engine.go:544-558 | every fill pays the larger of the minimum and the rated commission, the stamp duty of its own side and the transfer fee on price times quantity, and moves cash by that amount less them; a purchase adds one lot at its full cost |
| BacktestFees.LedgerByAmounts | app/server/service/backtest/engine.go:374-480 | in every loop state cash plus receivable is initial cash plus sold less bought, less a commission a fill and the rates on the amounts of their sides, plus the dividends due on the shares held |
| BacktestActions.SharesMove | app/server/service/backtest/engine.go:311-325 | on every traded day the shares held are those of the day before times the day's split ratios, and what the order moved |
| BacktestActions.MorningPays | app/server/service/backtest/engine.go:326-333 | cash and receivable together grow by what the shares are due, cash waits for a pay day, and a pay day that records nothing later pays out everything |
| BacktestDays.DayLives | app/server/service/backtest/engine.go:175-238 | each day ends the loop, breaks it, is skipped, notes one row that marks the book to the close, submits the waiting order once, and signals a risk exit, an exit or an entry exactly under their thresholds and conditions |
| BacktestDays.RunLives | app/server/service/backtest/engine.go:175-238 | so lives every bar of every accepted run |
| BacktestOrders.FloorLotIsGreatest | app/server/service/backtest/engine.go:501-508 | the greatest whole number of lots that is not more than the quantity |
| BacktestOrders.RoundTickIsAgainstTrader | app/server/service/backtest/engine.go:510-519 | whole ticks, up when buying and down when selling, by less than a tick |
| BacktestOrders.BuyIsSound | app/server/service/backtest/engine.go:399-435 | a purchase takes whole lots, at least one, within both participation caps, at no less than the slipped open, and is paid for in full, fees included |
| BacktestOrders.SellIsSound | app/server/service/backtest/engine.go:437-479 | a sale takes whole lots, no more than is sellable or the caps allow, at no more than the slipped open |
| BacktestOrders.ReducedTakesQuantity | app/server/service/backtest/engine.go:482-499 | exactly the sold quantity leaves the lots, from the oldest on, and what stays is positive |
| BacktestLedger.ActionsConserve | app/server/service/backtest/engine.go:311-335 | actions change cash plus receivable by the accrued dividends only, and never lower cash |
| BacktestLedger.LedgerBalances | app/server/service/backtest/engine.go:187-203 | in every loop state cash plus receivable is initial cash plus all fill deltas plus all accrued dividends |
| BacktestLedger.SaleCostsAtMostMinimum | app/server/service/backtest/engine.go:544-558 | with non-negative rates summing to at most 1 a sale lowers cash by at most the minimum commission |
| BacktestLedger.OrderKeepsCashBound | app/server/service/backtest/engine.go:374-480 | one order keeps the cash bound, and cash is not negative right after a buy |
| BacktestLedger.CashBound | app/server/service/backtest/engine.go:175-238 | cash never falls below minus the minimum commission times the sells since the last buy |
| BacktestLedger.ReportedDrawdownIsWorstFall | app/server/service/backtest/engine.go:572-605 | the drawdown a run reports is the worst fall of its own equity rows when none is negative |
| BacktestLedger.ReportedDrawdownIsRightIff | app/server/service/backtest/engine.go:572-605 | a run reports the worst fall of its equity rows, and one of at most 1, exactly when no row is negative |
| BacktestOverdraft.SellsEveryDay | app/server/service/backtest/engine.go:437-479 | the run of the family sells one share a day for nothing and pays the minimum commission each time |
| BacktestOverdraft.CashBoundIsTight | app/server/service/backtest/engine.go:437-479 | for every minimum commission and every number k some run has sold k times since its last buy and reaches the cash bound exactly |
| BacktestOverdraft.ReportedDrawdownCanHideAFall | app/server/service/backtest/engine.go:294-309 | some run notes negative equity and reports a drawdown that is not the worst fall of its rows |
| BacktestSettlement.ActionsKeepOneLot | app/server/service/backtest/engine.go:311-335 | actions rescale the lot, keep it positive and leave its available day |
| BacktestSettlement.ExitSellsWhatIsSettled | app/server/service/backtest/engine.go:443-479 | a filled exit sells no more than the lot, on or after its available day, and leaves the rest of it |
| BacktestSettlement.SettlementHolds | app/server/service/backtest/engine.go:188-236 | in every loop state there is at most one lot, positive; a pending buy meets none and a pending exit exactly one; every sell is explained by an earlier buy |
| BacktestSettlement.SellsRespectSettlement | app/server/service/backtest/engine.go:426-479 | in the result every sell comes after the buy it closes and at least N bars later, unless the data ends within N bars of that buy |
| BacktestShares.SharesAlwaysBalance | app/server/service/backtest/engine.go:426-499 | without splits the shares held are, in every loop state, those of the last buy less those sold since |
| BacktestShares.NeverSellsMoreThanBought | app/server/service/backtest/engine.go:426-499 | without splits the quantities sold after a buy never sum to more than it bought |
| BacktestCausality.RunsAgreeBeforeCut | app/server/service/backtest/engine.go:175-238 | for T+0 and T+1 the run on the first k bars is in the same state as the full run before bar k |
| BacktestCausality.RunsAgreeAtCut | app/server/service/backtest/engine.go:429-431 | at the cut the two states differ at most in the available day of a lot |
| BacktestCausality.RunExtends | app/server/service/backtest/engine.go:175-238 | orders, fills, equity rows and signals are only ever appended to |
| BacktestCausality.NoLookAhead | app/server/service/backtest/engine.go:175-238 | for T+0 and T+1 every output of the run on a prefix of the data is a prefix of the full run's output |
| BacktestPlainRuns.ThirdBarDecides | app/server/service/backtest/engine.go:188-236 | entry on bar 0 and exit signal on bar 1: the exit fills on bar 2 exactly if the lot counts as available by then |
| BacktestLateSettlement.LateSettlementLooksAhead | app/server/service/backtest/engine.go:429-431 | for every N >= 2 there is data on which the prefix run sells a lot that the full run refuses to sell |
| BacktestLateSettlement.LookAheadFreeIffAtMostT1 | app/server/service/backtest/engine.go:374-480 | the engine never looks ahead with T+N settlement exactly when N <= 1 |
| ResearchRun.RunStore.CasUpdateRun | app/server/service/finance/run_state.go:121-144 | the patch applies and the version rises by one exactly when version, deletion mark and status allow it |
| ResearchRun.RunStore.CancelResearch | app/server/service/finance/research_service.go:590-622 | what a cancellation does to the row, and whether it left the run canceling |
| ResearchRun.RunStore.DeleteResearch | app/server/service/finance/research_service.go:639-661 | an active run starts to cancel, any other is marked deleted, a deleted one stays |
| ResearchRun.RunStore.PublishReport | app/server/service/finance/research_service.go:720-841 | a report is added exactly when every fence passes, together with the terminal status; ResearchRunTimes.PublishesIff lists the fences over the row |
| ResearchRunTimes.StepMovesStatus | app/server/service/finance/nodes.go:14-34 | the status after any step of any agent, from the row and what the agent remembers |
| ResearchRunTimes.StepMovesLease | app/server/service/finance/worker.go:46-117 | the lease after any step: fifteen seconds from the clock of claim or renewal or the clock freeze read before, none after the end |
| ResearchRunTimes.StepMovesDeletion | app/server/service/finance/report_service.go:12-50 | a run becomes marked deleted exactly by who asked for it or more than thirty days after its creation |
| ResearchRunTimes.ReadsFind | app/server/service/finance/worker.go:46-102 | exactly which rows each reading agent goes on with |
| ResearchRunTimes.DeadlineIffFrozen | app/server/service/finance/nodes.go:22-30 | a run has a deadline exactly once it was frozen |
| ResearchRunTimes.PublishesIff | app/server/service/finance/research_service.go:720-841 | a step publishes exactly for a valid structural report under the current fence of a verifying run, within lease and deadline, and the report's quality decides the status |
| ResearchRunTimes.PublishedInTime | app/server/service/finance/research_service.go:732-737 | over every interleaving a report is published within the lease and not later than the run's time after the clock its own orchestrator read at freeze |
| ResearchRunTimes.TimedOutLate | app/server/service/finance/worker.go:70-85 | a run fails in the queue only after a read of the clock at or past its queue timeout |
| ResearchRunReaping.ReapedAfterExpiry | app/server/service/finance/worker.go:87-102 | a run is reaped only after a read that found its lease run out, and the lease it is reaped with is that one exactly unless it was renewed since |
| ResearchRunReaping.RenewedRunCanBeReaped | app/server/service/finance/worker.go:87-117 | a trace in which a run is reaped while its renewed lease still runs |
| ResearchRunSafety.StepMovesRow | app/server/service/finance/run_state.go:121-144 | no step lowers the version, every change of status raises it, deletion is never undone and no run is queued again |
| ResearchRunSafety.StepKeepsInv | app/server/service/finance/nodes.go:14-34 | every step of every agent keeps what the agents' fences and remembered versions say about the row |
| ResearchRunSafety.TerminalStays | app/server/service/finance/nodes.go:484-511 | no step changes a terminal status, though failOrIncomplete does not exclude incomplete and the reaper does not look at the status |
| ResearchRunSafety.InvAlways | app/server/service/finance/worker.go:46-117 | the invariant holds after every trace |
| ResearchRunSafety.RunMovesForward | app/server/service/finance/run_state.go:121-144 | over any stretch of a run the version never falls and rises if the status differs |
| ResearchRunSafety.TerminalForever | app/server/service/finance/worker.go:87-102 | once terminal, the status is the same for the rest of every trace |
| ResearchRunSafety.FencesAreCurrentOnlyWhileOpen | app/server/service/finance/nodes.go:304-348 | a fence is never ahead of the version and equals it only while the run is researching or verifying |
| ResearchRunSafety.AtMostOneOrchestratorAndReport | app/server/service/finance/worker.go:46-54 | although claims are not exclusive, at most one orchestrator ever passes freeze and at most one report is ever published |
| ResearchRunSafety.StepKeepsCanceling | app/server/service/finance/worker.go:104-117 | a canceling run stays so with the same lease until it is canceled: nothing renews the lease |
| ResearchRunSafety.CanceledRunsHaveNoReport | app/server/service/finance/research_service.go:720-841 | a run that is canceling or canceled at some point never had and never gets a report |
| ResearchRunSafety.CancelConverges | app/server/service/finance/run_state.go:146-198 | one pass of the cancel loop with the clock at or past the lease leaves the run canceled, acknowledged or not, whatever others do in between |
| ResearchRunDeletion.FinaliserDeletesIff | app/server/service/finance/run_state.go:146-188 | a finaliser nobody interrupts leaves the run deleted exactly if it saw the stage deleting or runs for the deletion itself |
| ResearchRunDeletion.DeletionCompletes | app/server/service/finance/run_state.go:146-188 | such a finaliser leaves the run deleted whatever all other agents do between its steps |
| ResearchRunDeletion.LostForGoodIff | app/server/service/finance/run_state.go:146-188 | a canceled undeleted run stays undeleted over every continuation without a new request to delete exactly when no agent is in a deleting step |
| ResearchRunDeletion.StaysUndeleted | app/server/service/finance/research_service.go:639-683 | over every such continuation the run stays undeleted and nobody comes to delete it |
| ResearchRunDeletion.DeletionCanBeLost | app/server/service/finance/research_service.go:639-683 | a trace in which a deletion is asked for and lost for good: the run ends canceled, with no agent left |
| Admission.ResearchTable.CreateResearch | app/server/service/finance/research_service.go:316-478 | a run is created exactly for a new key that draft, owner, global and daily limits and the unique index allow, a known key is answered with its run or a conflict, and each refusal is given in the order of the checks |
| Admission.OneRunPerKeyAndDraft | app/server/service/finance/research_service.go:330-356 | after any history an owner's key names at most one run and a draft is confirmed at most once |
| Admission.KeyIsForGood | app/server/service/finance/research_service.go:330-337 | once a run was created its key names exactly that run for good: repeating the request, equal or not, changes nothing |
| Admission.RefusedIff | app/server/service/finance/research_service.go:338-402 | each refusal of a new key, exactly, over the rows: draft, active run, two busy runs in all, ten since midnight, index |
| Admission.AtMostTwoBusy | app/server/service/finance/research_service.go:371-391 | after any history at most two undeleted runs are busy, and at most one of an owner |
| Admission.AtMostTenADay | app/server/service/finance/research_service.go:392-402 | after any history an owner has at most ten runs created from one midnight to the next |
| Admission.StepNeverActivates | app/server/service/finance/research_service.go:380-391 | no step of a run makes it active again or moves its creation time |
| Admission.AdmissionBounds | app/server/service/finance/research_service.go:380-391 | after any history at most two non-deleted runs are active, at most one per owner, and no owner starts more than ten a day |
| RunBudget.ParsedCapsAreSane | app/server/service/finance/run_state.go:58-83 | whatever is stored, the caps in force are positive, no role may use more than its run, and parsing again changes nothing |
| RunBudget.FrozenIsEnforced | app/server/service/finance/run_state.go:35-83 | the budget frozen at admission is the one enforced later |
| RunBudget.DBBudget.Reserve | app/server/service/finance/budget_service.go:25-117 | the counting form decides by the rows in the ledger and adds one row when it grants |
| RunBudget.DBBudget.Reconcile | app/server/service/finance/budget_service.go:119-141 | one row takes its final status, or the reservation is not found |
| RunBudget.MemoryBudget.constructor | app/server/service/finance/budget_memory.go:21-26 | a new counter form holds the default counters of the run named "run" |
| RunBudget.MemoryBudget.Reserve | app/server/service/finance/budget_memory.go:30-106 | the counter form decides by its counters and lowers those of the request |
| RunBudget.MemoryBudget.Reconcile | app/server/service/finance/budget_memory.go:108-139 | the row with the id takes its final status, whatever the order the rows are walked in |
| RunBudget.ReserveRefines | app/server/service/finance/budget_memory.go:30-106 | from related states both forms give the same answer and stay related: every counter is its cap less the rows charged to it |
| RunBudget.ReconcileRefines | app/server/service/finance/budget_memory.go:108-139 | reconciling keeps the two forms related and answers alike |
| RunBudget.ReconcileKeepsCounts | app/server/service/finance/budget_service.go:119-141 | reconciling never frees capacity |
| RunBudget.SameAnswers | app/server/service/finance/budget_memory.go:30-139 | over every history of reservations and reconciliations both forms accept and refuse the same requests with the same row ids |
| RunBudget.NeverOverCap | app/server/service/finance/budget_service.go:25-117 | no run, parse or task ever has more rows charged to it than its cap |
| RunBudget.RetryIsFree | app/server/service/finance/budget_service.go:25-60 | after every later history a request id once granted is granted again with the same reservation and changes nothing, in both forms |
| RunBudgetCaps.RequestIsAnswered | app/server/service/finance/budget_service.go:25-117 | each answer exactly: known request, calls of its kind and run, calls of its kind and task, else one row is added |
| RunBudgetCaps.RunStaysWithinItsCalls | app/server/service/finance/budget_service.go:44-80 | after any history the model and tool calls of a run are within its own two numbers, and those of a task within the two of its role |
| RunBudgetCaps.ParseStaysWithinItsCalls | app/server/service/finance/budget_service.go:44-80 | the same for the calls of a parse and the default numbers |
| RunBudgetCaps.ReconciledAs | app/server/service/finance/budget_service.go:119-141 | exactly the named row takes its final status and, if both parts are known, its tokens |
| FuturesBudget.BudgetStore.SeedTx | app/server/service/futures/budget.go:82-87 | an account is created with zero counters unless it exists |
| FuturesBudget.BudgetStore.AddBudgetUsage | app/server/service/futures/budget.go:168-180 | exactly the row with the key is charged with amount, tokens and call |
| FuturesBudget.BudgetStore.ReserveTx | app/server/service/futures/budget.go:95-130 | both accounts are charged and the reservation inserted, or nothing changes and the reason is given; FuturesQuota.ReservationIsAnswered says when |
| FuturesBudget.BudgetStore.SettleKnownTx | app/server/service/futures/budget.go:201-230 | the two-pass loop moves both accounts from reserved to spent and settles the row, or nothing changes |
| FuturesBudget.BudgetStore.SettleUnknownTx | app/server/service/futures/budget.go:182-199 | the reservation becomes unknown and stays held, or nothing changes |
| FuturesBudget.OtherRowStays | app/server/service/futures/budget.go:95-130 | charging the user's row leaves the module's row where it was |
| FuturesLedger.ReserveKeepsInv | app/server/service/futures/budget.go:95-130 | a reservation keeps both sides of the ledger balanced and call counts within limits; a refused one changes nothing |
| FuturesLedger.SettleUnknownKeepsInv | app/server/service/futures/budget.go:182-199 | settling at an unknown cost keeps the ledger balanced: the amount stays reserved |
| FuturesLedger.SettleKnownKeepsInv | app/server/service/futures/budget.go:201-230 | settling at a known cost keeps the ledger balanced; a failed one changes nothing |
| FuturesLedger.SeedKeepsInv | app/server/service/futures/budget.go:82-87 | a new account, also a module account seeded late, starts balanced |
| FuturesLedger.DoubleEntry | app/server/service/futures/budget.go:95-230 | after any history each user's reserved amount and call counts are those of its reservations, every module field is the sum over the users of the day, and call counts are within limits |
| FuturesLedger.SettlementWithinLimitsIff | app/server/service/futures/budget.go:201-230 | a known settlement keeps all accounts within limits exactly when what it costs above its reservation still fits both accounts |
| FuturesLedger.NeverOverLimit | app/server/service/futures/budget.go:95-230 | reserved plus spent never passes any limit if no settlement costs more than was reserved |
| FuturesLedger.SettlementCanPassTheLimit | app/server/service/futures/budget.go:201-230 | a history in which an account of limit 10 ends with 20 used |
| FuturesQuota.ReservationIsAnswered | app/server/service/futures/budget.go:95-130 | each answer exactly, over the fields: a missing account, what it would leave of money, tokens or calls past a limit, a row the tables refuse, else it is held |
| FuturesQuota.SettlementIsAnswered | app/server/service/futures/budget.go:201-230 | each answer of a known settlement, exactly; what a reservation holds is always there to be released |
| FuturesQuota.UnknownSettlementIsAnswered | app/server/service/futures/budget.go:182-199 | each answer of an unknown settlement, exactly; it can be had once |
| FuturesQuota.SettlementWithinTokensIff | app/server/service/futures/budget.go:201-230 | a known settlement keeps the token quotas exactly when what it used above its reservation still fits both accounts |
| FuturesQuota.NeverOverTokens | app/server/service/futures/budget.go:95-230 | no account with a token limit passes it if no settlement uses more tokens than were reserved |
| FuturesHistory.AccountsShowHistory | app/server/service/futures/budget.go:168-230 | after any history each of the five fields of each user's account is the sum of what the operations that succeeded put there |
| FuturesHistory.LimitsAsOpened | app/server/service/futures/budget.go:82-87 | every account keeps the limits it was opened with |
| Grants.MemoryGrantStore.constructor | app/server/service/futures/grants.go:221-223 | a new store holds no grant |
| Grants.MemoryGrantStore.Create | app/server/service/futures/grants.go:225-233 | a token in use is refused and its record kept |
| Grants.MemoryGrantStore.Peek | app/server/service/futures/grants.go:251-259 | the record as it is, unknown tokens denied |
| Grants.MemoryGrantStore.Consume | app/server/service/futures/grants.go:235-249 | an unspent grant is marked spent and returned as it was, any other is refused unchanged |
| Grants.DBGrantStore.Create | app/server/service/futures/grants.go:162-165 | the grant's row, without domain and mode, unless the token is taken |
| Grants.DBGrantStore.Peek | app/server/service/futures/grants.go:200-219 | the same answer as the memory store on the grants the table stands for |
| Grants.DBGrantStore.Consume | app/server/service/futures/grants.go:167-198 | the same answer and effect as the memory store on the grants the table stands for |
| Grants.RowKeepsRecordIff | app/server/service/futures/grants.go:162-219 | a grant survives the table exactly when it is unspent, of domain futures and mode live, with its token as nonce |
| Grants.GrantManager.Issue | app/server/service/futures/grants.go:77-98 | a grant is stored exactly for an issuable spec whose lease passes, good for sixty seconds |
| Grants.GrantManager.Use | app/server/service/futures/grants.go:100-132 | the sequential use: its answer and what it leaves in the store |
| Grants.UseSucceedsIff | app/server/service/futures/grants.go:100-132 | a use succeeds exactly when the grant is unspent, matches, is in time and both lease checks pass; it spends the grant exactly when the first check passes |
| Grants.StepKeepsInv | app/server/service/futures/grants.go:100-132 | no step of any call breaks: a token has at most one holder, which holds the record it consumed |
| Grants.InvAlways | app/server/service/futures/grants.go:100-132 | this holds after every interleaving of issues and uses |
| Grants.AtMostOneSuccess | app/server/service/futures/grants.go:235-249 | over every interleaving a token succeeds at most once |
| Grants.SuccessWasEarned | app/server/service/futures/grants.go:100-132 | a success consumed an unspent matching grant, then read the clock before expiry, then passed a lease check, in that order |
| Grants.HolderStays | app/server/service/futures/grants.go:107-131 | a call that took a grant keeps it forever and, once failed, stays failed |
| Grants.FailedUseBurnsToken | app/server/service/futures/grants.go:107-131 | a use that took the grant and failed, or does not match it, makes the token unusable for good |
| Grants.StepsAreUse | app/server/service/futures/grants.go:100-132 | the steps of a call nobody interrupts are the sequential use |
| GrantAnswers.RecordsWereIssued | app/server/service/futures/grants.go:77-98 | every stored grant of every history was issued under a passing lease check, well named, for sixty seconds |
| GrantAnswers.UsedWithinAMinute | app/server/service/futures/grants.go:77-132 | over every interleaving a use succeeds only for what was issued, less than sixty seconds after |
| LoginLimiter.LoginLimiter.constructor | app/server/httpx/session.go:369 | a new limiter knows no key |
| LoginLimiter.LoginLimiter.Allow | app/server/httpx/session.go:372-409 | the delay and the table after one call, eviction loop included |
| LoginLimiter.RefusedIffFullOfLiveKeys | app/server/httpx/session.go:377-386 | a call is refused for room exactly when its key is new and the table is full of unexpired keys |
| LoginLimiter.TableStaysBounded | app/server/httpx/session.go:377-409 | the table never exceeds its capacity |
| LoginLimiter.EvictionIsTransparent | app/server/httpx/session.go:372-409 | with a non-decreasing clock, apart from calls refused for room, every answer is that of a limiter that never evicts |
| LoginLimiter.AtMost24Attempts | app/server/httpx/session.go:393-407 | within its fifteen minutes no bucket sees a twenty-fifth attempt |
| LoginLimiter.AtMost23Passes | app/server/httpx/session.go:372-409 | a key without a live bucket gets at most 23 passes in the next fifteen minutes, whatever the other keys do |
| LoginLimiter.BoundIsSharp | app/server/httpx/session.go:393-407 | calling at the earliest moments gets exactly 23 passes |
| LoginWindow.AtMost31Passes | app/server/httpx/session.go:372-409 | in any fifteen minutes of any run a key gets at most 31 passes, also when one bucket ends and the next begins there |
| LoginWindow.BoundOf31IsSharp | app/server/httpx/session.go:372-409 | some fifteen minutes of some run hold exactly 31 passes of a key |
| LoginLimiter.WaitingIsEnough | app/server/httpx/session.go:390-407 | who is told to wait and calls again right then gets through, and being told to wait changes nothing except at the sixth attempt |
| BackupBarrier.Barrier.constructor | app/server/httpx/write_barrier.go:37-51 | a restart takes the barrier up again for the active epoch, lock held, or starts free |
| BackupBarrier.Barrier.Begin | app/server/httpx/write_barrier.go:53-71 | the barrier becomes active with the lock held exactly for a valid new epoch, waits for a held lock, else changes nothing |
| BackupBarrier.Barrier.End | app/server/httpx/write_barrier.go:84-103 | the active epoch is ended and the lock released, else nothing changes |
| BackupBarrier.InvAlways | app/server/httpx/write_barrier.go:37-126 | over every interleaving in which Ends arrive for stored epochs only: the lock has one owner, at most one epoch row is active, and the barrier is active exactly while it holds the lock for that epoch |
| BackupBarrier.ActiveMeansQuiet | app/server/httpx/write_barrier.go:105-126 | if Ends arrive for stored epochs only, an active barrier holds the write lock and no guarded request is being handled |
| BackupBarrier.NeverRefusedAsActive | app/server/httpx/write_barrier.go:105-126 | if Ends arrive for stored epochs only, no request is answered 503 and no Begin is refused as active: they wait for the lock |
| BackupBarrier.ReleasesOnlyWhatIsHeld | app/server/httpx/write_barrier.go:53-126 | if Ends arrive for stored epochs only, every release of the lock is by the call that owns it, or by a reader that has it |
| BackupBarrier.EachEpochEndsOnce | app/server/httpx/write_barrier.go:84-103 | over every interleaving each epoch is ended at most once, restarts included |
| BackupBarrier.OneEndPerEpoch | app/server/httpx/write_barrier.go:84-103 | over every interleaving two calls since the last restart that ended the same epoch are the same call |
| BackupBarrier.ExactlyOneEndWins | app/server/httpx/write_barrier.go:84-103 | of two Ends past the check the first to reach the table wins and the other fails; the winner leaves barrier and lock free |
| BackupBarrier.EndFinishes | app/server/httpx/write_barrier.go:99-102 | after its table update nothing keeps an End from releasing the lock |
| BackupBarrier.RestartRestores | app/server/httpx/write_barrier.go:37-51 | if Ends arrived for stored epochs only, a restart with no call changing the barrier brings back the same lock and the same epoch |
| BackupStaleEnd.StaleEndBreaksFromStart | app/server/httpx/write_barrier.go:84-103 | a trace from the start in which an End that arrived before its epoch was stored leaves the barrier active with its lock free |
| BackupStaleEnd.EarlyEndCanBreak | app/server/httpx/write_barrier.go:84-103 | wherever the barrier is sound, an End that arrives before its epoch is stored has a continuation, itself with Ends for stored epochs only, that breaks it |
| BackupStaleEnd.EndIsSafeIffStored | app/server/httpx/write_barrier.go:88 | after Ends for stored epochs only, a further End leaves the lock held whenever the barrier is active, over all such continuations, exactly when its epoch is stored |
| BackupStaleEnd.BrokenRefuses | app/server/httpx/write_barrier.go:53-126 | a broken barrier answers 503, refuses Begin as active and is changed by no End |
| BackupBarrier.BeginStepsAreBegin | app/server/httpx/write_barrier.go:53-71 | the steps of a Begin nobody interrupts are the method |
| BackupBarrier.EndStepsAreEnd | app/server/httpx/write_barrier.go:84-103 | the steps of an End nobody interrupts are the method |
| BackupAnswers.BeginThenEnd | app/server/httpx/write_barrier.go:53-103 | after a Begin only an End for the same epoch frees barrier and lock, leaving the row ended and all else as it was |
| BackupAnswers.RestartTakesLatest | app/server/httpx/write_barrier.go:37-51 | a restart takes up an active epoch exactly if there is one, and none that another was started after |
| SqlSplit.SplitStatements | app/server/initialize/migrate_sql.go:11-75 | the scanning loops give the trimmed non-empty pieces between the semicolons that are lexemes of their own |
| SqlSplit.DollarQuoteEnd | app/server/initialize/migrate_sql.go:79-93 | the end of the dollar-quoted body at i, if a well-formed one starts there |
| SqlSplit.LineCommentEnd | app/server/initialize/migrate_sql.go:18-24 | the end of the line comment at i |
| SqlSplit.BlockCommentEnd | app/server/initialize/migrate_sql.go:25-36 | the end of the block comment at i |
| SqlSplit.LiteralEnd | app/server/initialize/migrate_sql.go:37-51 | the end of the string literal at i |
| SqlSplit.PiecesRejoin | app/server/initialize/migrate_sql.go:11-75 | the pieces joined by semicolons are the input |
| SqlSplit.StatementsAreTrimmed | app/server/initialize/migrate_sql.go:60-75 | every statement is non-empty and starts and ends without white space |
| SqlSplit.StatementsStandAlone | app/server/initialize/migrate_sql.go:11-75 | splitting any statement again gives just that statement |
| SqlSplit.LexemeCut | app/server/initialize/migrate_sql.go:16-61 | text cut short keeps its complete lexemes, and an incomplete comment or literal then runs to the end |
| SqlLexemes.LineCommentIff | app/server/initialize/migrate_sql.go:18-24 | a line comment is exactly the text up to the first newline |
| SqlLexemes.BlockCommentIff | app/server/initialize/migrate_sql.go:25-36 | a block comment is exactly the text through the first close, or to the end |
| SqlLexemes.LiteralIff | app/server/initialize/migrate_sql.go:37-51 | a literal is exactly the text through the first quote that is the odd one of its run, or to the end |
| SqlLexemes.DollarIff | app/server/initialize/migrate_sql.go:79-93 | a dollar-quoted body is exactly the text through the first repetition of its tag |
| SqlLexemes.LexemeIff | app/server/initialize/migrate_sql.go:11-93 | the scanner's lexemes are exactly these, and single characters otherwise |
| SqlLexemes.CutIsFirstFreeSemicolon | app/server/initialize/migrate_sql.go:60-65 | the first cut is the first semicolon at a boundary between lexemes |
| SqlLexemes.CutsAreTheFreeSemicolons | app/server/initialize/migrate_sql.go:11-75 | the text is cut at a position exactly when a semicolon stands there that starts a lexeme |
| DocumentSpans.Flush | app/server/service/finance/document_service.go:454-478 | the span of a paragraph without its outer newlines, or nothing when it is blank |
| DocumentSpans.TextSpans | app/server/service/finance/document_service.go:449-496 | spans are in bounds, ordered and disjoint, carry their trimmed text, cover every rune that is not white space, contain no paragraph break and are separated by one |
| DocumentOffsets.ExtractPdf | app/server/service/finance/document_service.go:361-396 | the text is the pages joined by newlines, refused exactly when empty or too long; every span indexes its own text there, lies on its page and is numbered within it |
| DocumentOffsets.ShiftInto | app/server/service/finance/document_service.go:382-386 | the page's spans are appended, moved by the offset |
| DocumentOffsets.ExtractDocx | app/server/service/finance/document_service.go:422-446 | the text is the paragraphs joined by blank lines, refused exactly when empty or too long; span k is paragraph k and its stretch of the text is exactly that paragraph |
| DocumentOffsets.AppendedSpans | app/server/service/finance/document_service.go:376-388 | spans of a text and shifted spans of what is appended to it after white space are spans of the whole |
| DocumentOffsets.JoinedIsTrimmed | app/server/service/finance/document_service.go:393-394 | trimming the joined text changes nothing, so it moves no offset |
| DocumentOffsets.JoinedTooLong | app/server/service/finance/document_service.go:389-391 | text that is too long part of the way is too long in the end |
| Observations.Snapshot | app/server/service/futures/observations.go:23-45 | one record a period, by period: exactly the selected ones |
| Observations.RevisionHistory | app/server/service/futures/observations.go:47-56 | all records of the period with their multiplicity, by revision, and no others |
| Observations.SelectsFirstGreatest | app/server/service/futures/observations.go:24-33 | the selected record is the first usable one of the greatest revision of its period; periods without usable record are absent |
| Observations.LaterRecordsAreIgnored | app/server/service/futures/observations.go:26-28 | records usable only later, or of other series, change nothing |
| Observations.MonotoneInAsOf | app/server/service/futures/observations.go:23-45 | a later as-of time forgets no period and never goes back to a smaller revision |
| Observations.UniqueTopsIgnoreOrder | app/server/service/futures/observations.go:29-32 | with unique top revisions any order of the records selects the same |
| Observations.OrderIndependentIff | app/server/service/futures/observations.go:29-32 | a snapshot is independent of the order of its records exactly when no two different usable records share the top revision of a period |
| Observations.ListingIsUnique | app/server/service/futures/observations.go:34-45 | the sorted output is determined by the selection |
| ObservationIngest.ObservationTable.IngestOne | app/server/service/futures/ingest.go:195-262 | the row is inserted, found already there, or refused for the given reason |
| ObservationIngest.ObservationTable.IngestObservations | app/server/service/futures/ingest.go:53-79 | the batch appends exactly the listed ids, or the first failure leaves the table as it was |
| ObservationIngest.IngestKeepsChained | app/server/service/futures/ingest.go:195-216 | every row above revision 1 supersedes the revision just below it, of the same series and period |
| ObservationIngest.AlwaysChained | app/server/service/futures/ingest.go:195-216 | this holds after every history of batches |
| ObservationIngest.RevisionsHaveNoGaps | app/server/service/futures/ingest.go:195-216 | below any stored revision stands every revision from 1 on, in the same series and period |
| ObservationIngest.InsertKeepsUniqueIff | app/server/service/futures/ingest.go:249-262 | an insert keeps revisions distinct within their period exactly when that revision was not there yet |
| ObservationIngest.OneRevisionTwice | app/server/service/futures/ingest.go:249-262 | two different records of one revision are both accepted |
| ObservationIngest.LinkIsRightIff | app/server/service/futures/ingest.go:195-216 | the link of an inserted row leads to the revision just below it exactly unless it is a first revision that names a row as superseded |
| ObservationIngest.FirstRevisionSupersedesElsewhere | app/server/service/futures/ingest.go:208-216 | a history of two batches in which a revision 1 that names a row of another series as superseded is stored |
| ObservationAnswers.InputIsAnswered | app/server/service/futures/ingest.go:195-262 | each answer to an input, exactly, over the stored rows; an inserted row follows the revision just below it |
| ObservationAnswers.SnapshotShows | app/server/service/futures/observations.go:23-45 | a period is shown exactly if a record of it was usable by then, and as the first of those with the greatest revision |

## Left out

- HTTP handlers, routing, JSON, GORM and SQL text, migrations other than the constraints used, and database errors other than constraint violations: plumbing.
- Decimal precision, string forms of numbers and dates, 64-bit widths: decimals and integers are exact here.
- The strategy, indicator and market packages: arguments of the backtest; position sizing is the configured fraction.
- MaxHoldingBars, cost basis after a partial sell, metrics other than drawdown, result hash and manifest of the backtest: not computed or single expressions.
- Corporate actions dated on suspended days are skipped, as in the engine; no property is claimed about them.
- Backtest lots are values, so sharing of the slice that applyActions changes in place is not modelled; the first loop over sellable lots (engine.go:443-448), whose result is overwritten, is modelled once.
- BacktestLedger.ReportedDrawdownIsWorstFall: one direction only, as with negative equity the reported value may be the worst fall by accident; BacktestLedger.ReportedDrawdownIsRightIff, which also asks for at most 1, has both.
- Executor calls, task rows, tokens, evidence, report contents and notifications of research runs: answers from outside, arguments of the steps.
- The run's tool window (run_state.go:93-106) is a conjunction of comparisons without state and would add only an easy member.
- ResearchRun.RunStore.PublishReport: the report's own checks (schema, citations, unknowns, gate) are one boolean argument, as they read tables that nothing else here uses.
- Admission.ResearchTable.CreateResearch: the draft's own checks other than its confirmation are one boolean argument, the drawn run id is another, and the request's digest stands for the request.
- RunBudget.SameAnswers: for requests that name exactly one of run and parse and tasks bound to one run; for others the two forms use different keys. Key strings are kept apart by kind. Failed ledger writes of the memory form are not modelled.
- enforceRunLimits of the futures budget: never called by Reserve.
- BacktestAnswers.ExitIsAnswered: for a book with one lot, which is all a run ever holds (BacktestDays.OneLotAlways).
- Hashes and digests are taken as injective; HashArguments, password checks and sessions are not modelled.
- Grants: the nonce draw and its failure; the database store's clock.
- BackupBarrier: one process and one barrier; a load of the epoch string that overlaps a store of it (the source does not synchronise them) returns the old or the new value here; fairness of the lock, GET requests and the internal routes, which take no lock, and Status.
- Text is a sequence of characters; scanning bytes of UTF-8 gives the same cuts, as only ASCII characters are compared.
- splitMigrationSQL of the futures migrations (migrations.go:174-183) is another splitter with other rules, and schema parsing is not modelled.
- Unicode normalisation is an argument of the extraction; reading PDF, DOCX and HTML files is not modelled.
- Validation of ingested observations before the series is known, and of its quality fields; deleted observations, which no code produces.
- Sorting uses an insertion sort in place of sort.Slice, which promises no more than a sorted rearrangement.

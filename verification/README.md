# Budget and rate-limit enforcement, verified

A Dafny model of the quota management service in
`03-cost-control/config/budget-management/services/budget-management`, with proofs of what its
budget ledger, its approval workflows and its stream handlers keep in every run.

Run `dafny verify dfyconfig.toml` to check the whole project.

## What is modelled

Every LLM request is checked against a hierarchy of budgets, holds its estimated cost as `pending`
on every matched budget, and is charged its actual cost along the ancestors of its first reserved
budget when the response ends. Two background workers expire reservations and reset periods, and an
API creates, edits, approves and deletes budgets.

| file | models |
|---|---|
| `Model.dfy`, `RunningMinimum.dfy` | the rows; the running minimum the loops report |
| `HierarchySort.dfy`, `Admission.dfy`, `BucketFill.dfy` | the sort, the admission loop and the charging loop |
| `Ledger.dfy` | the three tables and the committed transactions on them, as steps |
| `HoldLaws.dfy`, `SpendLaws.dfy`, `ChildLaws.dfy`, `RequestLaws.dfy`, `Callers.dfy` | laws over all runs of those steps |
| `PlayLaws.dfy`, `Overlaps.dfy` | the same laws when transactions use what they read earlier |
| `Limits.dfy`, `Witnesses.dfy` | where the laws stop, with runs from empty tables |
| `Effects.dfy` | the transactions as the code commits them, with what they read earlier |
| `Forest.dfy`, `Descendants.dfy` | the recursive queries over parent links, which may form cycles |
| `LedgerService.dfy` | the service over mutable tables; each method refines its step |
| `CheckLaws.dfy`, `ChargeLaws.dfy`, `TableLaws.dfy`, `Filters.dfy` | what checks, charges, workers and the API do, said over the columns of the tables alone |
| `Hierarchy.dfy` | what the management API does to the hierarchy |
| `Concurrency.dfy`, `AdmissionOrder.dfy`, `Reads.dfy`, `Deadlock.dfy`, `LockPairs.dfy`, `Interleavings.dfy` | several pods and writers under row locks: commit order, what transactions read and miss, lock order, and failing interleavings |
| `BudgetStream.dfy` | the stream handler: chunks, one check, one charge |
| `BudgetTree.dfy`, `BudgetTreeLaws.dfy`, `PageOrder.dfy` | the budgets page's indented list |
| `BudgetApproval.dfy`, `Allocations.dfy`, `AttemptNumbers.dfy`, `AllocationTable.dfy` | the two approval workflows |
| `RateLimitMerge.dfy` | the merge of rate-limit allocations |
| `PriceCache.dfy` | the cache of model prices |

A run is a sequence of committed transactions from empty tables; an interleaving is a sequence of
single reads, locks, statements and commits of several pods. Money is an exact real. The
answers that depend on parts outside the model are parameters: which rows a query returns in which
order, which match expressions accept, prices and estimates, the clock, and the fields found in JSON
bodies.

## Where the code and its documents disagree

The code is followed in each case.

- `docs/DESIGN.md:243` defines pending as the sum of the active reservations. A completion deletes
  all of a request's reservations but releases the hold on the first reserved budget only
  (`service.go:761-768`), and a reset drops holds of live reservations. `HoldLaws.SumSurvivesIff`
  says exactly when the sum survives, `HoldLaws.HoldsAreConserved` what holds instead.
- `docs/ARCH.md:187` says the parent of an isolated child is not charged. The isolated charge is not
  subtracted (`service.go:725`), so the parent is charged again: `BucketFill.ChargedOnceIff`.
- `docs/DESIGN.md:363` has a reset delete the budget's reservations. It does not
  (`repository.go:393-446`), which is why the overspend bound carries what was live at the reset;
  `Limits.OverspendBoundIsTight` shows the bound is attained.
- `docs/DESIGN.md:205` says a new budget always starts pending. Org users and standalone budgets are
  approved at once (`handlers.go:701-713`).
- `docs/DESIGN.md:410-417` has approved budgets closed on deletion. In the code closed is reached
  only by the third rejection.
- `docs/DESIGN.md:243` concludes that two concurrent requests cannot both consume the same
  remaining budget. `Interleavings.StaleCompletionOverspends` is an interleaving in which they do:
  a completion reads its reservation outside its transaction (`service.go:610`, `637`) and a
  cleanup is three separate statements (`repository.go:592-642`).
  `Concurrency.ConcurrentOverspendIsBounded` says by how much, and when not.
- `docs/DESIGN.md:562` has a price change take effect within the cache's 60 seconds. A lookup of
  another model renews the deadline of all entries (`service.go:130-132`), and a lookup under way
  can store an old price after a refresh: `PriceCache.TtlBoundSurvivesIff`, `AnswersAreTrueIff`.
- The remaining amount in answers and headers is not always the minimum:
  `RunningMinimum.IsLeastIff`.

## Model

| member | source | states |
|---|---|---|
| SpendLaws.OverspendIsBounded | 03-cost-control/config/budget-management/services/budget-management/internal/budget/service.go:455-544 | In every run, a budget that cannot fall back, whose amount is not lowered and that requests charge at most what they reserved on it, has usage + live reservations <= amount + what was live at its last reset |
| SpendLaws.LimitIsKept | 03-cost-control/config/budget-management/services/budget-management/internal/budget/service.go:656-770 | The stronger invariant behind that bound: also pending >= live reservations - those live at the last reset, and the amount stays non-negative |
| SpendLaws.NoDoubleSpending | 03-cost-control/config/budget-management/services/budget-management/docs/DESIGN.md:243 | In the sequential ledger, a budget that is never reset: usage + live reservations never exceed the amount, so two requests cannot both be admitted into room for one |
| SpendLaws.CompletionKeepsLimit | 03-cost-control/config/budget-management/services/budget-management/internal/budget/service.go:602-788 | Whatever reservation a completion read, there or gone, it moves the bound by no more than what it charges or releases beyond what its request still holds |
| SpendLaws.CompletedRow | 03-cost-control/config/budget-management/services/budget-management/internal/budget/service.go:656-770 | What a completion leaves in one budget: usage plus its charge, pending less the estimate on the reserved budget only; nothing at all if a budget of the chain is gone |
| SpendLaws.GuardedHasNoExcess | 03-cost-control/config/budget-management/services/budget-management/internal/budget/service.go:602-788 | A completion that finds its reservation and costs no more than it holds moves the bound by nothing |
| Callers.CallersStayWithinLimit | 03-cost-control/config/budget-management/services/budget-management/internal/budget/service.go:413-439 | The overspend bound from what callers can see to: matches take in the ancestors, costs stay within the estimate, chains are current, and no budget is moved |
| Callers.CallersAreGuarded | 03-cost-control/config/budget-management/services/budget-management/internal/budget/service.go:602-632 | In every such run no completion charges a budget more than its request holds there |
| Callers.StepHoldsUpward | 03-cost-control/config/budget-management/services/budget-management/internal/budget/service.go:515-544 | Every step keeps this: whoever holds something on a budget holds the same, with the same expiry, on its parent |
| ChildLaws.StaleCharge | 03-cost-control/config/budget-management/services/budget-management/internal/budget/service.go:631-709 | A completion that read the child row x leaves usage <= max(usage, x.amount + (usage - x.usage)) |
| ChildLaws.ChildStaysWithinIff | 03-cost-control/config/budget-management/services/budget-management/internal/budget/service.go:687-709 | Exactly when a charge leaves a non-isolated child within its amount, however old the row that was read: it is within it before, and what reaches it or the room it was read with fits into the room it has |
| ChildLaws.ChildOvershootIsBounded | 03-cost-control/config/budget-management/services/budget-management/internal/budget/service.go:631-709 | In every run a non-isolated child overshoots its amount by at most the worst drift, that is, what it was charged between the read of a chain and its use, whatever the estimates |
| ChildLaws.EarlierRowsQualify | 03-cost-control/config/budget-management/services/budget-management/internal/db/repository.go:449-502 | The row a child had at any earlier moment of its life, resets included, meets what that bound asks of chains, so the unlocked read always does |
| ChildLaws.EarlierUsageIsLess | 03-cost-control/config/budget-management/services/budget-management/internal/db/repository.go:449-502 | Without a reset in between, the usage read is at most the current one, so the drift is what was charged since |
| PlayLaws.ChildOvershootInPlay | 03-cost-control/config/budget-management/services/budget-management/internal/budget/service.go:631-709 | The overshoot bound for every sequence of effects, with whatever reservation a completion read |
| ChildLaws.ChildNeverOverspends | 03-cost-control/config/budget-management/services/budget-management/internal/budget/service.go:687-709 | With chains that are current when used, a non-isolated child always has 0 <= usage <= amount |
| Witnesses.StaleChildOverspends | 03-cost-control/config/budget-management/services/budget-management/internal/budget/service.go:631-637 | From empty tables: two completions that read the team before either charged it leave usage 20 on an amount of 10 |
| SpendLaws.ChargeOf | 03-cost-control/config/budget-management/services/budget-management/internal/budget/service.go:656-737 | A completion charges a budget at its one place in the sorted chain, or not at all |
| SpendLaws.ChargeIsBounded | 03-cost-control/config/budget-management/services/budget-management/internal/budget/service.go:711-727 | A charge to one budget is between 0 and the actual cost, and 0 for a budget outside the chain |
| SpendLaws.LedgersAgreeIff | 03-cost-control/config/budget-management/services/budget-management/internal/budget/service.go:711-751 | In every run without a rate-limited budget the usage is never less than the usage records since the last reset, and equals them iff no completion wrote a negative cost into a record of the budget |
| SpendLaws.LedgersAgree | 03-cost-control/config/budget-management/services/budget-management/internal/budget/service.go:711-751 | So it equals them in every run without negative costs |
| PlayLaws.LedgersAgreeInPlay | 03-cost-control/config/budget-management/services/budget-management/internal/budget/service.go:609-751 | The same iff for every sequence of effects, stale completions and cleanups taken apart included |
| SpendLaws.RecordsLessCharges | 03-cost-control/config/budget-management/services/budget-management/internal/budget/service.go:687-751 | What a completion records for a budget less what it charges it: nothing, or the negative cost unless the budget is a full non-isolated child |
| Witnesses.LedgersPart | 03-cost-control/config/budget-management/services/budget-management/internal/budget/service.go:711-751 | From empty tables: a negative cost leaves usage 0 and a record of -1 |
| SpendLaws.RecordsHaveBudgets | 03-cost-control/config/budget-management/services/budget-management/migrations/001_initial.sql:84-96 | In every run each usage record belongs to an existing budget |
| HoldLaws.HoldsAreConserved | 03-cost-control/config/budget-management/services/budget-management/internal/budget/service.go:760-770 | In every run without resets, pending is exactly the live reservations plus the holds that leaked when a request completed through another first budget |
| HoldLaws.PendingIsSumIff | 03-cost-control/config/budget-management/services/budget-management/docs/DESIGN.md:243 | In every run without resets, pending is the sum of the live reservations, as the design notes define it, iff no completion released another budget's hold while its request held something on this one |
| Witnesses.HoldLeaks | 03-cost-control/config/budget-management/services/budget-management/internal/budget/service.go:760-770 | From empty tables: after one request over team and org has completed, the org's pending is the estimate and nothing is reserved on it |
| HoldLaws.SumSurvivesIff | 03-cost-control/config/budget-management/services/budget-management/internal/budget/service.go:760-770 | Starting from that sum, a step breaks it in exactly two cases: it completes a request that holds something on the budget but whose oldest reservation is elsewhere, or it resets the budget while something is live |
| HoldLaws.ClampNeverFires | 03-cost-control/config/budget-management/services/budget-management/internal/db/repository.go:793-806 | In runs without resets neither a completion nor a cleanup ever subtracts more than is pending, so GREATEST(0, ..) cuts nothing off |
| HoldLaws.HoldsAreBounded | 03-cost-control/config/budget-management/services/budget-management/internal/db/repository.go:592-642 | In every run, resets included: live - live at reset <= pending <= live + leaked, and pending >= 0 |
| PlayLaws.HoldsAreBoundedInPlay | 03-cost-control/config/budget-management/services/budget-management/internal/db/repository.go:592-642 | For every sequence of effects: live + due - open at reset - released but not deleted <= pending <= live + due + deleted but not released, and pending >= 0 |
| HoldLaws.StepHolds | 03-cost-control/config/budget-management/services/budget-management/internal/db/repository.go:592-642 | How each kind of transaction moves a budget's pending amount and its live reservations together |
| RequestLaws.AllOrNothing | 03-cost-control/config/budget-management/services/budget-management/internal/budget/service.go:516-544 | In every run with unique request ids, a request's live reservations are its whole reserved set (less rows of deleted budgets) or none |
| RequestLaws.BookedTogether | 03-cost-control/config/budget-management/services/budget-management/internal/budget/service.go:515-524 | All reservations of one admission share one expiry |
| RequestLaws.ChargedAtMostOnce | 03-cost-control/config/budget-management/services/budget-management/internal/budget/service.go:609-617 | In the sequential ledger, where completions do not overlap, a request with a unique id is admitted at most once and charged at most once |
| RequestLaws.ChargesUseUpAdmissions | 03-cost-control/config/budget-management/services/budget-management/internal/budget/service.go:609-617 | In every run of the sequential ledger, request ids reused or not, effective charges of a request plus one for its live reservations are at most its admissions |
| Overlaps.ChargesUseUpAdmissions | 03-cost-control/config/budget-management/services/budget-management/internal/budget/service.go:602-632 | For every sequence of effects: charges of a request plus one for its live reservations are at most its admissions plus the completions committed while it has no reservation left |
| Overlaps.TwoChargesOverlap | 03-cost-control/config/budget-management/services/budget-management/internal/budget/service.go:609-637 | Under every interleaving, of two charges of a request either the second read the reservation before the first committed, or the request was admitted before the first and again after it |
| Overlaps.ChargedAtMostOnceIff | 03-cost-control/config/budget-management/services/budget-management/internal/budget/service.go:609-637 | Under every interleaving, a request that is admitted at most once is charged at most once iff no two of its completions overlap, the second reading the reservation before the first commits |
| Overlaps.CompletionHasRead | 03-cost-control/config/budget-management/services/budget-management/internal/budget/service.go:609-617 | A completion under way read its reservation as the oldest of its request when it began |
| Interleavings.RequestChargedTwice | 03-cost-control/config/budget-management/services/budget-management/internal/budget/service.go:609-637 | From empty tables: two streams with one request id, one of them admitted without reserving; their completions overlap, and the one reservation of 5 is charged 10 |
| RequestLaws.OtherCompletionsDoNothing | 03-cost-control/config/budget-management/services/budget-management/internal/budget/service.go:609-617 | In the sequential ledger a repeated or late completion changes no table at all |
| RequestLaws.StepRows | 03-cost-control/config/budget-management/services/budget-management/internal/budget/service.go:515-544 | How each kind of transaction changes the reservation rows of one request |
| Concurrency.CommitsAreOrdered | 03-cost-control/config/budget-management/services/budget-management/internal/budget/service.go:386-402 | Every interleaving of pods that lock, read, decide and commit, of completions and cleanups that use what they read earlier, and of writers that respect row locks, leaves the tables as the committed effects applied one at a time in commit order |
| Concurrency.Serializable | 03-cost-control/config/budget-management/services/budget-management/internal/budget/service.go:386-402 | As long as every completion finds the reservation it read and every cleanup deletes what it summed and settles at once, the tables are those of the sequential ledger run in commit order |
| Concurrency.ChargeIsSerialIff | 03-cost-control/config/budget-management/services/budget-management/internal/budget/service.go:609-637 | The commit of a completion is the serial one iff its request still has a reservation and releasing the oldest is releasing the one it read |
| Concurrency.DecidesOnCurrentRows | 03-cost-control/config/budget-management/services/budget-management/internal/budget/service.go:515-547 | The snapshot a pod decides on equals the current locked rows, so its commit is the admission over those rows run alone |
| Reads.CompletionUsesItsReads | 03-cost-control/config/budget-management/services/budget-management/internal/budget/service.go:609-637 | Under every interleaving a completion commits its own cost, the reservation that was the oldest of its request when it was called, and the whole parent chain of one moment between that and its commit |
| Reads.AdmissionUsesItsQuery | 03-cost-control/config/budget-management/services/budget-management/internal/budget/service.go:404-428 | Under every interleaving an admission commits its own request over rows of its own query, in the query's order |
| Reads.CleanupUsesItsSums | 03-cost-control/config/budget-management/services/budget-management/internal/db/repository.go:592-642 | Under every interleaving a cleanup deletes by its own clock and releases the sums of the moment it began, one for each budget with expired reservations |
| Concurrency.ChargeOrderIs | 03-cost-control/config/budget-management/services/budget-management/internal/budget/service.go:656-770 | A completion updates its rows in charging order, and last the budget whose hold it releases, if that is none of them |
| Concurrency.UntouchedRowsStay | 03-cost-control/config/budget-management/services/budget-management/internal/db/repository.go:777-807 | A transaction leaves every row outside its footprint as it was |
| Concurrency.ConcurrentOverspendIsBounded | 03-cost-control/config/budget-management/services/budget-management/internal/budget/service.go:382-384 | Under every interleaving: usage + live reservations <= amount + what was live or due at the last reset + the estimates used when they were no longer held; that last term is 0 if every completion finds its reservation and every cleanup deletes what it summed |
| Concurrency.LogIsSane | 03-cost-control/config/budget-management/services/budget-management/internal/db/repository.go:592-642 | Under every interleaving sums and estimates are never negative and the tables stay consistent |
| Effects.CompletionIsSerialIff | 03-cost-control/config/budget-management/services/budget-management/internal/budget/service.go:609-637 | On any tables that hold the rows of a non-empty chain, a completion that read a reservation earlier equals the serial one iff the request still has one and both releases come to the same |
| Effects.CompletionIsSerialIfThere | 03-cost-control/config/budget-management/services/budget-management/internal/budget/service.go:609-637 | Unless another reservation of the request has come first, it equals the serial one iff the reservation it read is still there |
| Effects.OverspendIsAccountedFor | 03-cost-control/config/budget-management/services/budget-management/internal/budget/service.go:602-788 | For every sequence of effects, however stale: the overspend bound plus all that was charged or released beyond what was held |
| Effects.StaleReadsCostTheirEstimates | 03-cost-control/config/budget-management/services/budget-management/internal/budget/service.go:602-637 | If no completion costs more than its estimate, that excess is the sum of the estimates used when they were no longer held, and of what cleanups summed but did not delete |
| Effects.PromptPlayKeepsLimit | 03-cost-control/config/budget-management/services/budget-management/internal/budget/service.go:602-637 | Without stale reads the bound of the sequential ledger holds |
| Effects.SerialPlayIsRun | 03-cost-control/config/budget-management/services/budget-management/internal/budget/service.go:602-788 | Serial effects leave the tables of the sequential ledger |
| Effects.CleanupIsSerial | 03-cost-control/config/budget-management/services/budget-management/internal/db/repository.go:592-642 | The SELECT, DELETE and UPDATEs of a cleanup with nothing in between are one Cleanup step |
| Interleavings.StaleCompletionOverspends | 03-cost-control/config/budget-management/services/budget-management/internal/budget/service.go:609-637 | From empty tables, an interleaving of six pods: a budget of 10 ends with 5 spent and 10 reserved without any reset, no cost above its estimate, because a completion and a cleanup release the same hold |
| AdmissionOrder.AdmissionIsItsQueryIff | 03-cost-control/config/budget-management/services/budget-management/internal/db/repository.go:820-856 | Committing an admission equals making it anew with the pod's own query iff every candidate of that query is locked, or neither reserves anything |
| AdmissionOrder.SameAdmissionIff | 03-cost-control/config/budget-management/services/budget-management/internal/budget/service.go:413-453 | Leaving rows out of an admission changes nothing iff no candidate is left out, or neither reserves anything |
| AdmissionOrder.MissedRowWasEnabled | 03-cost-control/config/budget-management/services/budget-management/internal/db/repository.go:830-832 | If an admission misses a candidate, a step that enables that budget was committed after the admission began |
| Interleavings.AdmissionMissesBudget | 03-cost-control/config/budget-management/services/budget-management/internal/db/repository.go:830-832 | From two creations the handler accepts: a team is approved while an admission is under way, which reserves on the org alone although its query would now deny |
| Deadlock.OrderedIsDeadlockFree | 03-cost-control/config/budget-management/services/budget-management/internal/db/repository.go:831-832 | If some order of the budgets is kept by every query and every chain, admissions and completions never wait in a cycle, in any interleaving |
| Deadlock.UpwardsHasNoCycle | 03-cost-control/config/budget-management/services/budget-management/internal/db/repository.go:831-832 | Pods that lock upwards in some rank never wait in a cycle, however long |
| Deadlock.CycleIsStuck | 03-cost-control/config/budget-management/services/budget-management/internal/db/repository.go:831-832 | A pod of a wait cycle cannot lock its next row |
| LockPairs.CanDeadlockIff | 03-cost-control/config/budget-management/services/budget-management/internal/db/repository.go:831-832 | An admission and a completion that have locked nothing can come to wait for each other iff they take two rows in opposite order and no row common to both comes before these two on both sides |
| Interleavings.AdmissionAndCompletionDeadlock | 03-cost-control/config/budget-management/services/budget-management/migrations/001_initial.sql:14 | From empty tables: an admission, which locks provider, org, team, and a completion, which charges team, org, provider, wait for each other |
| Limits.OverspendBoundIsTight | 03-cost-control/config/budget-management/services/budget-management/internal/db/repository.go:393-446 | The overspend bound is attained: after a reset a request for the whole amount is admitted on top of everything live before |
| Limits.StaleReadReleasesTwice | 03-cost-control/config/budget-management/services/budget-management/internal/budget/service.go:609-637 | If a reservation is cleaned up between its unlocked read and the completing transaction, its hold is released twice; exactly how far pending then falls below the live reservations |
| Limits.CleanupLeaksIff | 03-cost-control/config/budget-management/services/budget-management/internal/db/repository.go:592-642 | A cleanup leaks a hold iff a reservation expires between its sum and its delete, each of which reads the clock |
| Admission.Decide | 03-cost-control/config/budget-management/services/budget-management/internal/budget/service.go:438-513 | For candidates with distinct ids the loop denies iff some candidate lacks the room and may not fall back on a parent among them that has it; it stops after the first isolated failing budget and reports the last failing one, the last fallback and the running minimum of what it visited |
| Admission.AdmitsIff | 03-cost-control/config/budget-management/services/budget-management/internal/budget/service.go:438-482 | Admission over the columns: every candidate has amount - usage - pending >= estimate, or allows fallback and has a parent among the candidates for which that holds |
| Admission.DecisionMeansAdmits | 03-cost-control/config/budget-management/services/budget-management/internal/budget/service.go:455-493 | Stopping early at an isolated budget does not change the answer: nobody failed among the visited iff nobody fails at all |
| Admission.RemainingIsNotAlwaysMinimum | 03-cost-control/config/budget-management/services/budget-management/internal/budget/service.go:458-465 | A run of the loop whose reported remaining amount is not the least, because a negative minimum counts as unset |
| Admission.AdmittedWithoutFallback | 03-cost-control/config/budget-management/services/budget-management/internal/budget/service.go:467-482 | A budget without usable fallback is only admitted into its own room |
| RunningMinimum.TracksStep | 03-cost-control/config/budget-management/services/budget-management/internal/budget/service.go:463-465 | One turn of the running minimum keeps its meaning: the least value since the last negative one, or that negative one |
| RunningMinimum.IsLeastIff | 03-cost-control/config/budget-management/services/budget-management/internal/budget/service.go:463-465 | The reported amount is the true minimum iff no visited value is both negative and smaller than the last one |
| HierarchySort.SortBudgetsByHierarchy | 03-cost-control/config/budget-management/services/budget-management/internal/budget/service.go:792-817 | The three passes compute Sorted |
| HierarchySort.SortedIsStable | 03-cost-control/config/budget-management/services/budget-management/internal/budget/service.go:790-817 | Sorted is ordered team, org, provider, holds exactly the budgets of known type, and keeps each type in input order |
| HierarchySort.StableOrderIsUnique | 03-cost-control/config/budget-management/services/budget-management/internal/budget/service.go:790-817 | Those three facts determine the result |
| HierarchySort.ChildBeforeAncestors | 03-cost-control/config/budget-management/services/budget-management/internal/budget/service.go:652-654 | If each child is strictly more specific than its parent, a budget comes before all its ancestors |
| HierarchySort.SortFixesChains | 03-cost-control/config/budget-management/services/budget-management/internal/budget/service.go:631-654 | Then the sort leaves the ancestor query's answer as it is |
| BucketFill.ChargeChain | 03-cost-control/config/budget-management/services/budget-management/internal/budget/service.go:647-758 | The charging loop produces Lines and tracks the running minimum of what each budget has left |
| BucketFill.CostIsConserved | 03-cost-control/config/budget-management/services/budget-management/internal/budget/service.go:711-727 | At every turn non-isolated charges plus the rest equal the actual cost, and 0 <= rest <= cost |
| BucketFill.RestIsOverflow | 03-cost-control/config/budget-management/services/budget-management/internal/budget/service.go:691-709 | Closed form: below the root the rest is the cost less all the room of the non-isolated children so far, or nothing |
| BucketFill.RestFalls | 03-cost-control/config/budget-management/services/budget-management/internal/budget/service.go:724-727 | The rest never grows along the chain |
| BucketFill.LinesAreBounded | 03-cost-control/config/budget-management/services/budget-management/internal/budget/service.go:691-722 | Isolated budgets and roots take exactly the rest; a non-isolated child never passes max(usage, amount) on the row it was read with |
| BucketFill.ResidualMeansFull | 03-cost-control/config/budget-management/services/budget-management/internal/budget/service.go:701-709 | A rest survives a non-isolated budget only if that budget has a parent and is full afterwards |
| BucketFill.RootLeavesNothing | 03-cost-control/config/budget-management/services/budget-management/internal/budget/service.go:691-727 | Nothing is left after a non-isolated root |
| BucketFill.LinesAreShares | 03-cost-control/config/budget-management/services/budget-management/internal/budget/service.go:687-751 | Every line in closed form: a root or an isolated budget takes all of the cost that the room of the non-isolated children before it leaves, a non-isolated child what fits, nothing comes past a non-isolated root |
| BucketFill.WholeCostIsChargedIff | 03-cost-control/config/budget-management/services/budget-management/internal/budget/service.go:711-727 | The non-isolated budgets are charged the whole cost iff one of them is a root or the cost fits into their room |
| BucketFill.NegativeLines | 03-cost-control/config/budget-management/services/budget-management/internal/budget/service.go:696-751 | A negative cost is recorded, uncharged, by every budget but full non-isolated children |
| BucketFill.PassedOverIff | 03-cost-control/config/budget-management/services/budget-management/internal/budget/service.go:661-685 | With a rate-limited budget exactly the other parents of the chain are passed over, if it is isolated and in the chain; they are not charged |
| BucketFill.RemaindersAre | 03-cost-control/config/budget-management/services/budget-management/internal/budget/service.go:753-757 | What the remaining amount is the running minimum of: amount - usage - pending - share |
| BucketFill.ChargedOnceIff | 03-cost-control/config/budget-management/services/budget-management/docs/ARCH.md:187 | A cost is charged exactly once over the whole chain iff no isolated budget has anything left to take |
| BucketFill.IsolatedParentIsChargedToo | 03-cost-control/config/budget-management/services/budget-management/internal/budget/service.go:724-727 | The parent of an isolated budget is charged the same cost again |
| BucketFill.RecordsAgreeIff | 03-cost-control/config/budget-management/services/budget-management/internal/budget/service.go:739-751 | On every chain the usage records agree with the charges iff the cost is not negative |
| BucketFill.NegativeStays | 03-cost-control/config/budget-management/services/budget-management/internal/budget/service.go:711-727 | A negative cost charges nobody and is carried along unchanged |
| BucketFill.SkippedRecordsDisagree | 03-cost-control/config/budget-management/services/budget-management/internal/budget/service.go:661-685 | With a rate-limited isolated budget the skipped parent's record would show a cost that was never charged |
| Ledger.ReachableIsConsistent | 03-cost-control/config/budget-management/services/budget-management/migrations/001_initial.sql:103-111 | In every run: rows are keyed by their id, no parent dangles, no two reservations share budget and request, reservations belong to budgets, and pending is never negative |
| Ledger.StepKeepsConsistent | 03-cost-control/config/budget-management/services/budget-management/internal/db/repository.go:266-346 | Every transaction, management ones included, keeps those invariants |
| TableLaws.SettingsAreLastWritten | 03-cost-control/config/budget-management/services/budget-management/internal/db/repository.go:303-334 | In every run the amount, parent, isolation, fallback and enabled columns of a budget are those of the last creation or update that took effect |
| TableLaws.StatusIsLastWritten | 03-cost-control/config/budget-management/services/budget-management/internal/db/approval_repository.go:98-124 | In every run its approval status is that of the last status write or of its creation |
| Ledger.CandidatesMembers | 03-cost-control/config/budget-management/services/budget-management/internal/budget/service.go:413-439 | The budgets a request is checked against are exactly the locked, enforced, matched ones of known type, each once |
| LedgerService.Service.constructor | 03-cost-control/config/budget-management/services/budget-management/migrations/001_initial.sql:44-111 | The tables start empty and consistent |
| LedgerService.Service.CheckAndReserveBudget | 03-cost-control/config/budget-management/services/budget-management/internal/budget/service.go:385-571 | One Reserve step, and an answer over the columns: no match, denied and by whom, aborted by a reservation the request already holds on a candidate, or reserved with the parent of the last candidate that had to fall back |
| LedgerService.ResultMeans | 03-cost-control/config/budget-management/services/budget-management/internal/budget/service.go:455-544 | A denial names the first isolated candidate that does not fit, or, if no isolated one fails, the last that does not; every answer is given in exactly its case |
| CheckLaws.ReserveMeans | 03-cost-control/config/budget-management/services/budget-management/internal/budget/service.go:404-544 | The whole transaction over the columns: it changes the tables iff every candidate fits and the request holds nothing on any; then exactly the candidates' pending grows by the estimate, and one reservation is added per candidate, teams, orgs, providers, each in query order |
| CheckLaws.CandidatesInOrder | 03-cost-control/config/budget-management/services/budget-management/internal/budget/service.go:413-439 | The candidates are the enabled, approved, matched rows of known type in the order in which they are checked |
| LedgerService.Service.CheckCandidates | 03-cost-control/config/budget-management/services/budget-management/internal/budget/service.go:455-544 | The loop and the writes: a denial or a duplicate leaves the tables alone |
| LedgerService.Service.WriteReservations | 03-cost-control/config/budget-management/services/budget-management/internal/budget/service.go:515-549 | The loop reserves and holds on every candidate, or aborts iff a (budget, request) pair exists already |
| LedgerService.Service.GetBudgetsWithParent | 03-cost-control/config/budget-management/services/budget-management/internal/db/repository.go:449-502 | For a budget of the table the query answers with its row, its parent's, and so on along the parent column up to a row without one; it fails to end iff there is no such chain |
| LedgerService.AncestorRowsIff | 03-cost-control/config/budget-management/services/budget-management/internal/db/repository.go:449-502 | The same as an iff for every list of rows: it is the answer iff it is that chain |
| LedgerService.Service.CommitDecrement | 03-cost-control/config/budget-management/services/budget-management/internal/budget/service.go:636-788 | The transaction with a reservation and a chain read before it: it charges the chain, drops the request's reservations and releases one hold, or rolls everything back if a budget of the chain is gone |
| LedgerService.Service.DecrementBudgets | 03-cost-control/config/budget-management/services/budget-management/internal/budget/service.go:602-788 | With nothing in between its reads and its transaction: the oldest reservation of the request, the whole chain of its budget, and one Complete step over them; up to a non-isolated root of known type none of the cost is lost; without a reservation nothing changes |
| ChargeLaws.CompletionMeans | 03-cost-control/config/budget-management/services/budget-management/internal/budget/service.go:656-770 | The transaction over the columns, for a cost that is not negative: every budget of the chain is charged its share in closed form and recorded with it, the reserved budget's pending falls by the estimate but not below 0, exactly the request's reservations go, nothing else changes; a missing budget rolls back |
| ChargeLaws.WholeCostIsCharged | 03-cost-control/config/budget-management/services/budget-management/internal/budget/service.go:687-727 | If the chain has a non-isolated root of known type, the usage of its non-isolated budgets rises by exactly the cost |
| ChargeLaws.FirstIs | 03-cost-control/config/budget-management/services/budget-management/internal/budget/service.go:610 | The reservation found is the oldest of the request, and there is none iff the request has none |
| LedgerService.Service.WriteCharges | 03-cost-control/config/budget-management/services/budget-management/internal/budget/service.go:711-751 | The write loop adds every charge to its budget and one usage record per budget of the chain |
| LedgerService.Service.SumExpired | 03-cost-control/config/budget-management/services/budget-management/internal/db/repository.go:592-620 | One sum per budget with expired reservations, none for the others |
| LedgerService.Service.DeleteExpired | 03-cost-control/config/budget-management/services/budget-management/internal/db/repository.go:622-627 | Every expired reservation goes and is counted, every other stays as often as before, and each budget's live reservations fall by what had expired on it |
| LedgerService.Service.ReleasePending | 03-cost-control/config/budget-management/services/budget-management/internal/db/repository.go:629-639 | No budget's other fields change and no other budget's pending; pending falls by the sum or to 0, never below 0 and never by more than the sum |
| LedgerService.Service.CleanupExpiredReservations | 03-cost-control/config/budget-management/services/budget-management/internal/db/repository.go:592-642 | The statements in a row, in whatever order the sums come: releases what had expired at the first clock reading, deletes what had at the second; with one reading it is a Cleanup step |
| TableLaws.CleanupMeans | 03-cost-control/config/budget-management/services/budget-management/internal/db/repository.go:592-642 | Over the columns: exactly the reservations not expired at the second reading stay, in their order; every pending falls, not below 0, by what had expired at the first; nothing else changes |
| TableLaws.CleanupAtOnce | 03-cost-control/config/budget-management/services/budget-management/internal/db/repository.go:592-642 | With one reading of the clock that is the Cleanup step |
| LedgerService.Service.ResetExpiredBudgets | 03-cost-control/config/budget-management/services/budget-management/internal/db/repository.go:393-446 | Exactly the expired budgets lose usage and pending; nothing else changes |
| LedgerService.Service.ResetBudgetUsage | 03-cost-control/config/budget-management/services/budget-management/internal/db/repository.go:373-390 | One Reset step; reports a missing budget |
| LedgerService.Service.DeleteBudgetCascade | 03-cost-control/config/budget-management/services/budget-management/internal/db/repository.go:1248-1290 | The table loses exactly the budgets from which the parent column leads to the given one, and the count is their number; the query is endless iff the parent column leads from it back to itself; a missing budget is reported |
| LedgerService.SubtreeClimbs | 03-cost-control/config/budget-management/services/budget-management/internal/db/repository.go:1211-1226 | The subtree and the cycle over the parent column |
| TableLaws.CascadeMeans | 03-cost-control/config/budget-management/services/budget-management/internal/db/repository.go:1248-1290 | With each deleted budget go exactly its reservations and usage records |
| LedgerService.PrefixesDangleNowhere | 03-cost-control/config/budget-management/services/budget-management/internal/db/repository.go:1266-1272 | No prefix of the deletions leaves a dangling parent |
| LedgerService.AncestorRowsAreRows | 03-cost-control/config/budget-management/services/budget-management/internal/db/repository.go:449-502 | The ancestor query answers with current rows, each once |
| LedgerService.DeleteNext | 03-cost-control/config/budget-management/services/budget-management/internal/db/repository.go:1255-1272 | Deleting the next descendant violates no foreign key: its children are gone already |
| LedgerService.DeleteWhole | 03-cost-control/config/budget-management/services/budget-management/internal/db/repository.go:1248-1290 | Removing a whole subtree leaves no dangling parent |
| LedgerService.SubtreeIs | 03-cost-control/config/budget-management/services/budget-management/internal/db/repository.go:1212-1244 | Subtree size is the number of descendants plus one |
| Forest.WalkIsAncestorPath | 03-cost-control/config/budget-management/services/budget-management/internal/db/repository.go:449-502 | On any parent map, cyclic or not, the ancestor query lists the budget and each ancestor once, nearest first, and never ends iff the budget is on or below a cycle |
| Forest.CycleIsEndless | 03-cost-control/config/budget-management/services/budget-management/internal/api/handlers.go:907-916 | Above a budget on a cycle the parent links never stop |
| Descendants.GetAllDescendants | 03-cost-control/config/budget-management/services/budget-management/internal/db/repository.go:1212-1244 | The recursive query ends iff the root is not on a cycle, and then lists exactly the strict descendants, once each, children before parents |
| Descendants.LevelMembers | 03-cost-control/config/budget-management/services/budget-management/internal/db/repository.go:1216-1226 | Round k of the recursion holds exactly the rows whose (k+1)-st ancestor is the root, each once |
| Descendants.LevelsMembers | 03-cost-control/config/budget-management/services/budget-management/internal/db/repository.go:1216-1226 | The first n rounds hold exactly the descendants of depth at most n, each once when the root is on no cycle |
| Descendants.LevelsChildrenFirst | 03-cost-control/config/budget-management/services/budget-management/internal/db/repository.go:1227 | Ordering by descending depth puts children before parents |
| Descendants.EmptyLevelIsLast | 03-cost-control/config/budget-management/services/budget-management/internal/db/repository.go:1216-1226 | An empty round means nothing lies deeper |
| Descendants.CycleFillsLevels | 03-cost-control/config/budget-management/services/budget-management/internal/db/repository.go:1216-1226 | Below a root on a cycle no round is ever empty |
| Hierarchy.AcyclicSurvivesIff | 03-cost-control/config/budget-management/services/budget-management/internal/api/handlers.go:797-804 | From an acyclic hierarchy every transaction leads to an acyclic one, except an UpdateBudget whose new parent is the budget itself or below it, which always closes a cycle |
| Hierarchy.LinkClosesCycleIff | 03-cost-control/config/budget-management/services/budget-management/internal/api/handlers.go:797-804 | Setting one parent link of an acyclic map closes a cycle iff the new parent is the budget or a descendant |
| Hierarchy.QueriesEnd | 03-cost-control/config/budget-management/services/budget-management/internal/db/repository.go:449-502 | In every run in which no update closes a cycle, the ancestor and the descendant query end for every budget |
| Hierarchy.ChildrenFitSurvivesIff | 03-cost-control/config/budget-management/services/budget-management/internal/api/handlers.go:907-916 | An update that passes the handler's amount check keeps every non-isolated child within its parent iff the new amount still covers the budget's own non-isolated children |
| Hierarchy.EditedFitsIff | 03-cost-control/config/budget-management/services/budget-management/internal/api/handlers.go:907-916 | An update leaves the budget itself within its parent iff it passes the check |
| Witnesses.ParentsFormCycle | 03-cost-control/config/budget-management/services/budget-management/internal/api/handlers.go:797-804 | From empty tables: two creations and an update that the handlers accept, amount checks included, close a parent cycle |
| Witnesses.ChildExceedsParent | 03-cost-control/config/budget-management/services/budget-management/internal/api/handlers.go:907-916 | From empty tables: an update that passes the check leaves a child above its parent |
| BudgetTree.SortOrders | 03-cost-control/config/budget-management/services/budget-management/ui/src/pages/Budgets/BudgetsPage.tsx:198-218 | The page's sorts order their input by the given order |
| BudgetTree.SortIsStable | 03-cost-control/config/budget-management/services/budget-management/ui/src/pages/Budgets/BudgetsPage.tsx:198-218 | Ties keep the input order |
| BudgetTree.OrdersAreWeak | 03-cost-control/config/budget-management/services/budget-management/ui/src/pages/Budgets/BudgetsPage.tsx:211-217 | Newest-first and the root order are strict weak orders, so sorting by them is meaningful |
| BudgetTreeLaws.PageIsPreorder | 03-cost-control/config/budget-management/services/budget-management/ui/src/pages/Budgets/BudgetsPage.tsx:180-227 | For every list with unique ids, cyclic or not: each budget at most once, exactly those not on or below a parent cycle, indented by its number of visible ancestors, and every subtree contiguous right below its root |
| BudgetTreeLaws.PageIsLabelled | 03-cost-control/config/budget-management/services/budget-management/ui/src/pages/Budgets/BudgetsPage.tsx:200-204 | Each entry names its visible parent, and says whether it has children, correctly |
| PageOrder.PageShowsRootsInOrder | 03-cost-control/config/budget-management/services/budget-management/ui/src/pages/Budgets/BudgetsPage.tsx:211-217 | Roots come as orgs, teams, providers and others, within a type newest first, and as listed if equally old |
| PageOrder.PageShowsSiblingsInOrder | 03-cost-control/config/budget-management/services/budget-management/ui/src/pages/Budgets/BudgetsPage.tsx:199-201 | Siblings come newest first, and as listed if equally old |
| BudgetTreeLaws.IndexChildren | 03-cost-control/config/budget-management/services/budget-management/ui/src/pages/Budgets/BudgetsPage.tsx:183-191 | The index maps each budget to its children in list order |
| BudgetTreeLaws.BuildItems | 03-cost-control/config/budget-management/services/budget-management/ui/src/pages/Budgets/BudgetsPage.tsx:194-206 | The recursive builder computes Items, and ends |
| BudgetTreeLaws.BuildHierarchicalList | 03-cost-control/config/budget-management/services/budget-management/ui/src/pages/Budgets/BudgetsPage.tsx:180-227 | The whole function computes Flatten |
| BudgetApproval.SubmittedBudgetIsLawful | 03-cost-control/config/budget-management/services/budget-management/internal/api/approval_handlers.go:99-116 | In every run of handlers: at most 3 rejections, closed iff 3, history submitted (rejected resubmitted)* then at most one final decision, with the right attempt numbers; at most 5 actions follow submission |
| BudgetApproval.HandleIsLawful | 03-cost-control/config/budget-management/services/budget-management/internal/api/approval_handlers.go:169-193 | Every handler call keeps that shape |
| BudgetApproval.FinalStaysFinal | 03-cost-control/config/budget-management/services/budget-management/internal/api/approval_handlers.go:99-105 | Nothing a handler does leaves approved or closed |
| BudgetApproval.ProgressIsStrict | 03-cost-control/config/budget-management/services/budget-management/internal/api/approval_handlers.go:236-263 | Every successful call decreases (3 - rejections, rank of status) lexicographically |
| BudgetApproval.OnlyEntitledCallsCount | 03-cost-control/config/budget-management/services/budget-management/internal/api/approval_handlers.go:69-124 | In every run the calls of those who may not make them leave no trace |
| BudgetApproval.EntitledCallsSucceedIff | 03-cost-control/config/budget-management/services/budget-management/internal/api/approval_handlers.go:99-105 | An entitled approval or rejection succeeds iff the budget is pending, a resubmission iff it is rejected fewer than three times |
| BudgetApproval.LateWriteIsLawfulIff | 03-cost-control/config/budget-management/services/budget-management/internal/db/approval_repository.go:98-124 | A handler's unguarded write keeps the workflow lawful iff the row is still what the handler read |
| BudgetApproval.ClosedCanBeReopened | 03-cost-control/config/budget-management/services/budget-management/internal/db/approval_repository.go:98-124 | A stale approval turns a closed budget into an approved one |
| BudgetApproval.BudgetRow.constructor | 03-cost-control/config/budget-management/services/budget-management/internal/api/handlers.go:696-742 | A new budget is approved at once or pending with attempt 1 on record |
| BudgetApproval.BudgetRow.ApproveBudget | 03-cost-control/config/budget-management/services/budget-management/internal/api/approval_handlers.go:69-124 | Forbidden iff the caller may not decide, done iff the budget is pending too; then approved, with the attempt after the last rejection on record |
| BudgetApproval.BudgetRow.RejectBudget | 03-cost-control/config/budget-management/services/budget-management/internal/api/approval_handlers.go:127-208 | A reason, the right to decide and a pending budget are needed, asked for in this order; then one rejection more, closed at the third, rejected before |
| BudgetApproval.BudgetRow.ResubmitBudget | 03-cost-control/config/budget-management/services/budget-management/internal/api/approval_handlers.go:211-273 | Needs a rejected budget with fewer than three rejections, then its creator; then pending, with the next attempt on record |
| Allocations.VersionCountsWrites | 03-cost-control/config/budget-management/services/budget-management/internal/db/ratelimit_repository.go:226-298 | Under any interleaving of statements the version is its first value plus the successful writes |
| Allocations.UpdateWritesWhatItRead | 03-cost-control/config/budget-management/services/budget-management/internal/db/ratelimit_repository.go:226-254 | An update that succeeds at any point of any interleaving replaces exactly the row its handler read |
| Allocations.OneDecisionPerPeriod | 03-cost-control/config/budget-management/services/budget-management/internal/db/ratelimit_repository.go:258-298 | Under any interleaving, successful decisions equal resubmissions plus one unless one is due, and rejection_count equals the successful rejections |
| Allocations.DecisionsAreSeparated | 03-cost-control/config/budget-management/services/budget-management/internal/db/ratelimit_repository.go:511-529 | Between two successful decisions there is a successful resubmission |
| Allocations.ColumnsAreLastWritten | 03-cost-control/config/budget-management/services/budget-management/internal/db/ratelimit_repository.go:226-277 | After any interleaving the columns are those of the last successful update, or of the creation, with the enforcement of the last successful approval since |
| Allocations.AllocationRow.constructor | 03-cost-control/config/budget-management/services/budget-management/internal/db/ratelimit_repository.go:165-180 | A new allocation has version 1 |
| Allocations.AllocationRow.UpdateAllocation | 03-cost-control/config/budget-management/services/budget-management/internal/db/ratelimit_repository.go:226-254 | Succeeds iff the version is the one seen; then the columns are the new ones and the version is one more, status and rejections as before |
| Allocations.AllocationRow.ApproveAllocation | 03-cost-control/config/budget-management/services/budget-management/internal/db/ratelimit_repository.go:258-277 | Succeeds iff pending; then approved with the given enforcement, all other columns as before |
| Allocations.AllocationRow.RejectAllocation | 03-cost-control/config/budget-management/services/budget-management/internal/db/ratelimit_repository.go:280-298 | Compare-and-set on pending, counts the rejection |
| Allocations.AllocationRow.ResetAllocationForResubmit | 03-cost-control/config/budget-management/services/budget-management/internal/db/ratelimit_repository.go:511-529 | Compare-and-set on rejected |
| AttemptNumbers.NumbersAgree | 03-cost-control/config/budget-management/services/budget-management/internal/api/ratelimit_handlers.go:461-484 | Given the same requests, both workflows record the same actions under the same attempt numbers until the third rejection; after it the budget's history stays a prefix of the allocation's |
| AttemptNumbers.AttemptIsLatest | 03-cost-control/config/budget-management/services/budget-management/internal/db/ratelimit_repository.go:431-439 | Whatever the history: a decision carries its largest number, a resubmission the next one, the first record is number 1 |
| AttemptNumbers.WorkflowsPart | 03-cost-control/config/budget-management/services/budget-management/internal/api/ratelimit_handlers.go:731-749 | After the third rejection the budget is closed while the allocation is resubmitted as attempt 4 |
| AllocationTable.RunKeepsIndex | 03-cost-control/config/budget-management/services/budget-management/migrations/001_initial.sql:256-259 | Under any interleaving of statements at most one live allocation exists per org, team and pattern |
| AllocationTable.StatementMeans | 03-cost-control/config/budget-management/services/budget-management/internal/db/ratelimit_repository.go:226-298 | A statement never changes an id, org or team; the status only from pending by a decision or from rejected by a resubmission; other columns only by an update of that row |
| AllocationTable.StatementDeletes | 03-cost-control/config/budget-management/services/budget-management/internal/db/ratelimit_repository.go:192-197 | A row goes iff it is removed, or is rejected and of the purged org, team and pattern |
| AllocationTable.OneLiveSurvivesIff | 03-cost-control/config/budget-management/services/budget-management/internal/db/ratelimit_repository.go:180-196 | One live allocation per team and pattern survives a statement iff it does not write a live row where only another org already has one |
| AllocationTable.TwoLiveAllocations | 03-cost-control/config/budget-management/services/budget-management/internal/db/ratelimit_repository.go:511-529 | From an empty table: an allocation is rejected, another org creates one for the same team and pattern, the first is resubmitted, and two are live |
| AllocationTable.AllocationStore.CreateAllocation | 03-cost-control/config/budget-management/services/budget-management/internal/db/ratelimit_repository.go:165-224 | An uninterrupted creation refuses iff a live allocation for team and pattern exists; otherwise exactly the rejected rows of its org, team and pattern make way, and one live allocation per team and pattern remains |
| AllocationTable.OnlyPatternsTie | 03-cost-control/config/budget-management/services/budget-management/internal/db/ratelimit_repository.go:82-99 | With one live allocation per team and pattern, two providers can tie in specificity only through different overlapping patterns |
| RateLimitMerge.LookupRateLimitAllocation | 03-cost-control/config/budget-management/services/budget-management/internal/extproc/ratelimit_server.go:322-386 | Over the columns: each limit is the amount and the unit of the first non-monitoring row with a positive one of its kind; nothing without a team, on a failed query, or iff no row has either |
| RateLimitMerge.MergedMeans | 03-cost-control/config/budget-management/services/budget-management/internal/extproc/ratelimit_server.go:341-376 | The same about the merge of any rows |
| RateLimitMerge.TokenLimitIsMostSpecific | 03-cost-control/config/budget-management/services/budget-management/internal/db/ratelimit_repository.go:82-99 | The token limit is that of an active, enforced row of the team with a matching pattern, and no exact pattern, and no other pattern if it is the wildcard's, has one too |
| RateLimitMerge.AnswersIff | 03-cost-control/config/budget-management/services/budget-management/internal/db/ratelimit_repository.go:82-99 | The query over the columns: the enabled and approved rows of the team with a matching pattern, exact patterns first and the wildcard last |
| RateLimitMerge.FirstLimitAt | 03-cost-control/config/budget-management/services/budget-management/internal/extproc/ratelimit_server.go:353-364 | The limit is that of the first provider |
| RateLimitMerge.NoLimitIff | 03-cost-control/config/budget-management/services/budget-management/internal/extproc/ratelimit_server.go:370-376 | There is no limit iff no row provides one |
| RateLimitMerge.OrderIsIrrelevantIff | 03-cost-control/config/budget-management/services/budget-management/internal/db/ratelimit_repository.go:95-98 | For every answer of the query: the limit is the same under every tie-breaking iff the most specific providers agree on it |
| RateLimitMerge.OneProviderPerClass | 03-cost-control/config/budget-management/services/budget-management/internal/db/ratelimit_repository.go:78-99 | With one enforced provider of each kind per class the merged result does not depend on the row order |
| RateLimitMerge.TieIsArbitrary | 03-cost-control/config/budget-management/services/budget-management/internal/db/ratelimit_repository.go:95-98 | Two overlapping patterns with different limits: swapping the rows changes the result |
| RateLimitMerge.LimitIsMostSpecific | 03-cost-control/config/budget-management/services/budget-management/internal/db/ratelimit_repository.go:82-99 | A limit is returned iff an enabled, approved, matching allocation of the team enforces one, and it is one that none more specific competes with |
| BudgetStream.Stream.constructor | 03-cost-control/config/budget-management/services/budget-management/internal/extproc/budget_server.go:79-80 | A stream starts without a request |
| BudgetStream.Stream.Process | 03-cost-control/config/budget-management/services/budget-management/internal/extproc/budget_server.go:75-285 | The loop over the messages has the effect of Handle |
| BudgetStream.Stream.ReceiveRequestBody | 03-cost-control/config/budget-management/services/budget-management/internal/extproc/budget_server.go:153-188 | One request-body message: collect, check at end-of-stream, forward or reject |
| BudgetStream.Stream.ReceiveResponseBody | 03-cost-control/config/budget-management/services/budget-management/internal/extproc/budget_server.go:202-272 | One response-body message: buffer, charge at end-of-stream, forward; ResponseMeans says what is charged |
| BudgetStream.Stream.CheckAndRespond | 03-cost-control/config/budget-management/services/budget-management/internal/extproc/budget_server.go:290-363 | A failed check leaves the request unchecked; any answer marks it checked; only an admission sets the rate-limited budget |
| BudgetStream.ChunkingIndependence | 03-cost-control/config/budget-management/services/budget-management/internal/extproc/budget_server.go:153-272 | For any two splittings of the same bodies the stream makes the same calls, same model and tokens included, and ends in the same state |
| BudgetStream.RequestHalf | 03-cost-control/config/budget-management/services/budget-management/internal/extproc/budget_server.go:153-188 | Closed form of the request half: one check for the model of the whole body, then everything forwarded, or all but the last chunk and a rejection |
| BudgetStream.ResponseHalf | 03-cost-control/config/budget-management/services/budget-management/internal/extproc/budget_server.go:202-222 | Closed form of the response half: one charge for the usage in the whole body |
| BudgetStream.RequestMeans | 03-cost-control/config/budget-management/services/budget-management/internal/extproc/budget_server.go:153-188 | The request half message by message: one check, for the model named in the whole body, else in the header; chunks forwarded as they come, the last one forwarded, or answered by the rejection the check's answer calls for |
| BudgetStream.ResponseMeans | 03-cost-control/config/budget-management/services/budget-management/internal/extproc/budget_server.go:202-272 | The response half message by message: one charge, for OpenAI's counts if either is positive, else Anthropic's if either is, else none; all chunks forwarded, the last with the receipt of the charge |
| BudgetStream.NothingWithoutHeaders | 03-cost-control/config/budget-management/services/budget-management/internal/extproc/budget_server.go:153-157 | Before any request headers a stream makes no call |
| BudgetStream.CostIsLinear | 03-cost-control/config/budget-management/services/budget-management/internal/budget/service.go:194-232 | A million input tokens cost the input price, a million output tokens the output price, costs add up, and the default prices are 1 and 3 |
| BudgetStream.BytesPassThrough | 03-cost-control/config/budget-management/services/budget-management/internal/extproc/budget_server.go:173-188 | For every message sequence the response bytes forwarded are those received, and the request bytes too unless something was rejected |
| BudgetStream.BytesUpstream | 03-cost-control/config/budget-management/services/budget-management/internal/extproc/budget_server.go:166-188 | The bytes sent upstream are all of an admitted body and all but the last chunk of a rejected one |
| BudgetStream.NeverRateLimited | 03-cost-control/config/budget-management/services/budget-management/internal/extproc/budget_server.go:219 | No message sequence makes a stream pass a rate-limited budget to DecrementBudgets |
| BudgetStream.ChecksAndCharges | 03-cost-control/config/budget-management/services/budget-management/internal/extproc/budget_server.go:160-171 | For every message sequence: at most one answered check per request, and once the headers have arrived, exactly one charge asked for per ended response |
| BudgetStream.StreamsKeepLedgersEqual | 03-cost-control/config/budget-management/services/budget-management/internal/extproc/budget_server.go:211-222 | In every run whose completions were made by streams, for the cost of the tokens they read, usage equals the usage records since the last reset iff nothing was misrecorded; and nothing was if no response reports a negative count and no price is negative |
| BudgetStream.NegativeCountsPass | 03-cost-control/config/budget-management/services/budget-management/internal/extproc/budget_server.go:492-493 | Usage with one positive and one negative count is accepted, and its cost is negative |
| PriceCache.AnswersAreTrueIff | 03-cost-control/config/budget-management/services/budget-management/internal/budget/service.go:98-154 | In every run, each price cached or about to be answered was the uncached lookup at some moment since the last refresh, unless it was read before that refresh listed the table, or its exact id came in between the two queries, and every table since the refresh prices the model differently; then it was not |
| PriceCache.AnswersWereTrue | 03-cost-control/config/budget-management/services/budget-management/internal/budget/service.go:98-154 | So if no edit and no refresh falls between the halves of a lookup, each answer was true since the last refresh, and is if the table has not changed since |
| PriceCache.LateLookupWasOvertaken | 03-cost-control/config/budget-management/services/budget-management/internal/budget/service.go:113-144 | A lookup is late only because a refresh listed the table after its last query and has swapped the cache since |
| PriceCache.LateEntryWasLateLookup | 03-cost-control/config/budget-management/services/budget-management/internal/budget/service.go:127-135 | A late entry of the cache was stored by a lookup that was already late |
| PriceCache.LatePriceSurvivesRefresh | 03-cost-control/config/budget-management/services/budget-management/internal/budget/service.go:113-135 | Read, edit, refresh, store: the cache then answers a price that was true at no moment since the refresh |
| PriceCache.TornPriceWasNeverTrue | 03-cost-control/config/budget-management/services/budget-management/internal/budget/service.go:113-122 | An edit between the two queries of a lookup makes it answer a price that no table ever gave |
| PriceCache.HappenKeepsSound | 03-cost-control/config/budget-management/services/budget-management/internal/budget/service.go:98-154 | Every cached price, and every one about to be stored, is what the queries of its lookup answered on the tables they saw |
| PriceCache.RunIsDated | 03-cost-control/config/budget-management/services/budget-management/internal/budget/service.go:127-135 | In every timely run entries were stored no later than the deadline |
| PriceCache.WithinTtlMeans | 03-cost-control/config/budget-management/services/budget-management/internal/budget/service.go:102-108 | No cached answer gets as old as the ttl iff no entry is older than the last renewal of the deadline |
| PriceCache.TtlBoundSurvivesIff | 03-cost-control/config/budget-management/services/budget-management/internal/budget/service.go:128-132 | That bound survives an event iff it is not a lookup that stores after the deadline while other models are cached |
| PriceCache.AnswersCanBeArbitrarilyOld | 03-cost-control/config/budget-management/services/budget-management/internal/budget/service.go:127-135 | For every ttl and n a run in which a price edited away at the start is still answered at some time after n |
| PriceCache.ModelCostCache.constructor | 03-cost-control/config/budget-management/services/budget-management/internal/budget/service.go:82-96 | The cache starts empty and without a deadline |
| PriceCache.ModelCostCache.Consult | 03-cost-control/config/budget-management/services/budget-management/internal/budget/service.go:101-109 | A hit iff the deadline has not passed and the model is cached, and then the cached price |
| PriceCache.ModelCostCache.GetModelCost | 03-cost-control/config/budget-management/services/budget-management/internal/budget/service.go:100-136 | Answer and new cache of one lookup with nothing in between |
| PriceCache.ModelCostCache.RefreshModelCostCache | 03-cost-control/config/budget-management/services/budget-management/internal/budget/service.go:138-154 | A refresh replaces all entries and renews the deadline |

## Left out

- Database failures and lost connections, except the duplicate reservation that aborts an admission.
- Rounding: floating point in Go and DECIMAL(20, 10) in the tables.
- Match expressions (CEL), JSON, regular expressions, LIKE patterns and header decoding: uninterpreted parameters.
- Calendar arithmetic: which budgets a reset hits is a parameter; retry-after and the next period start are not modelled.
- Row order by `created_at`: reservations are kept in insertion order, so equal timestamps are not modelled.
- Concurrency.CommitsAreOrdered: only budget rows are locked, and always exclusively; the shared locks of foreign keys, the locks on reservation rows and aborts by the database's deadlock detection are not modelled (any pod may abort at any time).
- Concurrency.ConcurrentOverspendIsBounded: an id is never used again after its budget was deleted.
- AdmissionOrder.AdmissionIsItsQueryIff: the range of a pod's query is a list of ids fixed when it begins; a budget created later is outside it.
- Deadlock.OrderedIsDeadlockFree: only admissions and completions wait; a cascade or another writer that locks several rows never does in this model.
- LedgerService.Service.CleanupExpiredReservations: nothing happens between its statements; Effects and Concurrency take them apart.
- LedgerService.Service.DecrementBudgets: nothing happens between its reads and its transaction; Service.CommitDecrement is the transaction on its own.
- LedgerService.Service.ResetExpiredBudgets: the five UPDATEs, one per kind of period, are one loop over the budgets whose period is over.
- LedgerService.Service.WriteCharges: the writes of the charging loop are a second loop over the computed lines.
- LedgerService.Service.GetBudgetsWithParent: a query that would recurse for ever answers None.
- Descendants.GetAllDescendants: a query that would recurse for ever answers None, recognised by more rows than the table has.
- The version column of budgets: UpdateBudget's optimistic lock, and the uniqueness of entity type and name.
- UpdateBudget as a handler: its effect is the Configure step with arbitrary new settings; its other validations and permission checks are not modelled.
- Access control: a Boolean per call in the budget workflow, nothing elsewhere.
- Allocations.UpdateWritesWhatItRead: an update refused by the unique index is not an event of this single-row model; AllocationTable has the index.
- Approval records that fail to be written, and records of allocation handlers that interleave: AttemptNumbers is about handlers one after the other.
- BudgetStream.Stream.Process: a cancelled context and failed sends end the loop early and are not modelled; request ids missing from the headers are drawn by the caller; the cost headers are the receipt of the charge.
- PriceCache.AnswersAreTrueIff: one refresh is under way at a time, as the one background worker has it.
- LockPairs.CanDeadlockIff: until the two wait for each other no other pod locks or commits.
- The budget cache (GetMatchingBudgets) and CheckBudget as a method: the latter runs the admission loop on unlocked rows.
- `internal/extproc/server.go`, an older variant of the stream handler.
- The rest of the rate-limit stream handler, the rest of the user interface, metrics, audit log, routing and configuration.

# LINKIN billing, routing and planning: a verified model

This project models the decision-making core of the repository in Dafny and proves what that
core promises: credit accounting over whole runs, work scheduling, key health and routing,
container metering, pricing, and four smaller engines (diagram layout, proposals, the login
gate, the decomposition cache).

Code that updates tables in place is a class whose methods are proved to compute a function on
the table contents; loops are loops. The lemmas then speak about those functions, over every
state or every run of operations.

| file | models |
|---|---|
| Collections | notions on sequences used everywhere |
| Money, Balances | rounding to four decimals; the all-or-nothing debit across pools |
| LockPlans, FaultLedger | three-instalment lock-ups and their rewards; the fault-pool ledger |
| Store, PoolStore | every billing operation as a function on the tables, and the store that computes them in place |
| TaskLaws, StoreLaws | what reserving and settling come to, and orphaned records; invariants and conservation over runs |
| PlanLaws, PassLaws | the life of a lock-up and the flow into the fault pool; whom a payment pass pays, and a plan paid on time |
| DriftLaws | the same store on arbitrary amounts: what the locked pool holds, exactly when it is short, how far credit drifts |
| FaultBooks | the fault pool on arbitrary amounts: what is booked against what is taken, and when the public pool is paused |
| Pricing | cost of a model call, and when a reservation covers a run of calls |
| Scheduler, DecomposeCache | parallel phases from a dependency list; the decomposition result cache |
| KeyHealth, Routing | key health that only falls; listing, sorting and choosing keys |
| DockerMeter, DockerCharges | incremental uptime billing against a monthly allowance; what becomes of hours when debits are refused |
| SanitizedIds, GridLayout, WorkflowLayout | diagram ids, the grid of an architecture diagram, the lanes of a workflow |
| Proposals, LoginGate | the accepted note of the public-horizon loop; the failed-login limit |

## Conventions

- Credit amounts are reals counted in units of 0.0001 credit, so `round(x, 4)` is `Round`, half
  to even, as in Python. "On the grid" means a whole number of units. Docker hours and call costs
  are counted in millionths the same way.
- Every store method is one atomic step. A transaction that raises leaves the tables as they were.
- Clocks, fresh ids, observed traffic, plan terms, the lock threshold, the sum of a task's usage
  and the result of a decomposition are parameters.

## What the proofs found

- `spend_from_pools` refuses some debits the spendable balance covers, because the last unit of a
  pool is rounded up before it is debited (`CoveredButRefused`); `SpendSucceedsIff` is the exact
  condition, and on the grid it is just "covered".
- For the same reason `reserve_for_task` can leave a task record without its debit
  (`OrphanExample`; exactly when: `OrphanIff`). On the grid it never does.
- `finalize_task` does not look at the status, so finalizing twice moves money
  (`SettleTwiceRefundsTwice`) unless the cost was the reservation (`SettleAgainIff`); `SettleDriftIs`
  gives the drift for all inputs.
- All plans of an account draw on one locked pool, and every plan that ends leaves the rounding of
  its total there, or takes it from there (`LockedBalanceIs`). So an off-grid lock can stall another
  lock of the account whose own amount is whole: its last payment never comes and its early unlock
  is refused (`SharedPoolStalls`). `PaymentRefusedIff`, `UnlockRefusedIff` and `ForfeitShortIff` are
  the exact conditions after any run; a lone plan stalls exactly when its total rounds up
  (`LonePlanStallsIff`), and below half a unit nothing is ever refused (`BelowHalfNeverShort`).
- Early unlock splits unpaid principal exactly into penalty and return for every total; the split is
  all that is left of the total exactly when that is on the grid (`EarlyUnlockSplits`). The clamp on
  unpaid principal clips exactly the totals between 1.5 and 2 units after two payments
  (`RestNonNegativeIff`).
- Docker uptime is marked as billed before the debit is attempted. A refused debit, at a stop too,
  leaves the mark, so only uptime beyond it is charged afterwards (`RefusedIsForgotten`), and a stop
  that is refused swallows the first uptime after a restart as well (`RefusedStopSwallows`). Over any
  run the billed hours are hours posted, hours refused and hours worth nothing (`HoursHaveFates`), and
  all that is worth something is posted exactly when no settlement with a positive cost was
  unaffordable (`AllPostedIff`).
- A key failure that finds the locked pool empty books the whole unpaid principal to the fault pool and
  takes it from nobody (`OverbookedIff`, `KeyFailureBooksUnbacked`); on whole amounts it never does
  (`WholeAmountsNeverOverbook`).
- A sample in between makes no difference to anyone's hours while hours are exact
  (`TickBetweenSamples`), unless a smaller sample of the same segment lies between the two
  (`SmallerSampleCosts`).
- The three reward payments miss the promised reward by one unit unless it divides by three
  (`RewardsPaidInFull`).
- When the fault pool cannot pay a lock reward, the shortfall is credited to it: from balance b a
  reward r leaves |b - r| (`RewardLeavesDistance`).
- One key failure, or five rate-limit hits in an hour, puts a key offline for ever: nothing
  raises a score (`FailureIsAbsorbing`, `RateLimitIsAbsorbing`). The `degrade` and `public_pool`
  routing modes are never reached, since the platform's own key is always listed
  (`RouteStructure`).
- `plan_parallel_execution` has a state to stop in exactly when the dependencies have no cycle
  (`CanStopIffAcyclic`); on a cycle its loop never ends.
- A workflow lane with more than six nodes shares a slot with another lane whenever that lane is
  named like the overflow, `<lane>_x1` (`OverflowCollides`); `SlotsDistinctIff` is the exact condition.
- Sanitizing an id twice can change it, when the cut at 72 characters leaves an underscore
  (`SidTwiceIff`).
- A run that uses all its planned tokens costs more than its estimate exactly when its role, tool and
  lock multipliers exceed the buffer, unless the difference drowns in rounding (`FullRunCoveredIff`).
  With the default weights a single call of the heaviest role costs 20 credits where 2.6 are reserved
  (`HeavyRoleOverruns`).
- The degraded mode of routing is unreachable for any list of keys, and the quota test of the relay
  preference decides nothing (`FallbackIs`, `RelayIff`).
- The early-unlock penalty is 5% of the plan's whole principal, whatever was paid out already.

## Model

| member | source | states |
|---|---|---|
| Money.RoundIsUnique | backend/billing/pool_store.py:401-406 | rounding to four decimals is nearest, ties to even, and nothing else is |
| Balances.SpendSucceedsIff | backend/billing/pool_store.py:669-713 | for every table and amount, exactly when a debit across the pools succeeds |
| Balances.SpendTakesExactly | backend/billing/pool_store.py:660-713 | a debit that succeeds takes exactly the rounded amount, reports what each pool paid, overdraws nothing, leaves other pools and accounts alone |
| Balances.SpendOnGridIff | backend/billing/pool_store.py:669-713 | on grid balances it succeeds iff the spendable credit covers the amount |
| Balances.MonthlyFirst | backend/billing/pool_types.py:23 | purchased credit is touched only when less than half a unit of monthly grant is left, none on the grid |
| Balances.SpendKeepsGrid | backend/billing/pool_store.py:669-713 | debits keep grid balances on the grid |
| Balances.SpendOverConserves | backend/billing/pool_store.py:684-711 | for any spending order of distinct pools, what left the pools is what was asked less what remains |
| Balances.SpendOverFrame | backend/billing/pool_store.py:684-711 | for any spending order, pools outside it, other accounts and the set of rows are left alone |
| Balances.SpendOverNonNegative | backend/billing/pool_store.py:660-667 | for any spending order, no pool is overdrawn |
| Balances.SpendOverBreakdown | backend/billing/pool_store.py:684-711 | for any spending order, the breakdown is what each pool lost |
| Balances.CoveredButRefused | backend/billing/pool_store.py:697-709 | a covered debit that is refused: 0.6 units of monthly credit round up to 1 |
| LockPlans.PrincipalPaysRounding | backend/billing/pool_store.py:1473-1483 | three payments hand out the rounded total, hence all of it iff the total is on the grid |
| LockPlans.LastPaymentCovered | backend/billing/pool_store.py:1473-1486 | one plan's own principal: what two payments leave of the total covers the third iff the total does not round up |
| LockPlans.TimesIsProduct | backend/billing/pool_store.py:1475-1481 | the repeated addition used for amounts already paid is the product of the code |
| LockPlans.OffGridLockStalls | backend/billing/pool_store.py:1473-1486 | one plan's own principal: of a lock of 0.6 units, 0.6 are left and 1 is due; what the shared pool makes of it is DriftLaws.SharedPoolStalls |
| LockPlans.UnpaidIsRest | backend/billing/pool_store.py:1552-1558 | on the grid unpaid principal is the total less the payments made, and the clamp never clips |
| LockPlans.EarlyUnlockSplits | backend/billing/pool_store.py:1648-1650 | for every total, on the grid or not, unpaid principal is penalty plus what is returned, the second clamp never clips, and the two are all that is left of the total iff it is on the grid |
| LockPlans.UnpaidIsRestIff | backend/billing/pool_store.py:1552-1558 | unpaid principal as rounded is all that is left of the total iff the total is on the grid |
| LockPlans.RestNonNegativeIff | backend/billing/pool_store.py:1557-1558 | the clamp on unpaid principal clips iff two payments exceed the total, which is iff two were made and the total lies between 1.5 and 2 units |
| LockPlans.EarlyUnlockOffGrid | backend/billing/pool_store.py:1648-1650 | an instance off the grid: of a 10.5 lock 9 are returned and 1 is charged; the half stays in the locked pool |
| LockPlans.RewardsPaidInFull | backend/billing/pool_store.py:1473-1484 | the three reward payments sum to R, R - 1 or R + 1 as R mod 3 is 0, 1 or 2 |
| LockPlans.RewardsOnEarlyExit | backend/billing/pool_store.py:1552-1562 | paid plus forfeited reward is R after none or one payment, and deviates as above after two |
| LockPlans.RewardBaseIsExcess | backend/billing/pool_store.py:401-402 | the reward is the total times the multiplier's excess over one |
| LockPlans.RewardByTerm | backend/billing/pool_store.py:401-409 | the reward is 2, 8 or 20 percent of the total by term and the penalty 5 percent, to the nearest unit |
| LockPlans.LongerEarnsMore | backend/billing/pool_store.py:401-402 | a longer term never earns less |
| FaultLedger.DebitKeepsSolvent | backend/billing/pool_store.py:1202-1245 | a debit pays the lesser of the request and the reported balance; the raw sum stays at or above minus half a unit |
| FaultLedger.CreditKeepsSolvent | backend/billing/pool_store.py:1166-1200 | a credit adds its amount when positive and keeps the ledger solvent |
| FaultLedger.SolventBalance | backend/billing/pool_store.py:1154-1164 | a solvent ledger reports no negative balance |
| FaultLedger.AppendKeepsGrid | backend/billing/pool_store.py:1180-1200 | on the grid every entry's balance_after is the sum of the entries up to it |
| FaultLedger.RewardLeavesDistance | backend/billing/fault_pool.py:65-93 | on the grid a lock reward r from balance b leaves a reported balance of abs(b - r) |
| FaultLedger.RewardIsCovered | backend/billing/fault_pool.py:74-93 | on the grid what is disbursed and the shortfall add up to the reward |
| FaultLedger.RewardKeepsSolvent | backend/billing/fault_pool.py:65-93 | a lock reward of any amount keeps the ledger solvent |
| TaskLaws.TierBounds | backend/billing/pools_service.py:25-34 | rejected iff the balance is below half the estimate, degraded iff from half to below it |
| TaskLaws.ReservationIs | backend/billing/pools_service.py:77-123 | for every state and estimate: rejected below half the estimate as reported, else the balance as reported is reserved and the task degraded when it is below the estimate, else the estimate; recorded even if the debit is refused; what the debit takes |
| TaskLaws.WholeReservationIs | backend/billing/pools_service.py:77-123 | on whole amounts with a fresh id: the estimate is held when covered, all of the balance when it covers half, nothing below |
| TaskLaws.SettlementIs | backend/billing/pools_service.py:236-267 | for every state and cost: refund below the reservation, debit above it, refusal, and the task after it, whatever its status |
| TaskLaws.OrphanIff | backend/billing/pools_service.py:88-112 | for every state, exactly when the record-before-debit order leaves a record without its debit |
| TaskLaws.NeverOrphanedOnGrid | backend/billing/pools_service.py:88-112 | on grid balances and estimates it never does |
| TaskLaws.OrphanExample | backend/billing/pools_service.py:97-112 | off the grid it can |
| TaskLaws.ReserveConserves | backend/billing/pools_service.py:77-123 | a reservation moves credit from the pools into the open task, for every account |
| TaskLaws.SettleDriftIs | backend/billing/pools_service.py:236-267 | for every state and cost, how far finalizing moves pools plus reservations plus settled costs, the second finalization included |
| TaskLaws.SettleTwiceRefundsTwice | backend/billing/pools_service.py:236-267 | a task of 10 units settled at 4 twice in a row is refunded 6 twice |
| TaskLaws.SettleAgainIff | backend/billing/pools_service.py:236-267 | on whole amounts, settling again at the same cost moves nothing iff the cost was the reservation |
| TaskLaws.SettleRefusedIff | backend/billing/pools_service.py:257-262 | on the grid finalizing is refused iff the extra cost exceeds the spendable credit, and then changes nothing |
| StoreLaws.StepKeeps | backend/billing/pool_store.py:660-1685 | every operation keeps: locked pools match unpaid principal, no overdraft, grid balances, solvent grid ledger |
| StoreLaws.StepFlows | backend/billing/pool_store.py:660-1685 | every operation changes an account's two kinds of credit by its stated flow only |
| StoreLaws.RunConserves | backend/billing/pools_service.py:77-267 | over every run on whole amounts, spendable credit, open reservations and settled costs add up to what came in, and so does contribution credit |
| StoreLaws.RunKeeps | backend/billing/pool_store.py:660-1685 | the invariant holds after every run |
| StoreLaws.LockedIsUnpaidPrincipal | backend/billing/contribution_service.py:55-98 | after every run each account's locked balance is the unpaid principal of its active plans |
| StoreLaws.LockedNeverShort | backend/billing/pool_store.py:1485-1653 | after every run no payment, forfeiture or early unlock finds the locked balance short |
| StoreLaws.LockedCovers | backend/billing/pool_store.py:1485-1486 | the locked pool covers the next payment and all that is unpaid of any active plan |
| StoreLaws.DuePlansArePaid | backend/billing/pool_store.py:1515-1539 | after every run a payment pass pays every payable plan once and no other; which those are is in PassLaws.PassPaysTheDue |
| StoreLaws.PayRowsFlow | backend/billing/pool_store.py:1487-1492 | a pass moves the principal falling due from the locked to the purchased pool and adds the reward, per account |
| StoreLaws.EarlyUnlockKeeps | backend/billing/pool_store.py:1637-1665 | early unlock never fails for want of locked credit and costs the account its penalty only |
| StoreLaws.ForfeitKeyKeeps | backend/billing/pool_store.py:1564-1635 | a key failure takes exactly the unpaid principal of the active plans bound to the key, per account, and nothing from other pools |
| StoreLaws.ForfeitKeyInv | backend/billing/pool_store.py:1564-1635 | a key failure keeps locked pools equal to unpaid principal |
| StoreLaws.LockKeeps | backend/billing/contribution_service.py:55-98 | locking moves credit between the two contribution pools and keeps the invariant |
| StoreLaws.EmptyStore | backend/billing/pool_store.py:413-423 | the empty store satisfies the invariant |
| StoreLaws.FaultPoolStaysSolvent | backend/billing/pool_store.py:1154-1245 | over every run, with no condition on amounts, the fault pool never reports a negative balance |
| StoreLaws.SettingsOnlyTighten | backend/billing/fault_pool.py:183-197 | over every run the public pool is only ever paused and the platform take only ever raised, up to its cap |
| PlanLaws.PrincipalIsConserved | backend/billing/pool_store.py:1473-1685 | after every run each plan's principal is what was paid out plus what is unpaid, forfeited, or returned and charged, and the forfeit booked is exactly that principal and the unpaid reward |
| PlanLaws.StepAccounts | backend/billing/pool_store.py:1405-1685 | every operation keeps a plan's terms, leaves ended plans alone, pays one period at a time and records how a plan ended |
| PlanLaws.EndedPlansStay | backend/billing/pool_store.py:1515-1685 | over every run an ended plan is never touched again |
| PlanLaws.PaymentsAreSpaced | backend/billing/pool_store.py:1494-1534 | over every run without forced passes, whatever the amounts and clocks: the operation that makes a plan's k-th further payment, the completing one included, is a pass at an instant at least k - 1 intervals after the due date it started with |
| PlanLaws.PaymentsAfterLock | backend/billing/contribution_service.py:55-98 | and the k-th payment of a new lock comes at least k intervals after it was locked |
| PlanLaws.LockSucceedsIff | backend/billing/contribution_service.py:55-72 | exactly when a lock goes through, and which refusal is given when not; it leaves the threshold unlocked |
| PlanLaws.NotActiveIff | backend/billing/pool_store.py:1577-1646 | exactly when a forfeiture or early unlock finds no plan to end, and that it then changes nothing |
| PlanLaws.ForfeitKeyRow | backend/billing/pool_store.py:1619-1635 | a key failure ends every active plan bound to the key, in full, and no other |
| PlanLaws.ForfeitKeyCredits | backend/billing/pool_store.py:1564-1635 | the fault pool gains exactly what a key failure takes |
| PlanLaws.ClaimsReport | backend/billing/pool_store.py:1540-1550 | a sequence of rewards leaves the fault pool at the successive distances |
| PlanLaws.FaultFlows | backend/billing/pool_store.py:1154-1685 | after every run, every operation changes the fault pool's reported balance by exactly its stated flow |
| PassLaws.PassPaysTheDue | backend/billing/pool_store.py:1515-1539 | after every run, an unforced pass pays one period of each active plan it is for whose date has come, sets the next date, leaves every other plan as it is and none of its own due; a forced pass pays one period of every active plan it is for |
| PassLaws.NothingStaysDue | backend/billing/pool_store.py:1515-1539 | after every run from plans made by locking, no active plan the pass is for has a date that has come |
| PassLaws.LockAddsPlan | backend/billing/contribution_service.py:55-98 | what a lock adds: one plan of that amount and term, unpaid, with its first date an interval from now, a third to the nearest unit per payment; or nothing |
| PassLaws.ThreeIntervals | backend/billing/pool_store.py:397-398 | three intervals make the term |
| PassLaws.RunTermed | backend/billing/pool_store.py:1405-1685 | over every run every plan has a term of 30, 90 or 180 days and intervals of a third of it |
| PassLaws.OnTimeCompletes | backend/billing/pool_store.py:1473-1539 | three unforced passes, an interval apart from the lock on, complete a plan after its term, with all its principal paid |
| DriftLaws.LockedBalanceIs | backend/billing/pool_store.py:1485-1685 | over every run, whatever the amounts: an account's locked balance is what its active plans have left, plus the rounding its ended plans left there, plus what key failures found missing and what was credited directly |
| DriftLaws.RunSound | backend/billing/pool_store.py:660-1685 | over every run, with no condition on amounts, no balance is overdrawn and every plan stays one that locking could have made |
| DriftLaws.PaymentRefusedIff | backend/billing/pool_store.py:1485-1486 | after every run and within every pass, exactly when a due payment is refused: what else the shared pool holds is less than the rounding the payment adds, which for the last payment is that of the total |
| DriftLaws.UnlockRefusedIff | backend/billing/pool_store.py:1650-1653 | after every run, exactly when an early unlock is refused for want of locked credit |
| DriftLaws.ForfeitShortIff | backend/billing/pool_store.py:1584-1593 | after every run, exactly when a key failure finds the pool short of what a plan has unpaid |
| DriftLaws.BelowHalfNeverShort | backend/billing/pool_store.py:1485-1653 | after every run, while all lock totals of an account lie less than half a unit above a whole number, none of its due payments and early unlocks is refused |
| DriftLaws.SharedPoolStalls | backend/billing/pool_store.py:1485-1486 | a run from the empty store after which a lock of 3 whole units is never paid its last period and cannot be unlocked, because a lock of 0.6 units of the account took its rounding from the pool |
| DriftLaws.LonePlanStallsIff | backend/billing/pool_store.py:1485-1486 | for every run, a plan whose account has no other plan never gets its last payment iff its total rounds up |
| DriftLaws.StepDrifts | backend/billing/pools_service.py:77-267 | every operation changes spendable credit, reservations and settled costs by its stated gain and the drift of its rounding, and contribution credit by its gain |
| DriftLaws.RunDrifts | backend/billing/pools_service.py:77-267 | over every run, with no condition on amounts, statuses or ids, the same credit adds up to what came in plus the drifts of the task operations, and contribution credit to what came in |
| DriftLaws.DriftIsSmall | backend/billing/pools_service.py:77-267 | an operation drifts by at most half a unit unless it leaves a record without its debit or settles a task again |
| FaultBooks.BookedIs | backend/billing/pool_store.py:1580-1600 | what a forfeiture books is the principal taken, the unpaid reward and what it overbooks |
| FaultBooks.OverbookedIff | backend/billing/pool_store.py:1584-1593 | more than rounding is overbooked iff principal is unpaid and the locked pool is empty, and then all of it is; nothing is while the pool is not short |
| FaultBooks.KeyFailureBooks | backend/billing/pool_store.py:1564-1635 | for every state, a key failure adds to the fault pool what it takes, the rewards forfeited and what it overbooks |
| FaultBooks.TakenIsLost | backend/billing/pool_store.py:1584-1593 | the principal taken is what the locked pools of all accounts lose |
| FaultBooks.ClaimsRaw | backend/billing/fault_pool.py:65-93 | how rewards of a pass move the sum of the entries, each paid out of the balance reported for it |
| FaultBooks.RunRaw | backend/billing/pool_store.py:1154-1685 | over every run, whatever the amounts, the entries of the fault pool add up to what was taken, forfeited and paid plus what was overbooked |
| FaultBooks.LowMeansPaused | backend/billing/fault_pool.py:183-197 | over every run, once so, the public pool is paused whenever the balance is below the threshold |
| FaultBooks.DepletionIs | backend/billing/fault_pool.py:183-197 | below the threshold the pool is paused and the take raised by 0.02 to at most 0.25, otherwise nothing changes |
| FaultBooks.RewardDepletes | backend/billing/fault_pool.py:65-93 | a reward checks for depletion after each of its entries, and a pool left low is paused |
| FaultBooks.WholeAmountsNeverOverbook | backend/billing/pool_store.py:1584-1593 | over every run on whole amounts nothing is overbooked |
| FaultBooks.TrioStarts | backend/billing/contribution_service.py:55-98 | a credit of 2 units is locked as 0.6, 0.6 and 0.8 |
| FaultBooks.KeyFailureBooksUnbacked | backend/billing/pool_store.py:1584-1593 | after three passes over these locks the pool is empty, and the failure of the key behind the third books a unit that no balance lost |
| PoolStore.PoolStore.AtomicDebitPool | backend/billing/pool_store.py:660-667 | debits a row that holds the amount, and says whether it did |
| PoolStore.PoolStore.CreditPool | backend/billing/pool_store.py:728-761 | adds a positive amount to a row, creating it |
| PoolStore.PoolStore.SpendFromPools | backend/billing/pool_store.py:669-726 | the debit loop, its retry and its rollback compute the debit function |
| PoolStore.PoolStore.ReserveForTask | backend/billing/pools_service.py:77-123 | tiering, record and debit in the order of the code; what it reserves is in TaskLaws.ReservationIs |
| PoolStore.PoolStore.FinalizeTask | backend/billing/pools_service.py:236-267 | refund or extra debit, then settlement; nothing changes when refused |
| PoolStore.PoolStore.LockContribution | backend/billing/contribution_service.py:55-98 | the checks, the move and the new plan |
| PoolStore.PoolStore.PayInstallmentPeriod | backend/billing/pool_store.py:1473-1513 | one payment, or nothing when the locked pool is short |
| PoolStore.PoolStore.PayDueInstallments | backend/billing/pool_store.py:1524-1539 | the pass over rows read once, each paid from its own values; whom it pays is in PassLaws.PassPaysTheDue |
| PoolStore.PoolStore.ProcessLockInstallments | backend/billing/pool_store.py:1515-1550 | payments first and then the reward claims in order; whom it pays is in PassLaws.PassPaysTheDue |
| PoolStore.PoolStore.FaultPoolCredit | backend/billing/pool_store.py:1166-1200 | appends a credit entry for a positive amount |
| PoolStore.PoolStore.FaultPoolDebit | backend/billing/pool_store.py:1202-1245 | appends a debit entry for what can be paid, and returns it |
| PoolStore.PoolStore.MaybeHandleDepletion | backend/billing/fault_pool.py:183-197 | raises the take and pauses the public pool below the threshold |
| PoolStore.PoolStore.CreditFaultPool | backend/billing/fault_pool.py:17-39 | a credit entry, then the depletion rule |
| PoolStore.PoolStore.DisburseFromFaultPool | backend/billing/fault_pool.py:42-62 | a debit entry, then the depletion rule |
| PoolStore.PoolStore.DisburseForLockReward | backend/billing/fault_pool.py:65-93 | what the pool can pay, then the shortfall as a credit |
| PoolStore.PoolStore.ForfeitInstallmentKeyFailure | backend/billing/pool_store.py:1564-1617 | ends an active plan, emptying a short locked pool, and books what was forfeited |
| PoolStore.PoolStore.ForfeitInstallmentsForKeyFailure | backend/billing/pool_store.py:1619-1635 | forfeits every active plan bound to the key, and no other |
| PoolStore.PoolStore.EarlyUnlockInstallment | backend/billing/pool_store.py:1637-1685 | returns principal less penalty and books the forfeit, or refuses and changes nothing |
| Pricing.MoreInput | backend/billing/pricing_engine.py:91-169 | more input tokens never cost less, even where they let more cache reads count |
| Pricing.MoreOutput | backend/billing/pricing_engine.py:91-169 | more output tokens never cost less |
| Pricing.MoreCacheWrites | backend/billing/pricing_engine.py:91-169 | more cache writes never cost less |
| Pricing.MoreReadsIff | backend/billing/pricing_engine.py:109-127 | more cache reads weigh no more iff a read is priced no higher than input; what counts as reads is in Pricing.ReadsAreBilled |
| Pricing.MoreReadsCost | backend/billing/pricing_engine.py:91-169 | and the cost follows, in both directions |
| Pricing.ReadsAreBilled | backend/billing/pricing_engine.py:107-127 | tokens said to be read, or said so under the older name when none are, are billed as reads instead of input; more than the input count as the input, a negative number as none |
| Pricing.ReadsCost | backend/billing/pricing_engine.py:107-169 | the cost does not depend on the name reads come under, and follows their price |
| Pricing.TokensAreBilled | backend/billing/pricing_engine.py:107-127 | weighted tokens, kind by kind, as products; without metadata all input is plain and no writes are seen |
| Pricing.CostIsProduct | backend/billing/pricing_engine.py:120-169 | a cost is weighted tokens over the baseline times every multiplier, to six decimals |
| Pricing.CacheHitIff | backend/billing/pricing_engine.py:131-136 | a cache hit is no dearer iff its multiplier is at most one or nothing was used |
| Pricing.CacheHitCost | backend/billing/pricing_engine.py:131-169 | with such a multiplier a hit never costs more |
| Pricing.MissingMetadataIff | backend/billing/pricing_engine.py:114-127 | missing cache metadata undercuts nothing iff what reads save covers what writes cost |
| Pricing.MissingMetadataCost | backend/billing/pricing_engine.py:114-169 | it never undercuts the same call with known reads and no writes, where a read is priced no higher than input |
| Pricing.EstimateIsPerCall | backend/billing/pricing_engine.py:183-195 | the estimate is the most a planned call can cost, once per planned call |
| Pricing.CallsPlannedIs | backend/billing/pricing_engine.py:183-195 | planned calls are iterations times roles, fewer than one of either counting as one |
| Pricing.EstimateCovers | backend/billing/pricing_engine.py:140-195 | for every run of calls within the plan and the buffer the estimate covers the total cost, up to rounding, where a read is priced no higher than input and a cache hit has a multiplier of at most one |
| Pricing.FullRunCoveredIff | backend/billing/pricing_engine.py:140-195 | for every run of as many calls as planned, each with all the planned tokens: its cost exceeds the estimate by the excess of its factor over model times buffer, within the rounding of each cost and of the estimate; so outside that slack it costs more than the estimate iff the factor exceeds model times buffer |
| Pricing.FullRunCost | backend/billing/pricing_engine.py:140-169 | such a run costs its share per call, within half a millionth for each |
| Pricing.HeavyRoleOverruns | backend/billing/pricing_engine.py:30-38 | one call of 1000 and 1000 tokens at role weight 10 costs 20 credits, its estimate is 2.6 |
| Scheduler.PlanParallelExecution | backend/company/decomposer.py:266-306 | on acyclic input: phases partition the tasks, dependencies come strictly earlier, no phase is empty, a task's phase is its longest chain, no valid phasing is shorter |
| Scheduler.ComputeDepths | backend/company/decomposer.py:284-297 | the while-changed loop ends with depths that are stable and are lengths of chains |
| Scheduler.RelaxOnce | backend/company/decomposer.py:288-297 | a pass that changes nothing leaves every task above its dependencies, one that changes something raises the sum |
| Scheduler.GroupByDepth | backend/company/decomposer.py:299-303 | each depth gets its tasks in increasing order |
| Scheduler.FixpointIsLongest | backend/company/decomposer.py:284-297 | such depths are the longest dependency chains |
| Scheduler.LongestIsUnique | backend/company/decomposer.py:284-297 | and there is only one such assignment |
| Scheduler.LevelledIsOptimal | backend/company/decomposer.py:299-306 | no valid phasing has fewer phases |
| Scheduler.NoGaps | backend/company/decomposer.py:305-306 | no depth below the largest is empty |
| Scheduler.ChainIsShort | backend/company/decomposer.py:286-297 | without cycles a chain has no more tasks than there are |
| Scheduler.CanStopIffAcyclic | backend/company/decomposer.py:286-297 | the loop has a state to stop in iff no task depends on itself through a chain |
| DecomposeCache.CacheIsRecency | backend/company/decomposer.py:65-68 | after any history the cache holds exactly the most recently used keys, oldest first, each with its stored result |
| DecomposeCache.AnswerIs | backend/company/decomposer.py:177-203 | a call answers with the stored result iff its key is recent, else with a new one |
| DecomposeCache.RunStores | backend/company/decomposer.py:193-196 | a cached result is the one made by the key's last miss |
| DecomposeCache.ResultCache.Decompose | backend/company/decomposer.py:177-203 | lookup, move to end, store and eviction in place |
| KeyHealth.ScoreNeverRises | backend/billing/pool_store.py:969-1025 | over every run of events and evaluations no score rises |
| KeyHealth.FailureIsAbsorbing | backend/billing/key_binding.py:94-116 | after one key failure every later evaluation says offline, whatever happens in between |
| KeyHealth.RateLimitIsAbsorbing | backend/billing/shared_pool.py:104-113 | so does one evaluation that sees five rate-limit hits |
| KeyHealth.OfflineIff | backend/billing/shared_pool.py:67-113 | exactly what an evaluation finds offline, by verdict and by score |
| KeyHealth.EvaluationIs | backend/billing/shared_pool.py:67-113 | exactly what an evaluation reports, in terms of score, stored verdict, counts and traffic, and how it caps the score |
| KeyHealth.EnoughSuccessIff | backend/billing/shared_pool.py:95-97 | a rounded success rate of 0.85 as a comparison of counts |
| KeyHealth.EventIs | backend/billing/pool_store.py:969-1020 | what an event does to counts, score and verdict once evaluated, and to no other key |
| KeyHealth.ScheduledIs | backend/billing/shared_pool.py:79-134 | an evaluation that nothing forces leaves a key in good order as it is |
| KeyHealth.NeverUnhealthy | backend/billing/shared_pool.py:67-76 | an evaluation never reports unhealthy |
| KeyHealth.KeyHealthTable.RecordKeyHealthEvent | backend/billing/pool_store.py:969-1020 | counts, score and status after an event |
| KeyHealth.KeyHealthTable.EvaluateKeyHealth | backend/billing/shared_pool.py:79-134 | the verdict and the score it is capped to, written back |
| KeyHealth.KeyHealthTable.RecordKeyEvent | backend/billing/key_binding.py:94-116 | event and evaluation together; only a key failure forfeits plans |
| Routing.RouteStructure | backend/billing/routing.py:26-116 | for every listing: when it is rejected, how many keys, which mode, from which group, the first in sort order with none left out that is better, modes never reached; the order itself is in Routing.BeforeIff |
| Routing.RouteIs | backend/billing/routing.py:63-116 | the decision in terms of the surviving contributors alone |
| Routing.PrimaryFits | backend/billing/shared_pool.py:256-277 | the primary key comes first of its group by quota, model, organisation, affinity, price, health, slots and weight; among keys that tie to affinity none is cheaper |
| Routing.FirstCriteria | backend/billing/shared_pool.py:256-277 | among contributors, quota, model, organisation, cache affinity, price, health, free slots and weight decide in this order |
| Routing.BeforeIff | backend/billing/shared_pool.py:256-277 | the comparison of sort keys, exactly, in terms of what the candidates are |
| Routing.ChosenAreBest | backend/billing/routing.py:83-116 | no key left out of the group is better than one chosen |
| Routing.GroupIs | backend/billing/routing.py:87-116 | the group is made of the organisation's own keys when there are two of them, else of all |
| Routing.RelayIff | backend/billing/routing.py:119-124 | with two or more contributors, relay iff a key of the group has an affinity above 0.1; the quota test decides nothing |
| Routing.FallbackIs | backend/billing/routing.py:60-79 | for every list of keys the degraded mode is never reached, and the public pool serves iff all keys are offline or unhealthy and it is not paused |
| Routing.PlatformComesLast | backend/billing/shared_pool.py:226-253 | the platform's key and its place after every contributor's |
| Routing.RoutingOrderIsOrder | backend/billing/shared_pool.py:256-277 | the sort key orders candidates totally and transitively |
| Routing.SortSorts | backend/billing/shared_pool.py:277 | sorting gives a sorted rearrangement |
| Routing.ListSharedPoolKeys | backend/billing/shared_pool.py:186-253 | the listing loop with its terms, hours, model, health and quota tests, ending with the platform's own key |
| Routing.ListedIff | backend/billing/shared_pool.py:180-230 | exactly which registered keys are listed, in terms of the key, its stored health and its traffic |
| Routing.ListedStandFor | backend/billing/shared_pool.py:200-224 | what a listed candidate says of its key and of its health as just evaluated |
| Routing.ListingEvaluates | backend/billing/shared_pool.py:180-194 | listing evaluates exactly the keys that fit |
| Routing.InWindowIff | backend/billing/shared_pool.py:43-56 | the hours a window holds, past midnight if need be |
| Routing.FitsIff | backend/billing/shared_pool.py:59-64 | terms of service, hours and model of a key |
| Routing.ListedIsListing | backend/billing/shared_pool.py:186-253 | a listing holds contributors in service and then the platform key |
| Routing.ListingExcludesDown | backend/billing/shared_pool.py:192-194 | a key that is down is never listed and stays down |
| Routing.FailedKeyNeverRouted | backend/billing/key_binding.py:94-116 | after a key failure and any later run, no decision selects that contributor key |
| DockerMeter.BilledIsPeak | backend/billing/docker_meter.py:123-136 | over events that took effect, where a refused stop is a sample, billed uptime since the last stop is the largest uptime sampled |
| DockerMeter.FreeIsAllowanceOrAll | backend/billing/docker_meter.py:64-81 | over events that took effect, free hours are the lesser of the allowance and all rounded hours settled |
| DockerMeter.HoursAccountedFor | backend/billing/docker_pricing.py:59-80 | over events that took effect, free plus billed hours are the time settled within half a millionth per settlement, and with no drift when hours are exact |
| DockerMeter.SecondsAreUptime | backend/billing/docker_meter.py:108-136 | over events that took effect, the time settled is the uptime of the user's services, segment by segment |
| DockerMeter.ClosedForm | backend/billing/docker_meter.py:108-146 | over events that took effect, with exact hours, free is the lesser of allowance and total uptime and billed, posted or refused, is the rest, over any interleaving |
| DockerMeter.TickMakesNoDifference | backend/billing/docker_meter.py:183-222 | over events that took effect, leaving out a sample that a later one of its segment reaches changes nobody's free or billed hours, while hours are exact with it and without it |
| DockerMeter.TickSeconds | backend/billing/docker_meter.py:123-136 | it changes no time settled, with no condition on rounding |
| DockerMeter.TickLeftOutExact | backend/billing/docker_meter.py:123-146 | with no other sample of the service in between, hours exact with the sample are exact without it |
| DockerMeter.TickBetweenSamples | backend/billing/docker_meter.py:183-222 | so between successive samples of a service exactness with the sample is enough |
| DockerMeter.SmallerSampleCosts | backend/billing/docker_meter.py:123-146 | and it is not with a smaller sample in between: 2501 millionths of an hour become 2500 |
| DockerMeter.RefusedIsForgotten | backend/billing/docker_meter.py:123-167 | after a refused charge, at a sample or a stop, the mark stands at its uptime: nothing up to it is charged any more, beyond it only the excess |
| DockerCharges.MeteredIsRun | backend/billing/docker_meter.py:234-253 | after any attempts, with debits refused or not, the tracker is the one after the events that took effect, a refused stop being a sample |
| DockerCharges.MeteredIsPeak | backend/billing/docker_meter.py:123-136 | over every run of attempts, billed uptime is the largest settled since the last stop that was not refused |
| DockerCharges.FateIsCharge | backend/billing/docker_meter.py:138-167 | a settlement is posted, refused or worth nothing as its charge says |
| DockerCharges.HoursHaveFates | backend/billing/docker_meter.py:138-167 | over every run of attempts, billed hours are hours posted, hours refused and hours whose cost rounds to nothing |
| DockerCharges.AllPostedIff | backend/billing/docker_meter.py:147-167 | all billed hours worth anything are posted iff no settlement with a positive cost was unaffordable |
| DockerCharges.UptimeHasFates | backend/billing/docker_meter.py:108-167 | at every point of every run, uptime is what was granted free, posted, refused or worth nothing, within half a millionth per settlement, and exactly with exact hours |
| DockerCharges.CostIsRateTimesHours | backend/billing/docker_pricing.py:83-102 | what a service's settlements cost, posted or not, is its rate times their hours within half a millionth of a dollar for each |
| DockerCharges.HoursByService | backend/billing/docker_pricing.py:83-102 | a user's hours with one fate are those of the user's services |
| DockerCharges.RefusedStopSwallows | backend/billing/docker_meter.py:234-253 | a refused stop after an hour leaves the half hour after the restart uncharged; an affordable one posts both |
| DockerMeter.SplitGrants | backend/billing/docker_pricing.py:59-80 | one split grants what is left of the allowance and loses at most half a millionth |
| DockerMeter.ChargesAreSplits | backend/billing/docker_pricing.py:83-102 | what a settlement charges is the split of the time it settles, at the service's rate |
| DockerMeter.NoChargeIff | backend/billing/docker_meter.py:108-167 | exactly when a settlement charges nothing, and what a charge and a refusal say |
| DockerMeter.DockerBillingTracker.IncludedUsed | backend/billing/docker_meter.py:64-71 | reading the counter resets it in a new month |
| DockerMeter.DockerBillingTracker.AddIncludedUsed | backend/billing/docker_meter.py:73-81 | adds free hours, none when negative, to the month's counter and returns it |
| DockerMeter.DockerBillingTracker.AssignOwner | backend/billing/docker_meter.py:83-85 | records the owner of a service |
| DockerMeter.DockerBillingTracker.SettleFor | backend/billing/docker_meter.py:123-167 | one settlement for a known user; a refused debit comes after the uptime was marked as billed |
| DockerMeter.DockerBillingTracker.SettleService | backend/billing/docker_meter.py:108-181 | who pays, whether anyone is charged, the charge or its refusal, and the new tables |
| DockerMeter.DockerBillingTracker.OnStop | backend/billing/docker_meter.py:234-253 | for a priced service: the owner looked up and dropped, the final settlement, after which it starts from zero, or the refusal that leaves it |
| SanitizedIds.SidIsId | backend/company/archify_compile.py:60-67 | whatever the input, the result is a well-formed id of at most 72 characters |
| SanitizedIds.SidCases | backend/company/archify_compile.py:60-67 | the sanitized id in terms of the text without outer underscores |
| SanitizedIds.TrimIs | backend/company/archify_compile.py:62-63 | underscores are taken off both ends and nowhere else |
| SanitizedIds.CharsAre | backend/company/archify_compile.py:60-66 | which characters an id may hold and start with |
| SanitizedIds.SidFixesIff | backend/company/archify_compile.py:60-67 | exactly which ids sanitizing leaves alone |
| SanitizedIds.SidTwiceIff | backend/company/archify_compile.py:60-67 | sanitizing twice changes something iff the cut left an underscore at the end |
| SanitizedIds.CutLeavesUnderscore | backend/company/archify_compile.py:60-67 | which happens: 71 letters, an underscore and one more letter |
| GridLayout.CompileArchitecture | backend/company/archify_compile.py:199-252 | each node once, layer by layer, in its own cell inside the view box, no gaps, joined by a spanning tree of neighbours; the number of columns, the exact cells and the size of the view box |
| GridLayout.CellOfNode | backend/company/archify_compile.py:213-234 | the i-th node of a layer is in column i mod cols, i div cols rows below the first row of its layer |
| GridLayout.RowsAreCeiling | backend/company/archify_compile.py:234 | a layer takes its size over cols rows, rounded up |
| GridLayout.LayersAre | backend/company/archify_compile.py:203-207 | layers run from external to frontend, unknown roles among the services |
| GridLayout.BucketIs | backend/company/archify_compile.py:203-206 | a layer holds its nodes in the order given |
| GridLayout.ViewBoxInPixels | backend/company/archify_compile.py:210-212 | the view box holds every cell, in pixels |
| GridLayout.SpineSpans | backend/company/archify_compile.py:102-136 | the spine has one edge fewer than cells, reaches every cell, joins neighbours only |
| GridLayout.GridSpine | backend/company/archify_compile.py:102-136 | row links, then edges between first cells of successive rows |
| GridLayout.StairsAscend | backend/company/archify_compile.py:213-233 | later cells lie further on, so no cell is used twice |
| GridLayout.CellIsDivision | backend/company/archify_compile.py:227-228 | counting cells off is division with remainder by the number of columns |
| GridLayout.EachPlacedOnce | backend/company/archify_compile.py:203-207 | read layer by layer, which is the order cells are filled in, the nodes are the ones given, each as often |
| WorkflowLayout.CompileWorkflow | backend/company/archify_compile.py:255-309 | each node in one slot, six to a lane and in order, lanes declared; slots distinct exactly when overflow names are clear |
| WorkflowLayout.PlaceAll | backend/company/archify_compile.py:280-309 | the walk over a list it appends to ends, and does the above |
| WorkflowLayout.SlotsDistinctIff | backend/company/archify_compile.py:280-290 | for all input, no slot is shared iff no overflow name repeats or names a lane in use |
| WorkflowLayout.UnambiguousIsClear | backend/company/archify_compile.py:286 | lane ids that are short and not of the overflow form give distinct slots |
| WorkflowLayout.OverflowCollides | backend/company/archify_compile.py:284-290 | a lane that overflows beside one in use named like its overflow shares a slot |
| WorkflowLayout.EachNodeOnce | backend/company/archify_compile.py:273-309 | every node is placed exactly once and nothing else is |
| WorkflowLayout.PlacedByRank | backend/company/archify_compile.py:282-290 | a node's slot is its lane and its rank there, or the first column of an overflow lane |
| WorkflowLayout.LanesHold | backend/company/archify_compile.py:259-272 | lanes are distinct ids, at least one, and a node that names a lane gets it |
| WorkflowLayout.LanesAre | backend/company/archify_compile.py:259-283 | the lanes are those authored, first, and those of the nodes by lane, role or "signal"; a node without a lane goes to the first |
| WorkflowLayout.SixToALane | backend/company/archify_compile.py:282-290 | columns 0 to 5 and then a lane of its own |
| Proposals.RunKeeps | backend/company/horizon_loop.py:96-205 | over every run with fresh ids: the note exists iff the proposal approved last is still accepted, and is its text; nothing privileged is accepted |
| Proposals.WaitingIsAllowed | backend/company/horizon_loop.py:33-38 | a proposal that waits or is accepted is never on a frozen or unlisted surface |
| Proposals.TerminalStays | backend/company/horizon_loop.py:143-192 | stopped, rejected and rolled-back proposals stay as they are |
| Proposals.RollbackWithdraws | backend/company/horizon_loop.py:176-192 | the same of the state |
| Proposals.RolledBackIsGone | backend/company/horizon_loop.py:176-205 | over every run with fresh ids, once the proposal whose note is on disk is rolled back there is no note until the next approval |
| Proposals.DecisionIs | backend/company/horizon_loop.py:143-173 | what each answer does to a waiting proposal |
| Proposals.StripIs | backend/company/horizon_loop.py:205 | whitespace is taken off both ends and nowhere else |
| Proposals.StripTwice | backend/company/horizon_loop.py:205 | stripping the note again on reading changes nothing |
| Proposals.Directory.AttachProposal | backend/company/horizon_loop.py:96-140 | status and text of a new proposal |
| Proposals.Directory.DecideProposal | backend/company/horizon_loop.py:143-173 | approval, refusal and the privilege stop, in terms of the fields, and when the answer is yes |
| Proposals.Directory.RollbackProposal | backend/company/horizon_loop.py:176-192 | an accepted proposal is marked, its own note withdrawn, and nothing else is touched |
| Proposals.Directory.AcceptedNote | backend/company/horizon_loop.py:195-205 | the note as read, stripped, or nothing |
| LoginGate.FailuresAreLimited | backend/auth/gate.py:126-144 | for one identity's attempts: since the last success no 300-second window holds more than eight failures, and an attempt is refused iff the window ending at it holds eight |
| LoginGate.EveryIdentityIsLimited | backend/auth/gate.py:126-144 | the same over every run in which attempts of any number of identities are interleaved |
| LoginGate.RefusedIff | backend/auth/gate.py:130-135 | an attempt is refused iff the eighth failure from the end is less than 300 seconds old |
| LoginGate.SharedKeyIff | backend/auth/gate.py:126-127 | identities share a list only when they are the same or both unknown |
| LoginGate.StoredAlone | backend/auth/gate.py:123-144 | what the shared table stores for an identity is what its own attempts alone would have stored |
| LoginGate.PrunedAnswers | backend/auth/gate.py:130-135 | a pruned list answers as the full history would |
| LoginGate.Gate.TooManyFailures | backend/auth/gate.py:130-135 | prunes one identity's list and says whether it is full |
| LoginGate.Gate.RecordFailure | backend/auth/gate.py:138-140 | appends one failure |
| LoginGate.Gate.ClearFailures | backend/auth/gate.py:143-144 | forgets one identity |
| LoginGate.Gate.IssueLogin | backend/auth/gate.py:187-211 | refusal, failure or success of one attempt, and the whole table after it |

## Left out

- SQLite, transactions, locking and JSON: each method is one atomic step on maps and sequences; interleavings inside a method are not modelled.
- IEEE rounding: amounts are exact reals; only the explicit `round` calls round.
- The retry inside `spend_from_pools` sees the balance it just saw, since steps are atomic.
- The remaining amount of grants, the audit ledger of balances, and the legacy fault-pool table, which no balance reads.
- LockPlans.LastPaymentCovered: about one plan alone; the shared pool is in DriftLaws.
- LockPlans.OffGridLockStalls: about one plan alone; the shared pool is in DriftLaws.
- Rollover, decay, conversion of contribution credit, and restoring a forfeiture after an appeal: they credit or scale balances outside the conservation laws; rollover and decay can leave the grid.
- Marking a failover: it routes before the failed key is marked, so `FailedKeyNeverRouted` is stated for routing after the event.
- The dynamic lock threshold is a parameter of locking; the primary-key lookup for a new plan is the `key` parameter.
- Rate cards, model-name matching and vendor detection: the resulting multipliers are arbitrary.
- Summing a task's usage events: `FinalizeTask` takes the sum as its cost. Contributor rewards and recorded cache savings are not modelled.
- StoreLaws.RunConserves: assumes whole amounts from outside and one settlement per task; `DriftLaws.RunDrifts` is the law without these assumptions.
- Scheduler.PlanParallelExecution: requires acyclic dependencies, as the loop does not end otherwise (`CanStopIffAcyclic`).
- DecomposeCache.ResultCache.Decompose: calls are sequential; two concurrent misses of one key and aliasing of a returned result are not modelled.
- DockerMeter.DockerBillingTracker.SettleService: whether the debit is affordable is a parameter; its ledger entry, the start-up reserve, the scan of running containers and stopping those of users out of credit are left out. Costs are in dollars; their conversion to credits is not modelled.
- DockerMeter.ClosedForm: one month and one plan per user; a change of month resets the counter (`IncludedUsed`).
- Routing.ListSharedPoolKeys: whether a key shares the organisation is a flag of the key; binding a task to its keys and logging decisions are left out.
- GridLayout.CompileArchitecture: nodes carry their sanitized ids; labels, edge ids and the distinctness of edge ids are left out.
- WorkflowLayout.CompileWorkflow: labels and edges are left out, as are the dataflow, lifecycle and sequence diagrams.
- Proposals: proposal files are a map, one file per id; unreadable files and the metrics are left out. Whitespace is space, tab, newline and return.
- LoginGate: sessions and the comparison of credentials; whether an attempt matches an account is a parameter.

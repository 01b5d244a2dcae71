# Verified model of BetterTrade's trace, protocol and money logic

A Dafny model of the parts of the service in which hard properties live, with proofs of those
properties. `dafny verify dfyconfig.toml` checks the whole project.

- **Recall tracing** (`Sums` to `ComponentMeaning`). A lot genealogy, the cycle check, the two
  work-lists that push fractional mass along allocations, the reported scope, and the loader that
  restricts the graph to what is connected to the roots. The work-list is specified by the function
  `Run`, one queue item at a time; the methods of `RecallTrace` refine it, and the theorems are about
  `Run`: it solves a system of balance equations that has one solution, whatever the order of edges and
  seeds, and so does every other order of working off the queue (`RecallOrders`); where no clamp binds
  the solution is a sum over walks (`RecallWalks`), and `RecallClamps` says exactly when one binds. What a
  cut-off may lose is bounded in `RecallLosses`; depth and confidence are those of the walks when nothing is
  dropped (`RecallDepth`).
  Kilograms are reals and the cut-off is a parameter (`Worklists.CUT_OFF` is the shipped value).
- **Sign-in, reset and change** (`Sessions`, `ResetRequests`, `SessionWaits`) and **evidence uploads** (`Uploads`, `UploadLifecycle`,
  `UploadQuota`). Concurrent protocols over database rows. Each is a transition function on the whole
  database state with one action per statement or commit; a run is any sequence of actions, so every
  interleaving, roll-back and crash is covered. Row locks have PostgreSQL's conflict table, the key
  share lock that an insert takes on the referenced row included; rows are those committed. Hashes are
  version numbers, storage and scanner outcomes are choices of the action sequence.
- **Publication budget** (`Listings`), **exact money** (`Money`, `Payments`), **migration ledgers**
  (`Migrations`), and the **mail wire format** (`SmtpMessages`, `SmtpReplies`).

Where the code and what one would expect of it differ, the model follows the code and says when the
expectation holds: overlapping reset requests leave two live tokens (`ResetRequests.OverlappingRequests`,
and exactly when in `RequestLeavesOneToken`); a change can deadlock with a reset or a request, and two
requests with each other (exactly when in `SessionWaits.CirclesAreEntangled`); an over-allocation within
the warning's tolerance is still cut down (`RecallTrace.ToleranceHidesClamp`; without a cut-off, exactly
when in `RecallClamps.NothingCutIffWalksFit`, and never more with one); a suspect lot behind a suspect lot
keeps depth zero (`RecallDepth.SuspectBehindSuspect`, exactly when in `DepthsAreLongestIffApart`); and a
deposit plan in a currency with decimals may have an installment of nothing
(`Payments.ZeroInstallmentIsIssued`, exactly when in `WhenSplitsArePositive`).

## Model

| member | source | states |
|---|---|---|
| `TraceBudgets.TraceBudget.Step` | api/src/modules/trace/limits.ts:54-59 | books the work, and says exactly which limit is broken first: depth, then work, then time |
| `RecallChecks.Indexes` | api/src/services/recallTrace.ts:59-88 | answers with the look-up tables exactly for graphs within the size limits whose lots and edges are distinct, positive and closed; every refusal has its cause |
| `RecallChecks.AssertAcyclic` | api/src/services/recallTrace.ts:90-112 | when no limit stops it, reports CYCLE if and only if the genealogy has a directed cycle (self-loops and parallel edges included); otherwise gives every lot the length of its longest ancestry; a depth stop means an ancestry longer than the limit exists |
| `Acyclicity.ScanEdgeGood` | api/src/services/recallTrace.ts:101-109 | scanning one edge keeps the state of the check: counts of unplaced inputs, queue in an order that puts inputs first, and the true depth of every queued lot |
| `Acyclicity.DepthFromInputs` | api/src/services/recallTrace.ts:98-106 | one more than the deepest input is the length of the longest walk to a lot from a lot without inputs |
| `Acyclicity.IncompleteHasCycle` | api/src/services/recallTrace.ts:111 | if the queue runs dry before every lot is placed there is a directed cycle |
| `Acyclicity.CompleteIsAcyclic` | api/src/services/recallTrace.ts:97-111 | a queue that holds every lot ranks the genealogy, so there is no cycle |
| `Worklists.RequestedIsLinear` | api/src/services/recallTrace.ts:190-191 | up to the quantity of its lot, what an increment asks for along an edge is a fixed positive rate times the increment, in both directions |
| `WorklistInvariants.RunConsistent` | api/src/services/recallTrace.ts:183-203 | at every iteration the increments ever queued for a lot sum to its recorded amount, and their effective parts to that amount capped by the lot |
| `WorklistInvariants.RunInvariant` | api/src/services/recallTrace.ts:279-306 | at every iteration each lot holds, up to its quantity, its seeds plus what the processed part of the queue passes on; with a cut-off, at most that |
| `WorklistInvariants.FinishedIsUnique` | api/src/services/recallTrace.ts:183-203 | the work-list has only one final state |
| `RecallEquations.TraceSolves` | api/src/services/recallTrace.ts:252-306 | without a cut-off the final amounts solve x(d) = min(q(d), seeds(d) + sum over edges of rate times x), for both directions |
| `RecallEquations.SolutionIsUnique` | api/src/services/recallTrace.ts:252-306 | on an acyclic genealogy those equations have one solution |
| `RecallEquations.CutOffOnlyLoses` | api/src/services/recallTrace.ts:294 | with any cut-off the final amounts are pointwise at most that solution |
| `RecallLosses.CutOffLosesAtMost` | api/src/services/recallTrace.ts:187-203 | with any cut-off, what the final amount of a lot falls short of the solution is at least nothing and at most the sum, over all lots, of the increments dropped there times the sum over the walks from there of the products of rates |
| `RecallLosses.NothingDroppedIsExact` | api/src/services/recallTrace.ts:194 | if the cut-off dropped nothing the final amounts are the solution |
| `RecallEquations.TraceOrderIsIrrelevant` | api/src/services/recallTrace.ts:264-306 | permuting edges, or giving the seeds in another order or division, leaves the final amounts unchanged |
| `RecallOrders.AnyOrderSolves` | api/src/services/recallTrace.ts:279-306 | whatever unprocessed item is taken next, and in whatever order its edges, the final amounts solve the equations; with a cut-off they are supported by them |
| `RecallOrders.QueueOrderIsIrrelevant` | api/src/services/recallTrace.ts:279-306 | on an acyclic genealogy every such order ends with the amounts of the loop's first-in, first-out queue |
| `RecallOrders.FirstInFirstOut` | api/src/services/recallTrace.ts:279-306 | the loop is one such order |
| `RecallEquations.ForwardInflowOfWhole` | api/src/services/recallTrace.ts:288-291 | forward, the inputs of a derived lot passed on in full make exactly the lot |
| `RecallEquations.BackwardHasRoom` | api/src/services/recallTrace.ts:132-139 | back, a lot can take all that can be asked of it if and only if its allocated outputs do not exceed it |
| `RecallEquations.NeverClamped` | api/src/services/recallTrace.ts:293 | a lot with room that is not a seed is never cut down by the clamp, at any iteration |
| `RecallEquations.UnclampedIsLinear` | api/src/services/recallTrace.ts:187-195 | such a lot ends with exactly the linear sum of what its neighbours pass on |
| `RecallTrace.ToleranceHidesClamp` | api/src/services/recallTrace.ts:135 | the warning is weaker than the clamp: a graph without an over-allocation warning on which a trace back from one lot, run with the shipped cut-off, is cut down |
| `RecallClamps.CutNeedsOverflow` | api/src/services/recallTrace.ts:187-195 | with any cut-off, a lot that is no seed is cut down by the clamp only if the final amounts pass on more to it than it holds |
| `RecallClamps.CutIffOverflow` | api/src/services/recallTrace.ts:187-195 | without a cut-off, if and only if they do |
| `RecallClamps.WholeNeighboursCut` | api/src/services/recallTrace.ts:187-195 | traced from all its neighbours in full, a lot is cut down if and only if it has no room for all of them |
| `RecallClamps.SafeIffRoom` | api/src/services/recallTrace.ts:132-139 | a lot is never cut down in a trace of any number of seeds, with any cut-off, that starts elsewhere if and only if it has room; back, if and only if its allocated outputs do not exceed it, the condition of the warning without its tolerance (for traces back from a single lot see NoneCutIffAllWalksFit) |
| `RecallClamps.NothingCutIffWalksFit` | api/src/services/recallTrace.ts:168-203 | without a cut-off, a trace from one lot cuts nothing down if and only if, for every lot, the traced amount times the sum over the walks to it fits the lot |
| `RecallClamps.WalksFitCutsNothing` | api/src/services/recallTrace.ts:187-203 | with any cut-off nothing is cut down if the walks fit; only this direction survives a cut-off |
| `RecallClamps.CutOffCutsNoMore` | api/src/services/recallTrace.ts:193-194 | from any seeds, a cut-off never makes the clamp cut down a lot that it leaves alone without one |
| `RecallClamps.NoneCutIffAllWalksFit` | api/src/services/recallTrace.ts:168-203 | no trace from one lot, whatever the lot, the quantity and the cut-off, is cut down anywhere if and only if the whole of every lot times the sum over the walks to any other fits the other |
| `RecallReach.ScopeIsReached` | api/src/services/recallTrace.ts:295-304 | for any cut-off every lot in the result is the end of a walk from a seed as long as its recorded depth |
| `RecallReach.ScopeIsReachability` | api/src/services/recallTrace.ts:252-306 | without a cut-off the lots in the result are exactly those a seed reaches |
| `RecallDepth.DepthIsLongestWalk` | api/src/services/recallTrace.ts:299 | from any seeds and with any cut-off, if no increment is dropped, the recorded depth of every reported lot is the length of the longest walk to it from a seed |
| `RecallDepth.ConfidenceIsExact` | api/src/services/recallTrace.ts:300-303 | if no increment is dropped, a lot is marked estimated exactly when some walk to it starts at a partial seed or uses a proportional edge |
| `RecallDepth.WholeSeedKeepsDepthZero` | api/src/services/recallTrace.ts:286-299 | where a whole lot is a seed its depth stays zero, with any cut-off, also if another seed lies behind it and there are longer walks |
| `RecallDepth.ApartDropsNothing` | api/src/services/recallTrace.ts:187-203 | without a cut-off no increment is dropped if no seed lies behind another and every lot has room |
| `RecallDepth.DepthsAreLongestIffApart` | api/src/services/recallTrace.ts:286-299 | whole lots traced through lots with room, without a cut-off: all recorded depths are the lengths of the longest walks if and only if no seed lies behind another |
| `RecallDepth.ForwardFromOneLot` | api/src/services/recallTrace.ts:279-303 | forward from one lot of an acyclic genealogy, without a cut-off, depth and confidence are those of the walks, on no further condition |
| `RecallDepth.BackFromOneLot` | api/src/services/recallTrace.ts:183-203 | back from one lot they are if no lot is allocated beyond what it holds |
| `RecallDepth.SuspectBehindSuspect` | api/src/services/recallTrace.ts:286-299 | a request of two whole lots, one made into the other, on which the second keeps depth zero with every cut-off although it lies one edge behind the first |
| `RecallTermination.CutOffTerminates` | api/src/services/recallTrace.ts:183-203 | with a positive cut-off the work-list ends on every graph, cyclic or not, within room divided by cut-off items |
| `RecallTermination.AcyclicTerminates` | api/src/services/recallTrace.ts:264-306 | on an acyclic genealogy it ends with any cut-off, zero included |
| `RecallTermination.QueueIsBounded` | api/src/services/recallTrace.ts:194 | queue length times cut-off is at most the initial room plus what the start holds |
| `RecallDuality.Reciprocity` | api/src/services/recallTrace.ts:279-306 | on a mass-balanced genealogy forward supply weighted by a backward solution equals backward demand weighted by the forward solution |
| `RecallDuality.ForwardIsBackward` | api/src/services/recallTrace.ts:183-203 | the forward equivalent at t from all of s is the back-traced requirement on s from all of t |
| `RecallWalks.ForwardIsWalkSum` | api/src/services/recallTrace.ts:279-306 | on every acyclic genealogy the forward equivalent at t from all of s is the quantity of s times the sum, over all walks from s to t, of the products of the rates along the walk |
| `RecallWalks.AmountIsWalkSum` | api/src/services/recallTrace.ts:183-203 | the same in either direction, if every lot has room |
| `RecallWalks.BothAreOneWalkSum` | api/src/services/recallTrace.ts:279-306 | on a mass-balanced genealogy forward and back are one and the same sum over walks |
| `RecallWalks.WalksAreListed` | api/src/services/recallTrace.ts:90-112 | an acyclic genealogy has a list of all walks between two lots, each once |
| `RecallStarts.BackStartProper` | api/src/services/recallTrace.ts:173-181 | the back trace starts from exactly its one seed, which may exceed its lot by the tolerance |
| `RecallStarts.AddSeedsProper` | api/src/services/recallTrace.ts:264-277 | the forward trace starts from the seeds added up per lot and capped at the lot |
| `RecallStarts.RunWithinLots` | api/src/services/recallTrace.ts:293-295 | a forward trace never records more than a lot holds |
| `RecallTrace.ItemIsShallow` | api/src/services/recallTrace.ts:185 | on a graph that passed the cycle check no work-list item is deeper than the limit, in either direction |
| `RecallTrace.GraphWarnings` | api/src/services/recallTrace.ts:125-166 | flags exactly the lots whose outputs, or distributions, exceed them by more than the tolerance; refuses exactly invalid distributions |
| `RecallTrace.PushBack` | api/src/services/recallTrace.ts:184-202 | one item of the back loop does what the specification's step does |
| `RecallTrace.PushForward` | api/src/services/recallTrace.ts:280-305 | one item of the forward loop does what the specification's step does, with the precomputed totals |
| `RecallTrace.CalculateTraceBack` | api/src/services/recallTrace.ts:168-243 | returns the final state of the specified work-list, the traced lots without inputs, confidence and all warnings; every refusal has its cause, in the graph, the request or the budget |
| `RecallTrace.CalculateTraceForward` | api/src/services/recallTrace.ts:245-394 | returns the final state of the specified work-list from all seeds, leaf lots, deliveries, recipients and all warnings; every refusal has its cause, in the graph, the request or the budget |
| `RecallTrace.ForwardResult` | api/src/services/recallTrace.ts:245-306 | the amounts a forward trace returns without a cut-off are the unique solution, on exactly the reached lots |
| `RecallTrace.ForwardResultWithCutOff` | api/src/services/recallTrace.ts:245-306 | with a cut-off they are at most the solution and every reported lot is reached |
| `RecallTrace.BackResult` | api/src/services/recallTrace.ts:168-203 | the amounts a trace back returns without a cut-off, capped at the lot, are the unique solution, on exactly the lots it reaches |
| `RecallScope.LeavesAreApart` | api/src/services/recallTrace.ts:325-328 | no leaf leads to another through impacted lots |
| `RecallScope.EveryLotEndsInALeaf` | api/src/services/recallTrace.ts:325-328 | every impacted lot reaches a leaf through impacted lots, so there is a leaf |
| `RecallScope.ExactLeavesAreTerminal` | api/src/services/recallTrace.ts:325-328 | without a cut-off the leaves are the impacted lots without outputs |
| `RecallScope.Recipients` | api/src/services/recallTrace.ts:332-347 | one line per organization that took an impacted delivery, in order of first delivery, with the grams and count of its deliveries |
| `RecallScope.RecipientsAddUp` | api/src/services/recallTrace.ts:348-371 | recipient quantities and counts add up exactly to the distributed total and the number of deliveries |
| `RecallScope.RoundIsNearest` | api/src/services/recallTrace.ts:57 | display rounding is to the nearest gram, halves up |
| `RecallScope.RoundKeepsGrams` | api/src/services/recallTrace.ts:348-351 | rounding an amount of whole grams again changes nothing |
| `ComponentLoader.FindComponent` | api/src/services/traceGraphRepository.ts:105-136 | the known lots are the least set that contains the roots and has no edge across its border; a lot or edge limit means that every such set is too large, a depth limit that a lot lies further from the roots than a trace may be deep, work and time limits that the budget is broken |
| `ComponentLoader.LoadTraceGraph` | api/src/services/traceGraphRepository.ts:82-224 | returns, in stored order, the whole graph or the part connected to the roots, within the limits; every refusal has its cause in the sizes or the budget |
| `ComponentMeaning.RestrictedIsValid` | api/src/services/traceGraphRepository.ts:156-165 | the connected part of a valid graph is valid and has both ends of every edge |
| `ComponentMeaning.RestrictedIsAcyclic` | api/src/services/traceGraphRepository.ts:156-165 | the connected part of an acyclic graph is acyclic |
| `ComponentMeaning.ForwardTraceOnComponent` | api/src/services/traceGraphRepository.ts:104-136 | tracing the seeds on their component gives, step by step and for any cut-off, the state of tracing on the whole graph, the same leaves and deliveries |
| `ComponentMeaning.BackTraceOnComponent` | api/src/services/traceGraphRepository.ts:104-136 | the same for a trace back |
| `Sessions.LiveSessionsAreCurrent` | api/src/services/authSessionService.ts:62-96 | in every interleaving a session that is not revoked was issued under the present password, or made the latest change of it |
| `Sessions.TokensAreRedeemedOnce` | api/src/services/passwordLifecycleService.ts:70-87 | in every interleaving a reset token is redeemed at most once and stays used |
| `Sessions.PasswordWriteEndsOthers` | api/src/services/passwordLifecycleService.ts:83-97 | a reset leaves no live session; a change leaves at most the session that made it and no unused reset token; no other password changes |
| `Sessions.SignInMatchesPassword` | api/src/services/authSessionService.ts:66-77 | a sign-in that commits was checked against the password in force when it commits |
| `Sessions.StepInvariant` | api/src/services/authSessionService.ts:53-97 | every statement of every transaction, commit, rollback and log-out keeps the locks exclusive and what their holders rely on |
| `Sessions.UndisturbedReset` | api/src/services/passwordLifecycleService.ts:66-97 | a reset that meets no other transaction succeeds |
| `ResetRequests.RequestLeavesOneToken` | api/src/services/passwordLifecycleService.ts:42-51 | over every run from the statement of a request to its commit: the user is left with the new token and those that other requests committed in between and that are still unused, so with one token if and only if there are none of those |
| `ResetRequests.OnlyRequestsAddTokens` | api/src/services/passwordLifecycleService.ts:46-51 | only the commit of a request adds a token |
| `ResetRequests.OverlappingRequests` | api/src/services/passwordLifecycleService.ts:42-56 | two overlapping requests leave two unused tokens |
| `SessionWaits.CirclesAreEntangled` | api/src/services/passwordLifecycleService.ts:42-51 | in every reachable state transactions wait for each other in a circle if and only if two are entangled: a change with a reset that holds a token it must mark, a change with a request that has marked one, or two requests that have each marked a token of the other |
| `SessionWaits.StalledIffBlocked` | api/src/services/passwordLifecycleService.ts:70-85 | in every reachable state, for every kind of transaction: it can do nothing but roll back if and only if another one holds the lock of its next statement |
| `SessionWaits.SomeoneGoesOn` | api/src/services/passwordLifecycleService.ts:113-137 | in every reachable state with open transactions and no entangled pair one of them can take a step |
| `SessionWaits.EntangledForGood` | api/src/services/passwordLifecycleService.ts:70-97 | over every run, neither of an entangled pair commits until one of them is rolled back |
| `SessionWaits.ResetMeetsChange` | api/src/services/passwordLifecycleService.ts:70-85 | a reset and a change that wait for each other are reachable |
| `SessionWaits.RequestMeetsChange` | api/src/services/passwordLifecycleService.ts:42-51 | so are a request and a change |
| `SessionWaits.RequestsCross` | api/src/services/passwordLifecycleService.ts:42-46 | and two requests |
| `SessionWaits.StepOrderly` | api/src/services/passwordLifecycleService.ts:42-46 | every step keeps locked tokens unused, pending and locked tokens apart, and what one request saw inside what a later one saw |
| `UploadLifecycle.OneItemPerUpload` | api/src/services/evidenceUploadService.ts:433-477 | in every interleaving an upload yields at most one evidence item, and one if and only if it is completed |
| `UploadLifecycle.SettledUploadsStay` | api/src/services/evidenceUploadService.ts:301-335 | completed, rejected, expired, infected and failed uploads never change again; none becomes pending again; completion is entered only from scanning with a clean scan |
| `UploadLifecycle.CompletionIsAtomic` | api/src/services/evidenceUploadService.ts:459-477 | the step that completes an upload adds its item, of the declared size, and retains its object in the same commit |
| `UploadLifecycle.ClaimedUploadIsExclusive` | api/src/services/evidenceUploadService.ts:257-261 | at most one call owns an upload; a claimed upload is moved only by that call or by the sweeper: no replay, rejection or expiry of another call touches it |
| `UploadLifecycle.StepTables` | api/src/modules/evidenceCleanup/worker.ts:72-140 | every step, the sweeper's and the worker's included, keeps rows, their owners and sizes, and one item per object key |
| `UploadQuota.StepTakes` | api/src/services/evidenceUploadService.ts:403-427 | no step raises the bytes reserved for an organization by more than its call had checked under the quota lock |
| `UploadQuota.CompletionShrinks` | api/src/modules/evidenceCleanup/repository.ts:162-184 | the completing commit, which takes no quota lock, never raises the reserved bytes |
| `UploadQuota.QuotaIsNeverExceeded` | api/src/services/evidenceUploadService.ts:134-166 | in every interleaving every organization stays within its quota |
| `UploadQuota.UndisturbedUpload` | api/src/services/evidenceUploadService.ts:279-485 | a clean upload that fits the quota and meets no other call is completed |
| `Listings.Holding.Reconcile` | api/src/services/inventoryIntegrity.ts:15-31 | leaves the listings of the closed form and rejects exactly the offers that no longer fit |
| `Listings.ShareIsWhatIsLeft` | api/src/services/inventoryIntegrity.ts:24 | the closed form gives a listing its own quantity or what earlier listings left, whichever is less |
| `Listings.RunningTotalIsCapped` | api/src/services/inventoryIntegrity.ts:19-26 | at every point of the list the published total is the old one capped by the budget |
| `Listings.BudgetIsUsedInOrder` | api/src/services/inventoryIntegrity.ts:14-26 | published grams never exceed free stock; a listing is cut only when the budget is used up, and then nothing later is published |
| `Listings.OthersAreUntouched` | api/src/migrations/020_trade_integrity_constraints.ts:7 | expired and inactive listings are unchanged, and the check constraint on listings is kept |
| `Listings.SurvivingOffersFit` | api/src/services/inventoryIntegrity.ts:28-29 | a pending offer survives if and only if its listing has expired or still publishes at least as much |
| `Listings.ReconcilingTwice` | api/src/services/inventoryIntegrity.ts:14-26 | reconciling to one budget and then another is reconciling to the smaller; twice is once |
| `Listings.ScreeningTwice` | api/src/services/inventoryIntegrity.ts:28-29 | rejecting offers a second time changes nothing |
| `Money.AcceptedIffRepresentable` | api/src/services/tradeMoney.ts:31-39 | a plain decimal is accepted exactly when it writes a whole number of units |
| `Money.UnitsAreExact` | api/src/services/tradeMoney.ts:31-39 | the units of an accepted text are exactly its rational value times the scale |
| `Money.SameUnitsSameNumber` | api/src/services/tradeMoney.ts:31-39 | two accepted texts have the same units exactly when they write the same number |
| `Money.PrintParse` | api/src/services/tradeMoney.ts:40-43 | what is printed reads back as the same units, for every amount and scale |
| `Money.RoundIsNearest` | api/src/services/tradeMoney.ts:45-48 | half-up rounding is the one integer within half a denominator, ties above |
| `Money.TotalIsRoundedProduct` | api/src/services/tradeMoney.ts:49-58 | a total is printed exactly when it is the rounded product of quantity and price, positive and within twelve digits and two places |
| `Money.SplitIsExact` | api/src/services/tradeMoney.ts:59-74 | total, deposit and balance read back as amounts that add up exactly; the deposit is the half-up nearest minor unit and within the total |
| `Payments.InstallmentsAddUp` | api/src/services/paymentProtection.ts:14-28 | for every accepted plan the installments add up exactly to the total |
| `Payments.InstallmentsAreNumbered` | api/src/services/paymentProtection.ts:20-27 | installments are numbered from one, and exactly those due at the agreement are due at once |
| `Payments.DueAtTermsIsRequired` | api/src/services/paymentProtection.ts:30-34 | what falls due at the agreement is what dispatch requires |
| `Payments.DispatchIffCovered` | api/src/services/paymentProtection.ts:36-41 | dispatch is allowed exactly when terms are agreed, a needed security is verified, and confirmed money covers what was due at the agreement |
| `Payments.WhenSplitsArePositive` | api/src/services/paymentProtection.ts:17-23 | exactly when both installments of a deposit plan are positive; only whole-unit currencies refuse the others |
| `Payments.ZeroInstallmentIsIssued` | api/src/services/paymentProtection.ts:17-23 | a fifth of a cent: the plan is accepted with a first installment of nothing |
| `Migrations.PlanExists` | api/src/database/migrationBaseline.ts:25-55 | a file set has a plan exactly when it has no duplicates, holds the baseline and only appends to it; the plan lists every other file once, sorted |
| `Migrations.BaselineIsDistinct` | api/src/database/migrationBaseline.ts:4-16 | the shipped baseline names are distinct |
| `Migrations.ValidateExistingMigrationHistory` | api/src/database/migrationBootstrap.ts:18-38 | accepts exactly the duplicate-free histories that are the baseline and a prefix of the sorted forward list; each refusal has its cause |
| `Migrations.AcceptsIsDownClosed` | api/src/database/migrationBootstrap.ts:31-37 | acceptance said without counting: no forward migration is applied before one that sorts earlier |
| `Migrations.AcceptanceIsStable` | api/src/database/migrationBootstrap.ts:18-38 | an accepted history stays accepted under more files exactly when every new file sorts after every applied forward migration |
| `Migrations.Database.RunSafeMigrations` | api/src/database/migrationBootstrap.ts:81-107 | a start appends exactly the pending files, bootstraps an empty schema, or leaves the ledger as it was |
| `Migrations.StartLeavesThePlan` | api/src/database/migrationBootstrap.ts:98-106 | a start that changes a ledger, whatever accepted history it found and in whatever order, leaves the baseline and every forward file in it, each once, after all it named before; an ordered or missing one becomes the plan itself |
| `Migrations.LedgerStaysOrdered` | api/src/database/migrationBootstrap.ts:89-107 | after any number of serialized starts with any files and failures, from any ledger or none: nothing named is removed or moved, each migration stays recorded once, the baseline followed by later migrations in order stays that, and a ledger with duplicates is never touched |
| `Migrations.StartIsIdempotent` | api/src/database/migrationBootstrap.ts:81-107 | starting again with the same files changes nothing |
| `SmtpMessages.NormaliseMeaning` | api/src/services/emailSender.ts:57 | normalising leaves only CRLF line ends and changes nothing exactly when there are no others |
| `SmtpMessages.BuiltMessageArrives` | api/src/services/emailSender.ts:60-95 | for every message that is built, the receiver gets the whole of it with line ends normalised and leading dots restored, what follows the terminator is untouched, and there is no earlier CRLF.CRLF |
| `SmtpMessages.FirstTerminatorIsTheEnd` | api/src/services/emailSender.ts:241 | the first CRLF.CRLF in the transmitted data is the one the sender appended |
| `SmtpMessages.AddressHasNoBreak` | api/src/services/emailAddress.ts:3-10 | an accepted address has no line break |
| `SmtpMessages.DotInsideDomain` | api/src/services/emailAddress.ts:7-9 | the domain test says that the last dot lies strictly inside the domain |
| `SmtpMessages.MessageIdHasNoBreak` | api/src/services/emailSender.ts:209 | a message identifier made from a safe sender address cannot break its header |
| `SmtpReplies.Connection.ProcessBuffer` | api/src/services/emailSender.ts:150-167 | consumes complete lines up to the end of the reply and leaves the rest in the buffer |
| `SmtpReplies.Connection.ReadResponse` | api/src/services/emailSender.ts:139-177 | for every division of the stream gives the code and lines, or the refusal, of the undivided stream, as soon as they are settled; the buffer is what of the pieces that arrived was not consumed |
| `SmtpReplies.ParseInPieces` | api/src/services/emailSender.ts:151-168 | parsing in two pieces is parsing the whole |
| `SmtpReplies.PrintedReads` | api/src/services/emailSender.ts:155-164 | a well-formed reply with any mix of line ends reads as its code and lines, whatever follows |
| `SmtpReplies.CompleteIsPrinted` | api/src/services/emailSender.ts:155-164 | whatever is read as complete is such a reply followed by what is left |

## Left out

- Row order on display: traced and impacted lots, leaves and source lots are sets here; sorting by depth and lot code is not modelled.
- Percentages of a lot, the texts of warnings and assumptions, and the names and codes copied into results.
- IEEE rounding: kilograms are reals and displayed quantities are rounded exactly; the added epsilon before rounding is not modelled.
- Wall clocks: a budget takes its readings from an arbitrary function, and statement and lock timeouts are roll-backs.
- The neighbour query of the loader returns its rows in stored order rather than by edge id; only the set they form matters to the result.
- Sessions and uploads are values with transition functions, not mutable objects: a transaction's writes are held in its own entry until it commits.
- The order in which a statement visits token rows is open: a transaction that still has rows to mark goes on with any that is free, and is stuck only when another holds each of them. Who waits for whom does not depend on that order.
- RecallDepth.DepthsAreLongestIffApart: the equivalence is for whole seeds, lots with room and no cut-off; with partial seeds or lots without room it depends on the order in which seeds and edges use up the room of a lot, and `DepthIsLongestWalk` has the condition that nothing is dropped.
- SessionWaits.CirclesAreEntangled: locks on session rows are not modelled; two updates of several session rows of one user in opposite orders (revokeUserSessions, which is exported and has no caller, against a reset or a change) would be a further circle of waits.
- Account suspension, organization locks, token and session expiry, and multi-factor state: refusals that remove behaviour, covered as actions that do not happen.
- The separate statement that marks a redeemed token used is part of the commit of the reset, which holds the lock on that token.
- The sweeper handles one upload at a time; the batch it handles in one statement is a sequence of such steps.
- Lease tokens, attempts and delays of the clean-up worker: any move its states allow may happen at any time.
- Knex is assumed to apply pending files in order inside the transaction; reading migration files and the schema bootstrap itself are not modelled.
- File names are compared character by character; characters beyond the basic plane, where UTF-16 order differs, do not occur.
- JavaScript numbers carry printed amounts in the payment plans; below the accepted maximum they print as the same digits, so amounts are whole minor units here.
- Base64 of subjects and HTML parts is an arbitrary text over its alphabet; branding, the date and fresh identifiers are parameters without line breaks.
- Decoding of UTF-8 happens before the reply parser: pieces are pieces of decoded text.
- Fee collection, trade settlement, next actions, the readiness advisor, load reports, controllers and pages: plumbing or single guards that would add only easy members.

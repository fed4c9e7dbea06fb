# Verified model of the audiobook studio's core

A Dafny model of the parts of the application whose correctness is hardest to see from one function: budget
reservation and settlement, the pricing arithmetic under it, the streaming pull loop of the model library, the
diagnostics ring with its rotating log, the idempotency middleware, and several smaller components with a sharp
specification. `dafny verify dfyconfig.toml` checks all of it.

How it is built. Code that changes state in place is a class with the source's fields or a method with the source's
loops, and each method's contract equates the whole new state with a specification function or states the promised
property outright. Whole-run theorems are then proved about those functions: a run is a sequence of steps, and a
theorem speaks about every run.

- **Budgets.** `Accounting` states the rules (what is reserved, when a dispatch is covered, what a settlement
  charges) over exact, unbounded sums. `BudgetService` is the service and its repository as it runs, loop by loop,
  with saturating 64-bit sums. `BudgetRuns` makes the rules into a step system of many jobs, retries and clock
  ticks. `Settlement` proves exactly-once charging in every run, and which rows are charged. `BudgetSafety` proves
  budget by budget that usage stays within reservations and hard limits hold. What a job owes a budget is little: no
  override in its cycles, one request at a time, recorded usage within its projection, and no retry under a request
  in flight for which the new cycle has no room. That alone keeps the job's own cycles and per-job limits, whatever
  other jobs do. For a lifetime limit all jobs owe it, and no cycle is opened on that budget while an expired
  reservation still waits to be charged to it. A job may be settled while its last row is still to come, and
  reservations may expire. `BudgetUsage` goes down to the ledger: if no job is settled or retried under a request in
  flight, all recorded usage is within the limit. `AdmissionSufficiency` proves that admitted work is never refused
  later. `BudgetLimits` has the conditions under which the service's checks are exact, and concrete runs in which it
  overspends or charges too little without them. `Amounts` says what each budget counts without naming the rules
  that count it, `DollarRuns` follows one budget in dollars, and `SettlementOutcomes` says on the steps of a run which
  cycles a settlement releases. `JobLifecycle` is the job record with its time stamps.
- **Pricing, RateCards.** Rounding up, 64- and 128-bit range, the price of any request in closed form with the exact
  condition under which it is the intended one, and the validation that keeps negative rates out.
- **OllamaPull, PullChunking, PercentEncoding.** A chunked line decoder against one split of the whole stream, when
  the chunking matters to it, and an encoder against its decoder.
- **RotatingLog, Sanitizer, SanitizerForms, Diagnostics, DiagnosticsReload, DiagnosticsQueries.** Ring, log files,
  reload and query against one append-only history, what the sanitizer lets through, what a query selects, and when a
  record survives a restart exactly.
- **Idempotency, IdempotencyAnswers, SecretRoutes.** Requests as processes with program counters over a shared store
  with an atomic claim, which answers are kept and replayed, and the routes that bypass the store.
- **CachePrune, PcmPlayer, ChapterText, ArchiveInspection, FfMetadata, DependencyClosure, LoginLimiter.** Each
  against a simple reference.
- **Bounded, Wrappers, Text, Sequences, Splitting, LedgerLemmas.** Machine integers, results, characters, and facts
  about sequences and sums that the other modules share.

Where the code does less than one would expect of it, the model keeps the code, gives an input or run on which the
expected property fails, and proves exactly when it holds:

- A reservation that expires frees its capacity while its usage is still to be charged, so a hard limit can be
  overspent (`BudgetLimits.ExpiryCanOverspend`). The capacity check is exact if and only if nothing expired is left
  to be charged (`BudgetLimits.AdmissionIsExactIff`).
- A ledger row that arrives after a retry counts in the new cycle and can overrun it
  (`BudgetLimits.LateUsageCanOverrun`, exactly when: `BudgetLimits.RetryCoversIff`).
- A ledger row that arrives after its cycle was settled is charged to nobody, so twice a hard limit can be recorded
  and half of it charged (`BudgetLimits.LateRowIsNeverCharged`). A row is charged if and only if its job's cycle is
  open when it is recorded (`Settlement.RowIsChargedIff`).
- The dispatch check adds with saturation, so it is exact for every reservation but one of the largest i64
  (`BudgetLimits.CheckIsExactIff`).
- The fallback to another rate also catches overflow, so a price can be less than it should be, and more tokens can
  cost less (`Pricing.OverflowMakesMoreTokensCheaper`, `Pricing.OverflowMakesMoreInputCheaper`; exactly when:
  `Pricing.PriceIsExactIff`, `Pricing.ReasoningIsMonotoneIff`, `Pricing.InputIsMonotoneIff`).
- The pull refuses an incomplete line that is too long before it can see that it is blank, so the same stream can
  succeed or fail with its chunking (`PullChunking.BlanksMatter`; exactly when: `PullChunking.ChunkingMattersIff`).
- The inventory is independent of set iteration order only if packages that share a reference agree
  (`DependencyClosure.OrderIsIrrelevantIffReferencesAgree`).
- A transition from failed back to queued keeps the finish stamp, so a retry has to clear it itself
  (`JobLifecycle.RequeueAgreesIffCleared`).
- A handler that outlives its idempotency claim can share its key with the next request
  (`Idempotency.ExpiryAdmitsASecondHandler`; exactly when: `Idempotency.SecondHolderIff`,
  `Idempotency.OneHolderIffTimely`, `Idempotency.ClaimIsSafeIff`).

## Model

| member | source | states |
|---|---|---|
| BudgetService.BudgetAmount | crates/service/src/accounting.rs:505-510 | whether any estimate applies to a budget, and the saturating fold of the applicable ones: the exact sum of their non-negative parts capped once at the largest i64, or unknown when one of them is |
| BudgetService.SumUsage | crates/service/src/accounting.rs:446-460 | the per-budget fold over ledger rows: the capped exact sum of the known rows that apply, and whether some applicable row is unknown |
| BudgetService.Service.ListUsage | crates/storage/src/repositories/usage.rs:89-131 | the job's ledger rows after a boundary, newest first, nothing else and none missing |
| BudgetService.Service.PrepareReservation | crates/service/src/accounting.rs:190-246 | refuses exactly when an enabled hard budget that an estimate touches cannot be estimated and overrides are off; otherwise allocates exactly the enabled touched budgets, each with its capped sum, zero when unknown |
| BudgetService.Service.CheckCapacity | crates/storage/src/repositories/budgets.rs:329-424 | a reservation is accepted exactly when it has allocations, none negative, each fits what is left of its enabled budget, and the job holds no active reservation; overrides skip only the capacity test |
| BudgetService.Service.ReserveForEstimates | crates/service/src/accounting.rs:157-184 | admission is all or nothing: the new state is the one with every allocation reserved and the job queued, or the old state |
| BudgetService.Service.VerifyDispatch | crates/service/src/accounting.rs:250-337 | a dispatch passes exactly when every enabled hard budget that applies is covered by the job's active reservation with room for the projection; every refusal is true of the state: some budget guards the request and the job has no, an unknown or a closed reservation, or the error names the first budget not covered and why |
| BudgetService.Service.CheckBudget | crates/service/src/accounting.rs:301-335 | one budget's check: passes exactly when it is allocated, the projection and all earlier rows are known, and their saturating sum is within the reservation |
| BudgetService.Service.ListGuards | crates/service/src/accounting.rs:265-274 | the guarding budgets are exactly the enabled hard ones that apply to the request's provider, in listing order |
| BudgetService.Service.FinalizeLocked | crates/service/src/accounting.rs:363-473 | settling leaves the whole state as the settlement rule says: untouched unless the job is terminal with an open reservation; reconciled when it has rows; retained when a success has no row; released otherwise |
| BudgetService.Service.ComputeActuals | crates/service/src/accounting.rs:439-466 | the charge of every allocation whose budget still exists: known usage, raised to the reservation when any row is unknown |
| BudgetService.Service.ApplyActuals | crates/storage/src/repositories/budgets.rs:196-284 | reconciling adds each charge to its lifetime budget with saturation, leaves every other budget alone, stores the charges, and closes the reservation, in one step |
| BudgetService.Service.AdmitRetry | crates/service/src/conversion/job_state.rs:366-430 | a retry of a job that is not failed changes nothing; else it settles the old cycle first, is refused unless that cycle is closed, and then either opens a whole new cycle and queues the job or changes nothing more |
| BudgetRuns.StepKeepsWellFormed | crates/core/src/jobs.rs:99-171 | every step of every job keeps the bookkeeping: reservations belong to known jobs, an open one is its job's current one, boundaries lie inside the ledger, and the cycles of one job never overlap |
| BudgetRuns.RunsAreWellFormed | crates/storage/src/repositories/jobs.rs:228-300 | the same for every reachable state of every run, overrides, expiry and retries included |
| BudgetRuns.ExpiryIsExact | crates/storage/src/repositories/budgets.rs:727-739 | an active reservation expires exactly when it is 604 800 seconds old |
| BudgetSafety.StepKeepsJob | crates/service/src/accounting.rs:250-337 | towards one hard budget, a careful step of a job and any step of other jobs keep what the job has: recorded usage of its open cycle within the reservation, charges within reservations, and room in the open cycle for its request in flight |
| BudgetSafety.CarefulJobsAreKept | crates/service/src/accounting.rs:188-246 | the same in every state that is reached while that one job is careful towards that one budget, whatever other jobs do and whatever expires |
| BudgetSafety.StepKeepsLimit | crates/storage/src/repositories/budgets.rs:329-424 | every disciplined step keeps a lifetime budget: what it started with, was charged and may still be charged is within the limit, or nothing was added to what it started with |
| BudgetSafety.HardLimitIsNeverOverspent | crates/core/src/accounting.rs:165-172 | in every run disciplined towards this one budget, expiry and settlement under a request in flight included, used plus actively reserved plus still chargeable to expired reservations is at most the limit, or what had been used at the start; and the used column is exact, never capped |
| BudgetSafety.HardJobLimitIsNeverOverspent | crates/storage/src/repositories/budgets.rs:368-387 | a job that is careful towards a hard per-job budget has not been and may not be charged more than its limit (nothing, if that is negative), over all its retry cycles together, whatever other jobs do and whatever expires |
| BudgetSafety.ConsumedWithinAllocation | crates/service/src/accounting.rs:301-335 | the exact usage of every cycle of a careful job, open or settled, is within what was reserved, for reservations below the largest i64; other jobs, other budgets, expiry and starting amounts do not matter |
| BudgetSafety.ChargedWithinAllocation | crates/service/src/accounting.rs:439-466 | a settled cycle of a careful job was charged no more than it had reserved, whatever of its usage is known |
| BudgetSafety.UnexpiredRunsAreDisciplined | crates/storage/src/repositories/budgets.rs:727-739 | in a run of careful jobs in which no reservation expires the condition on opening cycles holds of itself |
| BudgetUsage.RecordedUsageIsWithinLimit | crates/core/src/accounting.rs:165-172 | down to the ledger: if also no job is settled or retried under a request in flight, then what a hard lifetime budget started with and all usage that jobs ever record against it are within its limit, however much of it was charged so far |
| BudgetUsage.RunsStayInCycles | crates/service/src/accounting.rs:385-405 | in such runs every unit of usage lies in a row of some cycle that holds an allocation for the budget, and every request in flight is carried by an open cycle |
| BudgetLimits.CheckIsExactIff | crates/service/src/accounting.rs:329-333 | the saturating comparison at dispatch implies the exact one for every reservation but the largest i64, and for that one it does not |
| BudgetLimits.LargestReservationCanBeExceeded | crates/service/src/accounting.rs:329-333 | a concrete disciplined run in which a reservation of the largest i64 is overrun |
| BudgetLimits.CapacityIsExact | crates/storage/src/repositories/budgets.rs:367-393 | in every reachable state saturation never decides an admission: an amount fits a hard budget if and only if it is within the limit with all that is used and actively reserved, of everyone or of the job |
| BudgetLimits.AdmissionIsExactIff | crates/storage/src/repositories/budgets.rs:367-393 | what the capacity check of a hard lifetime budget admits fits beside all that is still chargeable, for every amount, if and only if no expired reservation waits to be charged to it |
| BudgetLimits.ExpiryCanOverspend | crates/storage/src/repositories/budgets.rs:727-739 | a concrete run in which a reservation expires unsettled, a second job is admitted over it, and twice a hard limit is spent although every check passes |
| BudgetLimits.RetryCoversIff | crates/service/src/conversion/job_state.rs:393-430 | a retry leaves room for a request still in flight if and only if what it reserves anew of that budget is enough for it, or it reserves nothing of it |
| BudgetLimits.LateUsageCanOverrun | crates/service/src/conversion/job_state.rs:393-430 | a concrete run in which a row that arrives after a retry overruns the new, smaller cycle |
| BudgetLimits.LateRowIsNeverCharged | crates/service/src/accounting.rs:363-405 | a concrete disciplined run in which a row arrives after its job was settled: twice a hard limit is recorded, every job is settled, and half of it was charged |
| BudgetRuns.RetryKeepsWellFormed | crates/storage/src/repositories/jobs.rs:258-280 | a retry never starts over a cycle that still has to be settled |
| Settlement.RunsStayBalanced | crates/service/src/accounting.rs:439-471 | in every run, with no discipline assumed, each used column equals its start plus the charges of the reconciled reservations, and each charge comes from that reservation's own rows |
| Settlement.ReconciledChargeIsSufficient | crates/service/src/accounting.rs:453-465 | a reconciled charge is at least the known usage, at least the reservation when some usage is unknown, and exactly the known usage otherwise |
| Settlement.NoRowIsCountedTwice | crates/service/src/accounting.rs:385-405 | no ledger row is part of two reconciliations, over any number of retry cycles |
| Settlement.RowIsChargedIff | crates/service/src/accounting.rs:385-405 | in every run a row goes into the reconciliation of a closed cycle if and only if it is that job's row and the cycle was open when it was recorded; a later row is charged to nobody |
| Settlement.KnownUsageIsCounted | crates/service/src/accounting.rs:439-465 | the known usage behind all reconciliations equals the usage of the counted ledger rows, each taken once |
| Settlement.UsedGrowsByCountedRows | crates/storage/src/repositories/budgets.rs:226-270 | conservation: when the settled usage is known, a lifetime budget's used column is what it started with plus the usage of the counted rows, each once, capped at the largest i64 |
| Settlement.FinalizeTwiceIsOnce | crates/service/src/accounting.rs:379-384 | a second settlement changes nothing |
| Settlement.SettledReservationsAreFinal | crates/storage/src/repositories/budgets.rs:216-224 | no later step of any run changes a reconciled or released reservation |
| Settlement.ReleaseMeansNothingHappened | crates/service/src/accounting.rs:406-438 | a release is only given to a cycle with no ledger row and no successful attempt since admission, and charges nothing |
| Settlement.MissingUsageRetainsReservation | crates/service/src/accounting.rs:406-429 | a cycle that succeeded without a usage row keeps its reservation, and no retry is admitted over it |
| SettlementOutcomes.IdleCycleIsReleasedIff | crates/service/src/accounting.rs:405-438 | on the steps of a run: settling a terminal job's open cycle without rows releases it if and only if no success of the job was reported since its admission, failed attempts or not; otherwise nothing changes and no retry is admitted |
| SettlementOutcomes.SuccessIsNeverReleased | crates/service/src/accounting.rs:405-438 | once a success of its job is reported, no later settlement or retry of any run releases a reservation |
| SettlementOutcomes.AttemptsAreReported | crates/service/src/accounting.rs:405-417 | the stored attempts that count for a cycle are exactly the successes reported in the run at or after its admission |
| AdmissionSufficiency.PicksWithinEstimate | crates/service/src/accounting.rs:505-510 | any selection of distinct estimates weighs at most what all of them were reserved for |
| AdmissionSufficiency.NextRequestIsCovered | crates/service/src/accounting.rs:301-335 | one budget's check passes for an admitted estimate not yet dispatched, whatever subset of the others was recorded, with usage known to the budgets that guard both |
| AdmissionSufficiency.AdmittedWorkIsNeverRefused | crates/service/src/accounting.rs:200-224 | after admission and any further steps of any jobs, a job that dispatches its admitted estimates in any order with usage within them is never refused while its cycle is active; usage unknown to soft, disabled or other budgets does not matter |
| AdmissionSufficiency.RetriedWorkIsNeverRefused | crates/service/src/conversion/job_state.rs:393-430 | the same for every later cycle: usage of earlier cycles does not count against a retry |
| LedgerLemmas.CycleEventsFromLedger | crates/storage/src/repositories/usage.rs:96-119 | the listed rows are exactly the job's ledger rows at or after the boundary |
| LedgerLemmas.TotalTokensAreExact | crates/core/src/accounting.rs:38-46 | saturation never yields a wrong token total: it is the exact sum, or unknown when that does not fit in an i64 |
| LedgerLemmas.EstimateAndUsageAgree | crates/service/src/accounting.rs:512-548 | estimates and ledger rows are measured alike: equal quantities count equally in both, except a money estimate without a rate card, which is unknown |
| Amounts.MoneyIsKnownIff | crates/service/src/accounting.rs:512-536 | a money budget knows exactly the costs in its own currency, equal up to ASCII case, and counts their micros; an estimate must also come from a rate card |
| Text.LowerIgnoresCase | crates/service/src/accounting.rs:518-519 | comparing lowered texts is comparing them up to ASCII case |
| Amounts.UsageIsMicros | crates/service/src/accounting.rs:446-460 | what a money budget has seen of rows in its currency is the sum of their non-negative micros |
| Amounts.EstimateIsMicros | crates/service/src/accounting.rs:505-510 | what it is asked to reserve for rated estimates in its currency is the same sum |
| Amounts.ProviderUsage | crates/service/src/accounting.rs:498-503 | a provider's budget counts what a global one would count of that provider's rows alone |
| Amounts.ProviderEstimate | crates/service/src/accounting.rs:498-503 | the same for estimates; the budget is touched exactly when that provider has one |
| Amounts.OrphanedBudgetCountsNothing | crates/service/src/accounting.rs:498-503 | a provider budget without a provider counts nothing and is touched by nothing |
| Amounts.RaisingAFieldCounts | crates/core/src/accounting.rs:27-60 | raising one quantity by n raises exactly the metrics it belongs to, by exactly n; a chapter analysis counts no audio |
| Amounts.NothingCountsNothing | crates/core/src/accounting.rs:27-60 | a row of zeros counts nothing in every metric, and a money budget does not look at quantities |
| Amounts.MissingQuantityIsUnknown | crates/core/src/accounting.rs:27-60 | for each metric, exactly which missing or oversized quantity makes it unknown |
| Amounts.UncountableEstimateIsNotAdmitted | crates/service/src/accounting.rs:190-224 | one estimate in another currency, without a cost or without a rate card keeps a job out of a hard money budget it touches |
| Amounts.UncountableUsageStopsDispatch | crates/service/src/accounting.rs:318-329 | one recorded row of the cycle in another currency or without a cost stops every further request that a hard money budget guards |
| Amounts.UncountableRequestIsRefused | crates/service/src/accounting.rs:301-317 | so does the request's own estimate |
| DollarRuns.AdmittedIff | crates/service/src/accounting.rs:157-246 | a job is admitted to a fresh dollar budget if and only if it costs dollars, in whatever case, and no more than the limit; then it holds exactly that |
| DollarRuns.AdmittedBesideIff | crates/storage/src/repositories/budgets.rs:367-393 | beside another job that holds m micros a job of n is admitted if and only if both are within the limit together |
| DollarRuns.SoftBudgetWithholds | crates/service/src/accounting.rs:190-246 | a soft budget, or one the job may override, keeps no job out and stops no request; it withholds what the job costs, or nothing when that is in another currency |
| DollarRuns.DisabledBudgetIsIgnored | crates/service/src/accounting.rs:198-203 | a disabled budget is not looked at: the job is queued without a reservation |
| DollarRuns.DispatchedIff | crates/service/src/accounting.rs:301-335 | after m micros a request for x more passes if and only if both are dollars and together within what the job holds |
| DollarRuns.ChargedExactly | crates/service/src/accounting.rs:439-471 | settled, the job is charged what it spent in dollars, or all it held when that was another currency |
| JobLifecycle.LifecycleJob.Transition | crates/core/src/jobs.rs:153-170 | a transition is accepted exactly along the lifecycle's edges, sets the three stamps as documented, and a refused one changes nothing |
| JobLifecycle.EdgesAreExact | crates/core/src/jobs.rs:99-124 | the eighteen moves a job may make; a state is terminal if and only if it is left by a retry alone or not at all |
| JobLifecycle.LifecycleJob.Requeue | crates/service/src/conversion/job_state.rs:409-413 | a retry's return to the queue also clears the finish stamp |
| JobLifecycle.StampsFollowHistory | crates/core/src/jobs.rs:153-170 | over every history the start stamp is the first effective start, the finish stamp the last effective finish not cleared since, and the update stamp the last effective move |
| JobLifecycle.HistoriesKeepRecordOk | crates/core/src/jobs.rs:99-170 | over every history whose retries clear the finish stamp, a record carries one exactly in a terminal state, and every job at work or completed was started |
| JobLifecycle.CompletedWasStarted | crates/core/src/jobs.rs:106-124 | no history skips to completed: such a job was started, at or before its finish |
| JobLifecycle.RequeueAgreesIffCleared | crates/service/src/conversion/job_state.rs:409-413 | the bare transition back to the queue keeps a stale finish stamp: record and state agree again if and only if the retry clears it |
| JobLifecycle.FinalRecordsStay | crates/core/src/jobs.rs:101-124 | completed and cancelled jobs never change again, and a failed one only through a return to the queue |
| Pricing.NeverOverflowsI128 | crates/service/src/accounting.rs:654-657 | no 128-bit intermediate value of any price overflows |
| Pricing.RatioRoundsUp | crates/service/src/accounting.rs:654-658 | for a non-negative rate the result is the least m with m times divisor at least quantity times rate, and is missing exactly when that does not fit in an i64 |
| Pricing.RatioIsTheLeastCover | crates/service/src/accounting.rs:654-658 | the result is m if and only if m is the least number that covers the product |
| Pricing.RoundsUpIffNotNegative | crates/service/src/accounting.rs:654-658 | why stored rates must not be negative: over all rates a result rounds up if and only if the product is above minus the divisor or one more than a multiple of it |
| RateCards.ValidateRatePricing | crates/service/src/api/accounting.rs:329-371 | a card is accepted exactly when it has prices, all of its workload's names and none negative; a refusal names a bad price |
| RateCards.AllowedPricesAreUsed | crates/service/src/api/accounting.rs:329-371 | a chapter-analysis card may state exactly the prices that pricing looks up, a speech card those of characters and provider credits |
| RateCards.AcceptedRatesRoundUp | crates/service/src/api/accounting.rs:294 | every rate of a stored card is priced by the least whole number of micros that covers it, or missing exactly when that does not fit |
| RateCards.AcceptedCardsPriceRequests | crates/service/src/api/accounting.rs:294 | the closed form of the price and its exactness condition hold for every request on every card the service can store |
| Pricing.SeparatePricesCoverCombined | crates/service/src/accounting.rs:654-658 | pricing n dispatches separately covers the price of the combined quantity and exceeds it by at most n - 1 micros |
| Pricing.InputTokensAreBilledOnce | crates/service/src/accounting.rs:575-583 | cached plus uncached billed input equals the input, and the cached part never exceeds what was reported as cached |
| Pricing.PriceIsCharged | crates/service/src/accounting.rs:574-629 | the price of any request on any non-negative card in closed form: missing when input, output or their rates are, or a charged term does not fit, else the capped sum of the terms, each at its own rate unless that is missing or overflows |
| Pricing.PriceIsExactIff | crates/service/src/accounting.rs:590-627 | the price is the capped exact sum of the properly rated terms if and only if every term fits, or what is charged instead reaches the cap anyway |
| Pricing.AiPriceIsExact | crates/service/src/accounting.rs:574-629 | in particular whenever every term fits |
| Pricing.RatesAreNamed | crates/service/src/accounting.rs:577-627 | the names under which a card states each kind's price, per token before per million |
| Pricing.UnitsCostTheirPrice | crates/service/src/accounting.rs:632-658 | one token costs the price per token, a million of them the price per million |
| Pricing.AiPriceIsMonotone | crates/service/src/accounting.rs:574-629 | more input, output or reasoning tokens never cost less, when the terms of the larger request fit |
| Pricing.ReasoningIsMonotoneIff | crates/service/src/accounting.rs:608-627 | more reasoning tokens never cost less if and only if the fallback does not undercut them or the price is capped |
| Pricing.InputIsMonotoneIff | crates/service/src/accounting.rs:577-606 | more input tokens never cost less if and only if the fallback for cached ones does not undercut them or the price is capped |
| Pricing.OutputIsMonotone | crates/service/src/accounting.rs:584-589 | more output tokens never cost less as long as there is a price, on any non-negative card |
| Pricing.OverflowMakesMoreInputCheaper | crates/service/src/accounting.rs:590-606 | a concrete rate card and request for which one more cached input token makes the request cheaper |
| Pricing.OverflowMakesMoreTokensCheaper | crates/service/src/accounting.rs:608-627 | a concrete rate card and request for which one more reasoning token makes the request cheaper |
| Pricing.TtsPriceCoversCharacters | crates/service/src/accounting.rs:565-572 | the price of synthesised characters on any non-negative card: the exact product per character, the least cover per thousand, missing exactly when it does not fit or no rate is stated |
| OllamaPull.PullModel | crates/providers/src/model_library.rs:280-320 | it succeeds if and only if everything arrived, every line that holds something decodes without an error, the last of them says success and nothing is refused for its length; the i-th event carries the i-th such line's amounts and is the completion exactly when that line says success; each error names its reason; for every chunking the emitted events are a prefix of those of one split of the whole stream; on success they are all of them and the last is Completed; when every segment fits, events and result are those of the one-shot reading; otherwise the result lies between two extremes: one chunk is read leniently, single bytes strictly, and if both agree every chunking comes to that |
| OllamaPull.ReadChunks | crates/providers/src/model_library.rs:284-307 | the chunk loop: between chunks the buffer holds no newline and is within the limit, and the lines read so far and the buffer together are the bytes received |
| OllamaPull.ReadChunk | crates/providers/src/model_library.rs:289-306 | one chunk: either the invariant holds for the longer stream, or the error is the one-shot error, or a segment of the stream is too long and strict reading is refused too, there or earlier |
| OllamaPull.DrainLines | crates/providers/src/model_library.rs:295-301 | the drain loop takes every complete line, and stops at the first that does not parse |
| OllamaPull.TailIsLastSegment | crates/providers/src/model_library.rs:308-313 | what is left in the buffer at the end is the last segment of the one-shot split |
| OllamaPull.BufferBeginsSegment | crates/providers/src/model_library.rs:290-306 | an oversized buffer without a newline proves that a segment of the stream is too long, whatever follows |
| OllamaPull.NewlineDoesNotMatter | crates/providers/src/model_library.rs:558-563 | a line parses the same with and without its newline |
| OllamaPull.EventsReportLines | crates/providers/src/model_library.rs:558-591 | read lines give one event for each line that holds something, in order, up to the first that does not decode, reports a failure or is too long |
| OllamaPull.HoldsSomethingIff | crates/providers/src/model_library.rs:561-563 | a line holds something if and only if it has a byte other than blank, tab, newline, form feed and carriage return |
| PullChunking.ChunkingMattersIff | crates/providers/src/model_library.rs:284-313 | the chunking of a stream matters if and only if its first segment over the limit is reached without error, is tolerated when complete, and is not followed by nothing but blank lines and one refused anyway |
| PullChunking.ToleratedIff | crates/providers/src/model_library.rs:558-570 | a segment over the limit is tolerated if and only if it is blank, or one byte too long for a final carriage return |
| PullChunking.BlanksMatter | crates/providers/src/model_library.rs:289-307 | a concrete stream: 70 000 blanks, a newline and the completion succeed in one chunk and are refused byte by byte |
| PercentEncoding.PercentEncodePathSegment | crates/providers/src/model_library.rs:935-948 | the loop's output decodes back to the input |
| PercentEncoding.RoundTrip | crates/providers/src/model_library.rs:935-948 | decoding the percent encoding (section 2.1 of RFC 3986) gives back the original bytes |
| PercentEncoding.EncodingIsInjective | crates/providers/src/model_library.rs:935-948 | different identifiers never share a path segment |
| PercentEncoding.EncodingIsSafe | crates/providers/src/model_library.rs:938-946 | the output holds only unreserved characters (section 2.3 of RFC 3986) and upper-case percent triplets, so no slash |
| PercentEncoding.UnreservedIsUnchanged | crates/providers/src/model_library.rs:939-941 | the encoder changes nothing if and only if every byte is unreserved |
| PercentEncoding.EncodingLength | crates/providers/src/model_library.rs:937-946 | the output is at least as long as the input and at most three times as long |
| PercentEncoding.EncodedByteIs | crates/providers/src/model_library.rs:937-946 | an unreserved byte stays, every other one becomes a percent sign and its two upper-case hexadecimal digits |
| RotatingLog.RotatingJsonl.Append | crates/service/src/diagnostics.rs:841-853 | an append rotates exactly when the current file would outgrow its limit, then adds the line to the current file |
| RotatingLog.RotatingJsonl.Rotate | crates/service/src/diagnostics.rs:855-871 | the in-place renames, highest generation first, move every file one generation on and lose only the oldest |
| RotatingLog.RotatingJsonl.LoadSanitized | crates/service/src/diagnostics.rs:873-893 | loading reads oldest generation to current file, gives up on a file at its first line that is not text, and keeps exactly the readable lines of at most 32 KiB |
| RotatingLog.AppendKeepsLogOk | crates/service/src/diagnostics.rs:846-852 | every file is within the limit or holds one line, and two neighbouring files together exceed the limit |
| RotatingLog.LogIsSuffixOfHistory | crates/service/src/diagnostics.rs:841-871 | after any appends to an empty directory the files hold a contiguous in-order suffix of the history, and a line is missing only once every generation is in use |
| RotatingLog.LoadingIsSuffixOfHistory | crates/service/src/diagnostics.rs:873-893 | what loading returns is the loadable part of that suffix, for lines that are text as the writer's are |
| RotatingLog.LoadedOneMore | crates/service/src/diagnostics.rs:883-889 | a line counts if and only if it is at most 32 KiB long and decodes |
| RotatingLog.ForgettingLeavesMuch | crates/service/src/diagnostics.rs:841-871 | as soon as a line is gone, what is left is more than half of the configured space |
| Sanitizer.SanitizeFields | crates/service/src/diagnostics.rs:497-514 | the field loop: surviving fields under their canonical names, later ones over earlier ones, plus the count of removed ones; what is kept and what is not: SanitizerForms |
| Sanitizer.FieldSanitizedTwice | crates/service/src/diagnostics.rs:516-598 | a field that survived survives again unchanged under its canonical name |
| Sanitizer.RedactionShows | crates/service/src/diagnostics.rs:611-629 | redaction leaves a text as it was or leaves the redaction mark in it, so the mark test misses nothing |
| Sanitizer.SanitizedTwice | crates/service/src/diagnostics.rs:497-514 | sanitizing a field map twice equals once if and only if at most 10^12 fields were removed, the largest count that itself survives |
| Sanitizer.StoredEntrySanitizedTwice | crates/service/src/diagnostics.rs:447-458 | the same for a whole stored entry: target, fields and message |
| SanitizerForms.RedactionMarksIff | crates/service/src/diagnostics.rs:611-629 | a text that comes out of redaction without a mark is unchanged and matched by no pattern, and a text that no pattern matches comes out unchanged |
| SanitizerForms.ValueIsKeptIff | crates/service/src/diagnostics.rs:543-598 | for each name a value is kept if and only if it is in that name's form: a count up to 10^12, a UUID, one of seven methods, a route, a scheme, a known code, or at most 96 symbolic characters in which no redaction pattern matches; only the case of a method or scheme is changed |
| SanitizerForms.AcceptedIsCanonical | crates/service/src/diagnostics.rs:516-541 | exactly the listed names are accepted, eight of them also in snake case |
| SanitizerForms.SanitizedIsClean | crates/service/src/diagnostics.rs:497-598 | every field of a sanitized map is in its form, so nothing that a pattern matches is kept under a symbolic name; only the count of removed fields may be larger |
| SanitizerForms.FieldInFormIsKept | crates/service/src/diagnostics.rs:497-514 | the other direction: a field in its form is kept with its value unless a later one has its name |
| SanitizerForms.SanitizedIsKept | crates/service/src/diagnostics.rs:508-512 | the sanitized map is the kept fields and the count of removed ones, nothing else |
| SanitizerForms.StoredIsClean | crates/service/src/diagnostics.rs:447-458 | a sanitized entry has a plain target, an approved or implied message, and clean fields |
| Diagnostics.Store.PushBounded | crates/service/src/diagnostics.rs:397-402 | the ring drops its oldest entry only when full |
| Diagnostics.Store.Record | crates/service/src/diagnostics.rs:322-351 | a record is numbered, approved, sanitized, pushed to the ring and appended to the log, and the counter stops at the largest u64; every entry in the ring and the logged line are clean |
| Diagnostics.Store.ConfigurePersistence | crates/service/src/diagnostics.rs:289-320 | the ring becomes the newest of the sanitized persisted and early entries renumbered from 1, the early ones go to the log, and the same directory changes nothing |
| Diagnostics.Store.RunQuery | crates/service/src/diagnostics.rs:353-372 | a query returns the newest selected entries, newest first, at most its clamped limit, and the number selected in all (250 by default, between 1 and 1 000) |
| Diagnostics.Store.ExportJsonl | crates/service/src/diagnostics.rs:376-394 | an export is the newest 10 000 selected entries, oldest first, sanitized again; every line is that of a clean entry |
| Diagnostics.RingIsEndOfHistory | crates/service/src/diagnostics.rs:333-342 | between configurations the ring is the newest entries of one plain history, numbered consecutively |
| Diagnostics.RestartAgreesWithRing | crates/service/src/diagnostics.rs:289-320 | for any entries a ring reloaded from the log agrees in sanitized content with the ring before the restart, apart from the lines the log has rotated out |
| Diagnostics.RestartReloadsTheRing | crates/service/src/diagnostics.rs:289-351 | a whole run of records followed by a restart reloads the ring's sanitized content but for its oldest entries, exactly those whose lines the log has rotated out |
| DiagnosticsReload.RecordedIsStoredIff | crates/service/src/diagnostics.rs:333-340 | a record goes to the log and back unchanged if and only if its message is the one its fields imply and at most 10^12 of its fields were removed |
| DiagnosticsReload.CallersImplyTheirMessage | crates/service/src/diagnostics.rs:764-812 | a caller that passes the message its own diagnostic code implies records exactly that message |
| DiagnosticsReload.LayerReportsAreImplied | crates/service/src/diagnostics.rs:631-743 | whatever a tracing event carries, the layer's report implies its message |
| DiagnosticsReload.LayerReportHas | crates/service/src/diagnostics.rs:649-735 | the layer's report has the event's kept fields, the count of dropped ones exactly when there are any, and the source position |
| DiagnosticsReload.ReloadIsExact | crates/service/src/diagnostics.rs:289-320 | for stored entries the reloaded ring is the end of the history itself, renumbered from 1, but for the lines rotated out |
| DiagnosticsReload.RestartIsExact | crates/service/src/diagnostics.rs:289-351 | for reports that imply their messages the reloaded ring is the ring before the restart, message and all, apart from sequence numbers and lines rotated out |
| DiagnosticsReload.EarlyEntriesReload | crates/service/src/diagnostics.rs:306-318 | entries recorded before the log was opened and those recorded after reload as one history |
| Diagnostics.FilteredIsSubsequence | crates/service/src/diagnostics.rs:404-445 | filtering keeps exactly the selected entries, in order |
| DiagnosticsQueries.SelectedIff | crates/service/src/diagnostics.rs:404-445 | a query selects exactly the later entries of at least its level whose target holds the trimmed target and in which the message, the target, a field's name or its shown value holds the first 120 characters of the search, all up to case |
| DiagnosticsQueries.ContainsIgnoresCase | crates/service/src/diagnostics.rs:419-442 | comparing lowered texts finds a needle exactly where it stands in whatever case |
| Text.TrimmedIs | crates/service/src/diagnostics.rs:408-412 | trimming takes whitespace off both ends and nothing else, and leaves none there |
| Diagnostics.PageIsNewestFirst | crates/service/src/diagnostics.rs:353-366 | a page holds only selected entries after the cursor, newest first, and a selected entry it leaves out is older than all of a full page |
| Diagnostics.RingIsIncreasing | crates/service/src/diagnostics.rs:334-341 | sequence numbers in the ring increase as long as the counter has not stopped |
| Idempotency.Repository.TryClaim | crates/storage/src/repositories/idempotency.rs:31-97 | one atomic claim: purges what expired and inserts a fresh claim, or reports it running, replays it, or refuses another request's key and then purges nothing |
| Idempotency.Repository.Complete | crates/storage/src/repositories/idempotency.rs:99-141 | completion stores the response exactly when this request's claim is still open |
| Idempotency.Repository.Forget | crates/storage/src/repositories/idempotency.rs:143-153 | forgetting removes the key |
| Idempotency.Repository.Enforce | crates/service/src/idempotency.rs:18-117 | the middleware for one request: which requests bypass it, each refusal by its reason, and for each claim outcome the answer and the whole new store |
| IdempotencyAnswers.NextRequest | crates/service/src/idempotency.rs:75-115 | after a request that found its key free: if its answer is below 500 or from 600 on and at most 16 MiB, the next request of the key within a day replays status, body and content type and leaves the record, or is refused for other content; if not, the key is gone and the next one runs its handler |
| IdempotencyAnswers.KeyIsFreeAfterADay | crates/service/src/idempotency.rs:69 | 86 400 seconds after a claim the next request of the key runs its handler, whatever was answered |
| IdempotencyAnswers.GateIsExact | crates/service/src/idempotency.rs:29-66 | which requests bypass the store and which reach it, with every limit as a number |
| IdempotencyAnswers.RoutesDoNotShareKeys | crates/service/src/idempotency.rs:61-71 | the same key text under another verb or on another path is another key |
| IdempotencyAnswers.AloneIsEnforce | crates/service/src/idempotency.rs:63-117 | the concurrent protocol refines the middleware: a request that nothing interleaves with leaves the store and answers as Enforce does |
| IdempotencyAnswers.StoredIffNotServerFailure | crates/service/src/idempotency.rs:92-115 | in every run whatsoever a request answered by its handler is stored if and only if the status is not from 500 to 599, and an oversized answer is refused and never stored |
| IdempotencyAnswers.AnsweredIsReplayed | crates/service/src/idempotency.rs:75-115 | from the moment a request settles with such an answer every request of its key and content is answered with it until the record expires, in any continuation |
| IdempotencyAnswers.FailureFreesTheKey | crates/service/src/idempotency.rs:92-99 | after a server failure or an oversized answer the next request to claim the key runs its own handler |
| IdempotencyAnswers.DyingIsFinal | crates/service/src/idempotency.rs:63-117 | a request may die at any point before its end and does nothing from then on |
| SecretRoutes.ModelRoutesAreExact | crates/service/src/idempotency.rs:138-160 | cutting a path at its slashes recognizes exactly the model routes: a provider identifier and the fixed parts, the right method, nothing before, between or after |
| SecretRoutes.SecretRoutesAreExact | crates/service/src/idempotency.rs:119-160 | a request bypasses the store as secret if and only if it is one of six fixed ones, changes a provider, or is one of five on a provider's models |
| Idempotency.RunsKeepKey | crates/service/src/idempotency.rs:63-117 | one key's part of the protocol holds under every interleaving in which that key is not claimed while a holder of it has outlived its own claim; other keys, requests that die anywhere and time past any expiry do not matter |
| Idempotency.OneHolderPerKey | crates/service/src/idempotency.rs:75-116 | under the same condition on the one key, at most one request of it is between claim and completion, and two that both completed it acquired it at least a day apart |
| Idempotency.OneHolderIffTimely | crates/storage/src/repositories/idempotency.rs:41-76 | that condition is exact for whole runs: a key has at most one holder throughout a run if and only if it is never claimed while a holder of it has outlived its own claim |
| Idempotency.ReplaysAreFaithful | crates/service/src/idempotency.rs:101-110 | in every run whatsoever every replay has the status, body and content type that some request with the same key and content answered and stored |
| Idempotency.CompletionNeverFails | crates/service/src/idempotency.rs:111-114 | a request that acquired its key can complete it, even past its expiry, if its key was claimed in time only and no claim but a rolled back one was made while this request was past its own expiry |
| Idempotency.CompletedKeyIsNeverHandledAgain | crates/service/src/idempotency.rs:79-89 | from its completion to its expiry a key's record never changes and no request of that key runs its handler, in any continuation at all |
| Idempotency.SecondHolderIff | crates/storage/src/repositories/idempotency.rs:41-63 | a claim creates a second holder if and only if some holder of that key has outlived its own claim |
| Idempotency.ClaimIsSafeIff | crates/storage/src/repositories/idempotency.rs:41-76 | the condition on completion is exact: a claim leaves a holder its record, and its key no other holder, if and only if the holder's claim has not expired or the new one is rolled back |
| Idempotency.ExpiryAdmitsASecondHandler | crates/storage/src/repositories/idempotency.rs:41-46 | a concrete run past the expiry in which two requests hold one key and the late one deletes the other's claim |
| CachePrune.Cache.Prune | crates/media/src/cache.rs:130-166 | the removed objects are the shortest oldest-first run of evictable ones that makes the rest fit, or all of them; bytes, keys and manifests are accounted for; if the rest does not fit, all of it is pinned or protected; nothing pinned or protected is removed |
| CachePrune.Cache.EvictOldest | crates/media/src/cache.rs:146-159 | the eviction loop: what is gone, in which order, and that every single eviction was still needed |
| CachePrune.Cache.Pin | crates/media/src/cache.rs:116-118 | a pin adds exactly that key |
| CachePrune.Cache.Unpin | crates/media/src/cache.rs:120-127 | an unpin removes exactly that key, and is harmless without a pin |
| CachePrune.ByAgeIsStableSort | crates/media/src/cache.rs:143 | the listing is sorted by age, a permutation, and stable |
| CachePrune.LeastEnoughIsUnique | crates/media/src/cache.rs:146-159 | the specification leaves no choice in how many objects go |
| CachePrune.PruneAgainRemovesNothing | crates/media/src/cache.rs:130-166 | pruning again with the same inputs removes nothing |
| CachePrune.RemovedAreTheOldest | crates/media/src/cache.rs:143-158 | everything removed is at least as old as every evictable object that stays |
| CachePrune.EvictingFrees | crates/media/src/cache.rs:153-156 | deleting distinct objects takes exactly their bytes off the disk |
| PcmPlayer.Player.OnMessage | web/public/pcm-player.worklet.js:6-9 | a chunk is appended to what is pending, a clear empties it, anything else changes nothing |
| PcmPlayer.Player.Process | web/public/pcm-player.worklet.js:12-25 | every channel gets the pending samples in order and silence after them, as many frames as the first channel has; a longer channel keeps its rest, a shorter one drops what lies beyond its end; exactly those samples are gone from what is pending |
| PcmPlayer.Player.NextSample | web/public/pcm-player.worklet.js:17-21 | one frame takes the first pending sample, past any finished or empty chunks |
| PcmPlayer.PlaybackIsFifo | web/public/pcm-player.worklet.js:6-24 | over any interleaving, what was played since the last clear is in order a prefix of what was pushed since then, and pushed equals played plus pending plus cleared |
| PcmPlayer.SilenceOnlyWhenEmpty | web/public/pcm-player.worklet.js:6-24 | over any interleaving each frame since the last clear is determined by what had arrived before it: the next sample not yet played, and silence exactly when the frames before it had played everything pushed so far |
| ChapterText.ExtractChapter | crates/epub/src/lib.rs:377-449 | the chapter's text is the blocks with each run of equal texts collapsed; each paragraph has its block's text, source index and kind; paragraphs are the slices at their offsets with exactly a blank line between them; neighbours differ; splitting on blank lines gives back the paragraphs; the title is the first heading, or else the chapter's number |
| ChapterText.AssembleText | crates/epub/src/lib.rs:416-433 | offsets are byte positions: every paragraph is its slice, the next starts two bytes after it, the first at 0 and the last ends at the text's length |
| Text.CharRoundTrip | crates/epub/src/lib.rs:416-424 | the byte offsets count UTF-8: a character takes one to four bytes by its code and they decode to it |
| ChapterText.CollectCandidates | crates/epub/src/lib.rs:380-404 | the candidates are the text blocks with text that the nesting test lets through, in document order |
| ChapterText.IsNested | crates/epub/src/lib.rs:387-394 | the loop over an element's ancestors, its first step skipped |
| ChapterText.OutermostIff | crates/epub/src/lib.rs:387-394 | the test finds exactly the blocks with a block above them if the library's walk begins with the element itself; if it begins with the parent, all but those directly inside an outermost block |
| ChapterText.DeduplicationCollapsesRuns | crates/epub/src/lib.rs:405-406 | deduplication against the last kept block equals keeping the first block of each run of equal texts |
| ChapterText.NeighboursDiffer | crates/epub/src/lib.rs:406 | no two kept neighbours share a text or a source |
| ChapterText.SplittingRestoresParagraphs | crates/epub/src/lib.rs:416-433 | splitting a non-empty chapter on blank lines gives exactly its paragraphs |
| ChapterText.NormalizingKeepsWords | crates/epub/src/lib.rs:465-467 | normalizing keeps the words in order and is idempotent |
| ChapterText.NormalizedHasNoNewline | crates/epub/src/lib.rs:465-467 | a normalized text holds no newline, so the separator is unambiguous |
| Text.AsciiWhitespace | crates/epub/src/lib.rs:465-467 | of the ASCII characters exactly blank and tab to carriage return separate words |
| ArchiveInspection.Inspect | crates/epub/src/lib.rs:145-205 | the result of the limit loop: the first offence in archive order, or the exact expanded total, the compressed total capped at the largest u64, and the DRM answer |
| ArchiveInspection.ManifestIgnoresCase | crates/epub/src/lib.rs:189 | the encryption manifest is recognized by its name in whatever case |
| ArchiveInspection.AcceptedIffWithinLimits | crates/epub/src/lib.rs:158-190 | stopping at the first offence accepts exactly the archives whose entries are all acceptable and whose exact total is within the limit |
| ArchiveInspection.AcceptanceIsOrderless | crates/epub/src/lib.rs:158-190 | reordering the entries cannot turn a refused archive into an accepted one |
| ArchiveInspection.RatioBoundsTheArchive | crates/epub/src/lib.rs:184-188 | the per-entry ratio bounds the whole archive: only entries that claim no compressed bytes can exceed it |
| FfMetadata.EscapeFfmetadata | crates/media/src/export.rs:646-660 | escaping is undone by unescaping, apart from carriage returns, and leaves no newline |
| FfMetadata.Ffmetadata | crates/media/src/export.rs:620-644 | the printer's output is the rendering of the header lines and one section per chapter with accumulated boundaries |
| FfMetadata.PrintHeader | crates/media/src/export.rs:621-634 | the header: title always, artist, series and series part exactly when present |
| FfMetadata.EscapeRoundTrip | crates/media/src/export.rs:646-660 | unescaping gives back the value without its carriage returns |
| FfMetadata.LineRoundTrip | crates/media/src/export.rs:620-644 | every rendered line reads back as the line it was |
| FfMetadata.DocumentRoundTrip | crates/media/src/export.rs:620-644 | reading a printed document recovers title, artist, series, series part, every chapter title and every boundary |
| FfMetadata.DocumentOpens | crates/media/src/export.rs:621 | the document opens with the line by which its format is recognized |
| FfMetadata.OneMoreAuthor | crates/media/src/export.rs:623-627 | authors are joined by a semicolon and a blank |
| FfMetadata.BoundaryIsTotal | crates/media/src/export.rs:635-641 | each boundary is the exact sum of the durations before it, capped at the largest u64 |
| FfMetadata.RangesAreContiguous | crates/media/src/export.rs:635-642 | the ranges read back as numbers are the sums of the durations before each chapter and with it: they start at 0, are contiguous, and end at the sum of all durations when it fits; each is in thousandths of a second |
| DependencyClosure.Closure | scripts/release/generate_sbom.py:46-53 | the worklist terminates on every graph, cycles and duplicates included, with exactly the packages the root reaches; it fails exactly when a reached package has no node |
| DependencyClosure.UniqueComponents | scripts/release/generate_sbom.py:174-176 | the dictionary loop keeps exactly one component for each reference, the last one that has it |
| DependencyClosure.ListingIsSortedAndUnique | scripts/release/generate_sbom.py:174-177 | one entry per reference, ascending, none missing and none invented |
| DependencyClosure.OrderIsIrrelevantIffReferencesAgree | scripts/release/generate_sbom.py:61-75 | the inventory is independent of the iteration order of the package set if and only if packages with one reference describe the same component |
| LoginLimiter.Limiter.EnforceThrottle | crates/service/src/auth.rs:260-272 | drops the leading failures older than a minute and refuses exactly when five are left |
| LoginLimiter.Limiter.LoginWithPassword | crates/service/src/auth.rs:207-235 | a wrong password is recorded, a right one clears the queue, a refused or unreadable one records nothing |
| LoginLimiter.QueueAnswersLikeFullHistory | crates/service/src/auth.rs:260-272 | over every serial run the pruned queue answers exactly like a limiter that keeps and counts every failure since the last success |
| LoginLimiter.RefusedIffFifthNewestIsRecent | crates/service/src/auth.rs:263-266 | a login is refused if and only if the fifth newest failure is at most a minute old |
| LoginLimiter.SixFailuresSpanAMinute | crates/service/src/auth.rs:227-233 | in any stretch of a serial run without a success any six recorded failures span more than a minute |
| LoginLimiter.ConcurrentFailuresSpanAMinute | crates/service/src/auth.rs:212-233 | with at most n logins between throttle and decision at once, any 5 + n failures since the last success span more than a minute |
| LoginLimiter.AloneIsOneAttempt | crates/service/src/auth.rs:207-235 | a login that nothing interleaves with is one throttle and one decision of the concurrent limiter |
| LoginLimiter.MemoryIsRecorded | crates/service/src/auth.rs:227-233 | while no login succeeds the memory grows by exactly the failures that were answered as wrong |
| LoginLimiter.QueueStaysInOrder | crates/service/src/auth.rs:227-233 | the queue stays sorted by time |
| LoginLimiter.RetryAfterAMinute | crates/service/src/auth.rs:266-270 | a login more than a minute after the last one is never refused |

## Left out

- Calendar budgets: daily and monthly periods and their resets; lifetime and per-job budgets are modelled. The set
  of budgets is fixed during a run.
- Expiry is marked when the clock moves instead of at the next repository call; every call that could notice marks
  it first (crates/storage/src/repositories/budgets.rs:351, 138).
- Reservations are attached to their job in the same step that stores them; a crash between the two, and its
  recovery, is not modelled. Neither are storage failures, revisions and output claims.
- Allocations are a map from budget to amounts, so their order and the duplicate test are not modelled.
- Concurrent dispatches inside one job: the dispatch check counts recorded rows only, so the safety theorems need
  check and record to alternate per job. Every other interleaving of jobs is a run.
- BudgetSafety.HardLimitIsNeverOverspent: holds for runs disciplined towards the budget, because the code lets
  overrides, usage above its projection, cycles opened over expired work and rows after a retry exceed a limit.
- BudgetUsage.RecordedUsageIsWithinLimit: excludes settlement under a request in flight, because the late row is
  charged to nobody, and a limit of the largest i64 with nothing used, because of the saturating check.
- BudgetSafety.ConsumedWithinAllocation: assumes a reservation below the largest i64, because the saturating check
  is not exact for that one.
- AdmissionSufficiency.AdmittedWorkIsNeverRefused: assumes that the budgets are unchanged and the cycle is still
  active, as the check itself demands.
- Pricing.AiPriceIsExact: assumes that every term fits; Pricing.PriceIsExactIff has the other cases.
- Idempotency.OneHolderPerKey: excludes runs in which the key is claimed while a holder of it has outlived its own
  claim, because an expired claim is given away; Idempotency.OneHolderIffTimely shows that nothing less is excluded.
- Diagnostics.RestartAgreesWithRing: compares sanitized content; DiagnosticsReload.RestartIsExact is the exact form.
  Sequence numbers restart at 1 on every configuration, the readers are assumed to undo the writer, and no line
  exceeds the load limit.
- LoginLimiter.SixFailuresSpanAMinute: logins are handled one at a time;
  LoginLimiter.ConcurrentFailuresSpanAMinute has the bound for several at once.
- Whether the tree library's walk over ancestors begins with the element itself is a parameter of ChapterText.
- Rate cards: choosing a card and its currency; only the arithmetic on a chosen card is modelled.
- JSON, UTF-8 validity, regular expressions, UUIDs, HTML and ZIP reading, hashing and password derivation enter as
  parameters. The idempotency fingerprint is not claimed to be injective.
- A pull's cancellation and a broken connection are items of the stream; a failing progress sink is not modelled.
- File-system failures and crash points of the cache, the log and the exporter; a failed append that disables the
  log; the unlocked window between loading and configuring.
- Sums of file sizes in the cache are not wrapped to 64 bits, and the listing holds each key once.
- A message to the player is a chunk, a clear or something else.
- The exporter's series part is given as its printed text, which holds no newline; FFmpeg's own reader is not modelled.
- The path check of an archive entry, the encryption manifest and its answer are given.
- `safe_file_component`, `output_units`, `build_inputs`, filter graphs and loudness in crates/media/src/export.rs,
  `CacheKey::parse`, `path` and `put` in crates/media/src/cache.rs: easy members or floating point.
- Process spawning, HTTP, provider adapters, URL and host checks, TLS, the user interface, translations and release
  signing.

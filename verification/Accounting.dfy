/** Budgets, reservations, the usage ledger, and the rules by which a job is admitted against its
    budgets, each dispatch is checked, and a finished job is settled. Every rule here is stated as
    a predicate or an exact sum; BudgetService holds the code that computes it. */
module Accounting {
  import opened Bounded
  import opened Wrappers
  import Text

  type BudgetId = nat
  type JobId = nat
  type ReservationId = nat
  type ProviderId = nat
  type RateCardId = nat

  datatype Workload = Tts | CharacterDetection

  datatype Metric =
    | MoneyMicros
    | Characters
    | AudioMilliseconds
    | InputTokens
    | OutputTokens
    | TotalTokens
    | ProviderCredits

  datatype Money = Money(micros: I64, currency: string)

  datatype Quantities = Quantities(
    characters: Option<U64>,
    audioMilliseconds: Option<U64>,
    inputTokens: Option<U64>,
    outputTokens: Option<U64>,
    cacheReadTokens: Option<U64>,
    reasoningTokens: Option<U64>,
    providerCredits: Option<I64>)

  datatype Scope = Global | Provider(id: Option<ProviderId>)

  datatype Period = PerJob | Lifetime

  /** The configured part of a budget. Its used amount is a separate column of the state. */
  datatype Budget = Budget(
    scope: Scope,
    period: Period,
    metric: Metric,
    currency: Option<string>,
    limit: I64,
    hard: bool,
    enabled: bool)

  datatype Estimate = Estimate(
    provider: ProviderId,
    workload: Workload,
    quantities: Quantities,
    cost: Option<Money>,
    rateCard: Option<RateCardId>)

  datatype UsageEvent = UsageEvent(
    job: Option<JobId>,
    provider: ProviderId,
    workload: Workload,
    quantities: Quantities,
    cost: Option<Money>)

  datatype Attempt = Attempt(job: JobId, finishedAt: nat, success: bool)

  datatype Status = Active | Reconciled | Released | Expired

  datatype Allocation = Allocation(reserved: I64, actual: Option<I64>)

  /** `start` is the ledger boundary stored at admission. `settledAt` is the ledger length at which
      the reservation was reconciled or released; only the proofs look at it. */
  datatype Reservation = Reservation(
    job: JobId,
    status: Status,
    allocations: map<BudgetId, Allocation>,
    createdAt: nat,
    start: nat,
    settledAt: Option<nat>)

  datatype JobState = Queued | Running | Pausing | Paused | Cancelling | Cancelled | Failed | Completed {

    predicate IsTerminal() {
      Cancelled? || Failed? || Completed?
    }

    predicate CanTransitionTo(next: JobState) {
      match this
      case Queued => next.Running? || next.Cancelling? || next.Cancelled? || next.Failed?
      case Running => next.Pausing? || next.Cancelling? || next.Failed? || next.Completed?
      case Pausing => next.Paused? || next.Cancelling? || next.Failed?
      case Paused => next.Queued? || next.Running? || next.Cancelling? || next.Cancelled?
      case Cancelling => next.Cancelled? || next.Failed?
      case Failed => next.Queued?
      case Cancelled => false
      case Completed => false
    }
  }

  /** `inFlight` is a request that has passed its dispatch check and has not reported usage yet. */
  datatype Job = Job(
    state: JobState,
    allowOverride: bool,
    reservation: Option<ReservationId>,
    inFlight: Option<Estimate>)

  datatype State = State(
    budgets: seq<Budget>,
    used: seq<I64>,
    reservations: seq<Reservation>,
    jobs: map<JobId, Job>,
    ledger: seq<UsageEvent>,
    attempts: seq<Attempt>,
    clock: nat)

  // ---- Amounts ----

  function AsI64(x: U64): Option<I64> {
    if x <= I64_MAX then Some(x) else None
  }

  function AmountFor(q: Quantities, metric: Metric, cost: Option<Money>): Option<I64> {
    match metric
    case Characters => OptionAsI64(q.characters)
    case AudioMilliseconds => OptionAsI64(q.audioMilliseconds)
    case InputTokens => OptionAsI64(q.inputTokens)
    case OutputTokens => OptionAsI64(q.outputTokens)
    case TotalTokens =>
      if q.inputTokens.None? then None
      else AsI64(SaturatingAddU64(SaturatingAddU64(q.inputTokens.value, q.outputTokens.GetOr(0)),
                                  q.reasoningTokens.GetOr(0)))
    case ProviderCredits => q.providerCredits
    case MoneyMicros => if cost.None? then None else Some(cost.value.micros)
  }

  function OptionAsI64(x: Option<U64>): Option<I64> {
    if x.None? then None else AsI64(x.value)
  }

  function MoneyAmount(b: Budget, cost: Option<Money>): Option<I64> {
    if cost.None? || b.currency.None? then None
    else if Text.Lower(b.currency.value) == Text.Lower(cost.value.currency) then Some(cost.value.micros)
    else None
  }

  function MetricAmount(b: Budget, workload: Workload, q: Quantities, cost: Option<Money>): Option<I64> {
    if workload.CharacterDetection? && b.metric.AudioMilliseconds? then Some(0)
    else AmountFor(q, b.metric, cost)
  }

  function EstimateAmount(b: Budget, e: Estimate): Option<I64> {
    if b.metric.MoneyMicros? then
      if e.rateCard.None? then None else MoneyAmount(b, e.cost)
    else
      MetricAmount(b, e.workload, e.quantities, e.cost)
  }

  function UsageAmount(b: Budget, e: UsageEvent): Option<I64> {
    if b.metric.MoneyMicros? then MoneyAmount(b, e.cost)
    else MetricAmount(b, e.workload, e.quantities, e.cost)
  }

  predicate AppliesTo(b: Budget, provider: ProviderId) {
    match b.scope
    case Global => true
    case Provider(id) => id == Some(provider)
  }

  // ---- Exact sums ----

  function KnownAmount(amount: Option<I64>): nat {
    if amount.Some? then Max(amount.value, 0) else 0
  }

  /** What one event adds to a budget: nothing when it does not apply or is unknown. */
  function EventWeight(b: Budget, e: UsageEvent): nat {
    if AppliesTo(b, e.provider) then KnownAmount(UsageAmount(b, e)) else 0
  }

  function ExactUsage(b: Budget, events: seq<UsageEvent>): nat {
    if events == [] then 0 else EventWeight(b, events[0]) + ExactUsage(b, events[1..])
  }

  predicate UnknownUsage(b: Budget, events: seq<UsageEvent>) {
    exists i :: 0 <= i < |events| && AppliesTo(b, events[i].provider) && UsageAmount(b, events[i]).None?
  }

  function EstimateWeight(b: Budget, e: Estimate): nat {
    if AppliesTo(b, e.provider) then KnownAmount(EstimateAmount(b, e)) else 0
  }

  function ExactEstimate(b: Budget, estimates: seq<Estimate>): nat {
    if estimates == [] then 0 else EstimateWeight(b, estimates[0]) + ExactEstimate(b, estimates[1..])
  }

  predicate Touches(b: Budget, estimates: seq<Estimate>) {
    exists i :: 0 <= i < |estimates| && AppliesTo(b, estimates[i].provider)
  }

  predicate UnknownEstimate(b: Budget, estimates: seq<Estimate>) {
    exists i :: 0 <= i < |estimates| && AppliesTo(b, estimates[i].provider) && EstimateAmount(b, estimates[i]).None?
  }

  /** The job's ledger rows after a boundary, newest first as the repository lists them. */
  function CycleEvents(ledger: seq<UsageEvent>, job: JobId, start: nat): seq<UsageEvent> {
    if |ledger| <= start then []
    else
      var last := |ledger| - 1;
      (if ledger[last].job == Some(job) then [ledger[last]] else []) + CycleEvents(ledger[..last], job, start)
  }

  /** The sum of a weight over every stored reservation. */
  function Total(rs: seq<Reservation>, weight: Reservation -> int): int {
    if rs == [] then 0 else Total(rs[..|rs| - 1], weight) + weight(rs[|rs| - 1])
  }

  /** What a reservation withholds from a budget while it is active. */
  function ActiveWeight(b: BudgetId): Reservation -> int {
    (r: Reservation) => if r.status.Active? && b in r.allocations then r.allocations[b].reserved else 0
  }

  /** What a reconciled reservation was charged. */
  function ActualWeight(b: BudgetId): Reservation -> int {
    (r: Reservation) =>
      if r.status.Reconciled? && b in r.allocations then r.allocations[b].actual.GetOr(0) else 0
  }

  /** What one job has committed to a per-job budget: charges plus what is still withheld. */
  function JobWeight(job: JobId, b: BudgetId): Reservation -> int {
    (r: Reservation) => if r.job == job then ActiveWeight(b)(r) + ActualWeight(b)(r) else 0
  }

  // ---- Admission ----

  /** A budget that stops admission outright: hard, touched, and impossible to estimate. */
  predicate Unestimable(b: Budget, allowOverride: bool, estimates: seq<Estimate>) {
    b.enabled && Touches(b, estimates) && UnknownEstimate(b, estimates) && b.hard && !allowOverride
  }

  predicate PlanRefused(budgets: seq<Budget>, allowOverride: bool, estimates: seq<Estimate>) {
    exists k :: 0 <= k < |budgets| && Unestimable(budgets[k], allowOverride, estimates)
  }

  /** The amount admission reserves for a budget: the capped sum, or zero when it is unknown. */
  function PlannedAmount(b: Budget, estimates: seq<Estimate>): I64 {
    if UnknownEstimate(b, estimates) then 0 else Cap(ExactEstimate(b, estimates))
  }

  function PlannedAllocations(budgets: seq<Budget>, estimates: seq<Estimate>): map<BudgetId, Allocation> {
    map k: nat | k < |budgets| && budgets[k].enabled && Touches(budgets[k], estimates)
      :: Allocation(PlannedAmount(budgets[k], estimates), None)
  }

  function Remaining(limit: I64, used: I64, reserved: I64): I64 {
    SaturatingSub(SaturatingSub(limit, used), reserved)
  }

  /** Whether one allocation fits. The repository sums in 64 bits and fails when that overflows. */
  predicate AllocationFits(s: State, job: JobId, b: BudgetId, amount: I64) {
    && b < |s.budgets| && b < |s.used|
    && s.budgets[b].enabled
    && match s.budgets[b].period
       case Lifetime =>
         var reserved := Total(s.reservations, ActiveWeight(b));
         FitsI64(reserved) && (s.budgets[b].hard ==> amount <= Remaining(s.budgets[b].limit, s.used[b], reserved))
       case PerJob =>
         var committed := Total(s.reservations, JobWeight(job, b));
         FitsI64(committed) && (s.budgets[b].hard ==> amount <= SaturatingSub(s.budgets[b].limit, Max(committed, 0)))
  }

  predicate HasActive(rs: seq<Reservation>, job: JobId) {
    exists i :: 0 <= i < |rs| && rs[i].job == job && rs[i].status.Active?
  }

  predicate CanReserve(s: State, job: JobId, allocations: map<BudgetId, Allocation>, enforce: bool) {
    && allocations.Keys != {}
    && (forall b :: b in allocations ==> allocations[b].reserved >= 0 && b < |s.budgets|)
    && (enforce ==> forall b :: b in allocations ==> AllocationFits(s, job, b, allocations[b].reserved))
    && !HasActive(s.reservations, job)
  }

  function NewReservation(s: State, job: JobId, allocations: map<BudgetId, Allocation>): Reservation {
    Reservation(job, Active, allocations, s.clock, |s.ledger|, None)
  }

  function Reserve(s: State, job: JobId, allocations: map<BudgetId, Allocation>): State {
    s.(reservations := s.reservations + [NewReservation(s, job, allocations)])
  }

  /** Admits a new job: reserves every touched budget, or leaves the state as it was. */
  function Admit(s: State, job: JobId, allowOverride: bool, estimates: seq<Estimate>): State {
    if job in s.jobs || PlanRefused(s.budgets, allowOverride, estimates) then s
    else
      var allocations := PlannedAllocations(s.budgets, estimates);
      if allocations == map[] then
        s.(jobs := s.jobs[job := Job(Queued, allowOverride, None, None)])
      else if CanReserve(s, job, allocations, !allowOverride) then
        Reserve(s, job, allocations).(jobs := s.jobs[job := Job(Queued, allowOverride, Some(|s.reservations|), None)])
      else s
  }

  // ---- Dispatch check ----

  predicate GuardsDispatch(b: Budget, estimate: Estimate) {
    b.enabled && b.hard && AppliesTo(b, estimate.provider)
  }

  /** A reservation that covers one more request for a budget. */
  predicate Covers(b: Budget, id: BudgetId, r: Reservation, events: seq<UsageEvent>, estimate: Estimate) {
    && id in r.allocations
    && EstimateAmount(b, estimate).Some?
    && !UnknownUsage(b, events)
    && SaturatingAdd(Cap(ExactUsage(b, events)), EstimateWeight(b, estimate)) <= r.allocations[id].reserved
  }

  predicate DispatchAllowed(s: State, job: JobId, estimate: Estimate) {
    && job in s.jobs
    && (s.jobs[job].allowOverride
        || forall k :: 0 <= k < |s.budgets| && GuardsDispatch(s.budgets[k], estimate) ==>
             DispatchCovered(s, s.jobs[job].reservation, job, k, estimate))
  }

  predicate DispatchCovered(s: State, id: Option<ReservationId>, job: JobId, k: nat, estimate: Estimate)
    requires k < |s.budgets|
  {
    && id.Some? && id.value < |s.reservations|
    && s.reservations[id.value].status.Active?
    && var r := s.reservations[id.value];
       Covers(s.budgets[k], k, r, CycleEvents(s.ledger, job, r.start), estimate)
  }

  // ---- Settlement ----

  /** What settlement charges: the known usage, or at least the whole reservation when some of the
      usage is unknown. */
  function Charge(b: Budget, events: seq<UsageEvent>, reserved: I64): I64 {
    var known := Cap(ExactUsage(b, events));
    if UnknownUsage(b, events) then Max(known, reserved) else known
  }

  function ChargedAllocations(budgets: seq<Budget>, allocations: map<BudgetId, Allocation>, events: seq<UsageEvent>)
    : map<BudgetId, Allocation>
  {
    map b | b in allocations ::
      if b < |budgets| then
        allocations[b].(actual := Some(Charge(budgets[b], events, allocations[b].reserved)))
      else allocations[b]
  }

  function UsedAfter(s: State, allocations: map<BudgetId, Allocation>): seq<I64> {
    seq(|s.used|, b requires 0 <= b < |s.used| =>
      if b in allocations && b < |s.budgets| && s.budgets[b].period.Lifetime?
      then SaturatingAdd(s.used[b], allocations[b].actual.GetOr(0))
      else s.used[b])
  }

  function Reconcile(s: State, id: ReservationId, events: seq<UsageEvent>): State
    requires id < |s.reservations|
  {
    var r := s.reservations[id];
    var charged := ChargedAllocations(s.budgets, r.allocations, events);
    s.(used := UsedAfter(s, charged),
       reservations := s.reservations[id := r.(status := Reconciled, allocations := charged,
                                               settledAt := Some(|s.ledger|))])
  }

  function Release(s: State, id: ReservationId): State
    requires id < |s.reservations|
  {
    s.(reservations := s.reservations[id := s.reservations[id].(status := Released, settledAt := Some(|s.ledger|))])
  }

  predicate SuccessfulSince(attempts: seq<Attempt>, job: JobId, time: nat) {
    exists i :: 0 <= i < |attempts| && attempts[i].job == job && attempts[i].success && time <= attempts[i].finishedAt
  }

  /** A terminal job whose reservation still has to be settled. */
  predicate Settleable(s: State, job: JobId) {
    && job in s.jobs && s.jobs[job].state.IsTerminal()
    && s.jobs[job].reservation.Some?
    && s.jobs[job].reservation.value < |s.reservations|
    && var status := s.reservations[s.jobs[job].reservation.value].status;
       status.Active? || status.Expired?
  }

  function Finalize(s: State, job: JobId): State {
    if !Settleable(s, job) then s
    else
      var id := s.jobs[job].reservation.value;
      var r := s.reservations[id];
      var events := CycleEvents(s.ledger, job, r.start);
      if events != [] then
        if forall b :: b in r.allocations ==> b < |s.budgets| then Reconcile(s, id, events) else s
      else if SuccessfulSince(s.attempts, job, r.createdAt) then s
      else Release(s, id)
  }

  // ---- Retry ----

  predicate PredecessorOpen(s: State, job: JobId)
    requires job in s.jobs
  {
    && s.jobs[job].reservation.Some?
    && s.jobs[job].reservation.value < |s.reservations|
    && var status := s.reservations[s.jobs[job].reservation.value].status;
       status.Active? || status.Expired?
  }

  /** Opens a fresh admission cycle for a failed job, after settling its previous one. */
  function Retry(s0: State, job: JobId, estimates: seq<Estimate>): State {
    if job !in s0.jobs || !s0.jobs[job].state.Failed? then s0
    else
      var s := Finalize(s0, job);
      if PlanRefused(s.budgets, s.jobs[job].allowOverride, estimates) || PredecessorOpen(s, job) then s
      else
        var allocations := PlannedAllocations(s.budgets, estimates);
        var queued := s.jobs[job].(state := Queued);
        if allocations == map[] then
          s.(jobs := s.jobs[job := queued.(reservation := None)])
        else if CanReserve(s, job, allocations, !queued.allowOverride) then
          Reserve(s, job, allocations).(jobs := s.jobs[job := queued.(reservation := Some(|s.reservations|))])
        else s
  }
}

/** Where the safety theorems stop: the conditions under which the service's checks are exact, and concrete
    runs in which it overspends, or charges less than was used, although every single check passes. */
module BudgetLimits {
  import opened Bounded
  import opened Wrappers
  import opened Accounting
  import opened BudgetRuns
  import opened BudgetSafety
  import opened LedgerLemmas
  import opened Settlement
  import opened BudgetUsage

  // ---- When the checks are exact ----

  /** Whatever a passed dispatch check has seen and projected, their exact sum is within the reservation. */
  ghost predicate CheckIsExact(reserved: I64) {
    forall consumed: nat, projected: I64 ::
      projected >= 0 && SaturatingAdd(Cap(consumed), projected) <= reserved ==> consumed + projected <= reserved
  }

  /** The saturating check is exact for every reservation but the largest one. */
  lemma CheckIsExactIff(reserved: I64)
    ensures CheckIsExact(reserved) <==> reserved < I64_MAX
  {
    if reserved == I64_MAX {
      assert SaturatingAdd(Cap(I64_MAX + 1), 0) <= reserved;
    }
  }

  /** In every reachable state saturation never decides an admission: an amount fits a hard budget if and only
      if it is within the limit together with all that is used and actively reserved, of everyone for a
      lifetime budget and of the job for a per-job one. */
  lemma CapacityIsExact(s0: State, s: State, job: JobId, b: BudgetId, amount: I64)
    requires WellFormed(s) && Balanced(s0, s) && b < |s.budgets| && amount >= 0
    requires s.budgets[b].hard && s.budgets[b].enabled
    ensures var reserved := Total(s.reservations, ActiveWeight(b));
            s.budgets[b].period.Lifetime? ==>
              (AllocationFits(s, job, b, amount) <==>
                 reserved <= I64_MAX && s.used[b] + reserved + amount <= s.budgets[b].limit)
    ensures var committed := Total(s.reservations, JobWeight(job, b));
            s.budgets[b].period.PerJob? ==>
              (AllocationFits(s, job, b, amount) <==>
                 committed <= I64_MAX && committed + amount <= s.budgets[b].limit)
  {
    assert forall i :: 0 <= i < |s.reservations| ==> ReservationOk(s, s.reservations[i]);
    ChargesAreNonNegative(s, b);
    TotalNonNegative(s.reservations, ActiveWeight(b));
    forall i | 0 <= i < |s.reservations|
      ensures JobWeight(job, b)(s.reservations[i]) >= 0
    {
      assert ActiveWeight(b)(s.reservations[i]) >= 0 && ActualWeight(b)(s.reservations[i]) >= 0;
    }
    TotalNonNegative(s.reservations, JobWeight(job, b));
  }

  /** Whatever a lifetime budget admits still fits beside all that open reservations may be charged. */
  ghost predicate AdmissionIsExact(s: State, job: JobId, b: BudgetId)
    requires b < |s.budgets| && b < |s.used|
  {
    forall amount: I64 :: amount >= 0 && AllocationFits(s, job, b, amount) ==>
      s.used[b] + Total(s.reservations, OpenWeight(b)) + amount <= s.budgets[b].limit
  }

  /** The capacity check is exact if and only if no expired reservation still waits to be charged. */
  lemma AdmissionIsExactIff(s: State, job: JobId, b: BudgetId)
    requires WellFormed(s) && b < |s.budgets|
    requires s.budgets[b].hard && s.budgets[b].enabled && s.budgets[b].period.Lifetime?
    requires s.used[b] + Total(s.reservations, OpenWeight(b)) <= s.budgets[b].limit
    ensures AdmissionIsExact(s, job, b) <==> Total(s.reservations, ExpiredWeight(b)) == 0
  {
    var active, expired := Total(s.reservations, ActiveWeight(b)), Total(s.reservations, ExpiredWeight(b));
    assert forall i :: 0 <= i < |s.reservations| ==> ReservationOk(s, s.reservations[i]);
    TotalNonNegative(s.reservations, ActiveWeight(b));
    TotalNonNegative(s.reservations, ExpiredWeight(b));
    TotalSplits(s.reservations, OpenWeight(b), ActiveWeight(b), ExpiredWeight(b));
    if expired > 0 {
      assert AllocationFits(s, job, b, s.budgets[b].limit - s.used[b] - active);
    }
  }

  /** A retry under a request still in flight leaves room for it if and only if what it reserves anew is
      enough for it, or it reserves nothing of that budget. */
  lemma RetryCoversIff(s: State, job: JobId, estimates: seq<Estimate>, b: BudgetId, estimate: Estimate)
    requires job in s.jobs && s.jobs[job].state.Failed? && b < |s.budgets|
    requires job in Retry(s, job, estimates).jobs && Retry(s, job, estimates).jobs[job].state.Queued?
    ensures var allocations := PlannedAllocations(s.budgets, estimates);
            HasRoom(Retry(s, job, estimates), job, b, estimate) <==>
                b !in allocations || EstimateWeight(s.budgets[b], estimate) <= allocations[b].reserved
  {
    var t := Retry(s, job, estimates);
    assert Finalize(s, job).jobs == s.jobs && Finalize(s, job).budgets == s.budgets;
    if PlannedAllocations(s.budgets, estimates) != map[] {
      var r := t.reservations[t.jobs[job].reservation.value];
      assert Open(r) && CycleEvents(t.ledger, job, r.start) == [];
      assert ExactUsage(s.budgets[b], []) == 0;
    }
  }

  // ---- What a run can reach ----

  /** Careful towards the first budget, but for retries under a request, and free to open a cycle over
      expired work. */
  predicate Careless(s: State, step: Step) {
    step.RetryJob? || Careful(s, step, 0)
  }

  predicate CarelessRun(s: State, steps: seq<Step>) {
    steps == []
    || (&& CarelessRun(s, steps[..|steps| - 1])
        && Careless(Run(s, steps[..|steps| - 1]), steps[|steps| - 1]))
  }

  /** Some careless run leads from one state to the other. */
  ghost predicate Reaches(s0: State, t: State) {
    exists steps :: CarelessRun(s0, steps) && Run(s0, steps) == t
  }

  lemma ReachesNext(s0: State, s: State, step: Step)
    requires Reaches(s0, s) && Careless(s, step)
    ensures Reaches(s0, Apply(s, step))
  {
    var steps :| CarelessRun(s0, steps) && Run(s0, steps) == s;
    assert (steps + [step])[..|steps|] == steps;
    assert CarelessRun(s0, steps + [step]) && Run(s0, steps + [step]) == Apply(s, step);
  }

  /** Some disciplined run leads from one state to the other. */
  ghost predicate SafelyReaches(s0: State, t: State) {
    exists steps :: DisciplinedRun(s0, steps, 0) && Run(s0, steps) == t
  }

  lemma SafelyReachesNext(s0: State, s: State, step: Step)
    requires SafelyReaches(s0, s) && Disciplined(s, step, 0)
    ensures SafelyReaches(s0, Apply(s, step))
  {
    var steps :| DisciplinedRun(s0, steps, 0) && Run(s0, steps) == s;
    assert (steps + [step])[..|steps|] == steps;
    assert DisciplinedRun(s0, steps + [step], 0) && Run(s0, steps + [step]) == Apply(s, step);
  }

  /** The same for a step that opens no cycle. */
  lemma SafelyReachesBy(s0: State, s: State, step: Step, t: State)
    requires SafelyReaches(s0, s) && Careful(s, step, 0)
    requires Apply(s, step) == t && |t.reservations| == |s.reservations|
    ensures SafelyReaches(s0, t)
  {
    SafelyReachesNext(s0, s, step);
  }

  // ---- One budget of characters ----

  function Chars(n: U64): Quantities {
    Quantities(Some(n), None, None, None, None, None, None)
  }

  function CharEstimate(n: U64): Estimate {
    Estimate(0, Tts, Chars(n), None, None)
  }

  function CharEvent(job: JobId, n: U64): UsageEvent {
    UsageEvent(Some(job), 0, Tts, Chars(n), None)
  }

  function CharBudget(limit: I64): Budget {
    Budget(Global, Lifetime, Characters, None, limit, true, true)
  }

  function Start(limit: I64): State {
    State([CharBudget(limit)], [0], [], map[], [], [], 0)
  }

  function Held(job: JobId, n: I64, status: Status, start: nat, created: nat): Reservation {
    Reservation(job, status, map[0 := Allocation(n, None)], created, start, None)
  }

  lemma AmountsAreCharacters(limit: I64, job: JobId, n: U64)
    requires n <= I64_MAX
    ensures EstimateAmount(CharBudget(limit), CharEstimate(n)) == Some(n)
    ensures UsageAmount(CharBudget(limit), CharEvent(job, n)) == Some(n)
  {
  }

  lemma PlanForOne(limit: I64, n: I64)
    requires n >= 0
    ensures !PlanRefused([CharBudget(limit)], false, [CharEstimate(n)])
    ensures PlannedAllocations([CharBudget(limit)], [CharEstimate(n)]) == map[0 := Allocation(n, None)]
  {
    var estimates := [CharEstimate(n)];
    assert estimates[0] == CharEstimate(n) && estimates[1..] == [];
    assert Touches(CharBudget(limit), estimates);
    AmountsAreCharacters(limit, 0, n);
    assert ExactEstimate(CharBudget(limit), estimates) == n;
  }

  lemma OneFits(s: State, job: JobId, n: I64)
    requires |s.budgets| == 1 && |s.used| == 1 && AllocationFits(s, job, 0, n)
    requires n >= 0 && !HasActive(s.reservations, job)
    ensures CanReserve(s, job, map[0 := Allocation(n, None)], true)
  {
    var allocations := map[0 := Allocation(n, None)];
    assert 0 in allocations.Keys;
  }

  // ---- A first job ----

  function Queue(id: ReservationId, inFlight: Option<Estimate>): Job {
    Job(Queued, false, Some(id), inFlight)
  }

  /** The service after a first job was admitted for `n` characters. */
  function First(limit: I64, n: I64, inFlight: Option<Estimate>): State {
    Start(limit).(reservations := [Held(0, n, Active, 0, 0)], jobs := map[0 := Queue(0, inFlight)])
  }

  lemma {:induction false} NothingExpiredIn(rs: seq<Reservation>)
    requires forall i :: 0 <= i < |rs| ==> !rs[i].status.Expired?
    ensures Total(rs, ExpiredWeight(0)) == 0
  {
    if rs == [] {
    } else {
      NothingExpiredIn(rs[..|rs| - 1]);
    }
  }

  lemma FirstIsAdmitted(limit: I64, n: I64)
    requires 0 <= n <= limit
    ensures Apply(Start(limit), AdmitJob(0, false, [CharEstimate(n)])) == First(limit, n, None)
    ensures Disciplined(Start(limit), AdmitJob(0, false, [CharEstimate(n)]), 0)
  {
    var s := Start(limit);
    PlanForOne(limit, n);
    assert AllocationFits(s, 0, 0, n);
    OneFits(s, 0, n);
    NothingExpiredIn(First(limit, n, None).reservations);
  }

  lemma FirstIsChecked(limit: I64, n: I64)
    requires 0 <= n <= limit
    ensures Apply(First(limit, n, None), CheckDispatch(0, CharEstimate(n))) == First(limit, n, Some(CharEstimate(n)))
  {
    var a := First(limit, n, None);
    AmountsAreCharacters(limit, 0, n);
    assert CycleEvents(a.ledger, 0, 0) == [];
    assert DispatchCovered(a, Some(0), 0, 0, CharEstimate(n));
    assert DispatchAllowed(a, 0, CharEstimate(n));
  }

  lemma FirstIsRecorded(limit: I64, n: I64)
    requires 0 <= n <= limit
    ensures Disciplined(First(limit, n, Some(CharEstimate(n))), RecordUsage(CharEvent(0, n)), 0)
  {
    AmountsAreCharacters(limit, 0, n);
  }

  lemma FirstIsInFlight(limit: I64, n: I64)
    requires 0 <= n <= limit
    ensures SafelyReaches(Start(limit), First(limit, n, Some(CharEstimate(n))))
  {
    var s := Start(limit);
    assert DisciplinedRun(s, [], 0) && Run(s, []) == s;
    FirstIsAdmitted(limit, n);
    SafelyReachesNext(s, s, AdmitJob(0, false, [CharEstimate(n)]));
    FirstIsChecked(limit, n);
    SafelyReachesNext(s, First(limit, n, None), CheckDispatch(0, CharEstimate(n)));
  }

  /** The service after the first job's whole reservation was used and reported. */
  function Used(limit: I64, n: I64, inFlight: Option<Estimate>): State
    requires n >= 0
  {
    First(limit, n, inFlight).(ledger := [CharEvent(0, n)])
  }

  lemma FirstIsUsed(limit: I64, n: I64)
    requires 0 <= n <= limit
    ensures SafelyReaches(Start(limit), Used(limit, n, None))
  {
    FirstIsInFlight(limit, n);
    FirstIsRecorded(limit, n);
    SafelyReachesNext(Start(limit), First(limit, n, Some(CharEstimate(n))), RecordUsage(CharEvent(0, n)));
    assert Apply(First(limit, n, Some(CharEstimate(n))), RecordUsage(CharEvent(0, n))) == Used(limit, n, None);
  }

  // ---- The largest reservation ----

  lemma OneMoreIsLetThrough()
    ensures Apply(Used(I64_MAX, I64_MAX, None), CheckDispatch(0, CharEstimate(1)))
         == Used(I64_MAX, I64_MAX, Some(CharEstimate(1)))
    ensures Disciplined(Used(I64_MAX, I64_MAX, Some(CharEstimate(1))), RecordUsage(CharEvent(0, 1)), 0)
  {
    var s := Used(I64_MAX, I64_MAX, None);
    var b := CharBudget(I64_MAX);
    assert CycleEvents(s.ledger, 0, 0) == [CharEvent(0, I64_MAX)];
    AmountsAreCharacters(I64_MAX, 0, I64_MAX);
    AmountsAreCharacters(I64_MAX, 0, 1);
    assert [CharEvent(0, I64_MAX)][1..] == [];
    assert ExactUsage(b, [CharEvent(0, I64_MAX)]) == I64_MAX;
    assert DispatchCovered(s, Some(0), 0, 0, CharEstimate(1));
    assert DispatchAllowed(s, 0, CharEstimate(1));
  }

  /** An active reservation whose own rows use more of it than it holds. */
  predicate Overruns(t: State) {
    && |t.budgets| == 1 && |t.reservations| == 1
    && t.reservations[0].status.Active? && 0 in t.reservations[0].allocations
    && ExactUsage(t.budgets[0], CycleEvents(t.ledger, 0, 0)) > t.reservations[0].allocations[0].reserved
  }

  /** With the largest reservation the saturating check can no longer see an overrun: a disciplined
      run records more than was reserved. So the bound in ConsumedWithinAllocation is needed. */
  lemma LargestReservationCanBeExceeded()
    ensures exists t :: SafelyReaches(Start(I64_MAX), t) && Overruns(t)
  {
    var s := Start(I64_MAX);
    FirstIsUsed(I64_MAX, I64_MAX);
    OneMoreIsLetThrough();
    SafelyReachesNext(s, Used(I64_MAX, I64_MAX, None), CheckDispatch(0, CharEstimate(1)));
    var c := Used(I64_MAX, I64_MAX, Some(CharEstimate(1)));
    SafelyReachesNext(s, c, RecordUsage(CharEvent(0, 1)));
    OverrunUsage();
    assert Overruns(Apply(c, RecordUsage(CharEvent(0, 1))));
  }

  lemma OverrunUsage()
    ensures ExactUsage(CharBudget(I64_MAX), CycleEvents([CharEvent(0, I64_MAX)] + [CharEvent(0, 1)], 0, 0))
        == I64_MAX + 1
  {
    var b, first, second := CharBudget(I64_MAX), CharEvent(0, I64_MAX), CharEvent(0, 1);
    var ledger := [first] + [second];
    assert ledger[..1] == [first];
    assert CycleEvents([first], 0, 0) == [first];
    assert CycleEvents(ledger, 0, 0) == [second] + [first];
    assert ([second] + [first])[1..] == [first] && [first][1..] == [];
    AmountsAreCharacters(I64_MAX, 0, I64_MAX);
    AmountsAreCharacters(I64_MAX, 0, 1);
    assert ExactUsage(b, [first]) == I64_MAX;
  }

  lemma {:induction false} SafeRunsAreCareless(s: State, steps: seq<Step>)
    requires DisciplinedRun(s, steps, 0)
    ensures CarelessRun(s, steps)
  {
    if steps == [] {
    } else {
      SafeRunsAreCareless(s, steps[..|steps| - 1]);
    }
  }

  lemma SafelyReachesReaches(s0: State, t: State)
    requires SafelyReaches(s0, t)
    ensures Reaches(s0, t)
  {
    var steps :| DisciplinedRun(s0, steps, 0) && Run(s0, steps) == t;
    SafeRunsAreCareless(s0, steps);
  }

  // ---- Expiry ----

  /** The first job's ten characters are reported and its reservation has expired. */
  function Stalled(): State {
    Used(10, 10, None).(reservations := [Held(0, 10, Expired, 0, 0)], clock := SEVEN_DAYS)
  }

  /** A second job was admitted for ten characters more. */
  function Second(inFlight: Option<Estimate>): State {
    Stalled().(reservations := [Held(0, 10, Expired, 0, 0), Held(1, 10, Active, 1, SEVEN_DAYS)],
               jobs := map[0 := Queue(0, None), 1 := Queue(1, inFlight)])
  }

  function BothRows(): seq<UsageEvent> {
    [CharEvent(0, 10), CharEvent(1, 10)]
  }

  function SecondUsed(): State {
    Second(None).(ledger := BothRows())
  }

  lemma UsedExpires()
    ensures Apply(Used(10, 10, None), Tick(SEVEN_DAYS)) == Stalled()
  {
    assert ExpireStale(Used(10, 10, None).reservations, SEVEN_DAYS) == [Held(0, 10, Expired, 0, 0)];
  }

  lemma FirstExpires()
    ensures Reaches(Start(10), Stalled())
  {
    FirstIsUsed(10, 10);
    SafelyReachesReaches(Start(10), Used(10, 10, None));
    UsedExpires();
    ReachesNext(Start(10), Used(10, 10, None), Tick(SEVEN_DAYS));
  }

  lemma SecondIsAdmitted()
    ensures Apply(Stalled(), AdmitJob(1, false, [CharEstimate(10)])) == Second(None)
  {
    var e := Stalled();
    PlanForOne(10, 10);
    assert Total(e.reservations[..0], ActiveWeight(0)) == 0;
    assert Total(e.reservations, ActiveWeight(0)) == 0;
    assert AllocationFits(e, 1, 0, 10);
    OneFits(e, 1, 10);
  }

  lemma SecondIsChecked()
    ensures Apply(Second(None), CheckDispatch(1, CharEstimate(10))) == Second(Some(CharEstimate(10)))
  {
    var a := Second(None);
    AmountsAreCharacters(10, 1, 10);
    assert CycleEvents(a.ledger, 1, 1) == [];
    assert DispatchCovered(a, Some(1), 1, 0, CharEstimate(10));
    assert DispatchAllowed(a, 1, CharEstimate(10));
  }

  lemma SecondIsRecorded()
    ensures Careful(Second(Some(CharEstimate(10))), RecordUsage(CharEvent(1, 10)), 0)
    ensures Apply(Second(Some(CharEstimate(10))), RecordUsage(CharEvent(1, 10))) == SecondUsed()
  {
    AmountsAreCharacters(10, 1, 10);
    assert [CharEvent(0, 10)] + [CharEvent(1, 10)] == BothRows();
  }

  lemma SecondIsUsed()
    ensures Reaches(Start(10), SecondUsed())
  {
    FirstExpires();
    SecondIsAdmitted();
    ReachesNext(Start(10), Stalled(), AdmitJob(1, false, [CharEstimate(10)]));
    SecondIsChecked();
    ReachesNext(Start(10), Second(None), CheckDispatch(1, CharEstimate(10)));
    SecondIsRecorded();
    ReachesNext(Start(10), Second(Some(CharEstimate(10))), RecordUsage(CharEvent(1, 10)));
  }

  /** A failed job whose ten characters are still to be charged. */
  predicate AwaitsCharge(s: State, job: JobId) {
    && s.budgets == [CharBudget(10)] && |s.used| == 1 && 0 <= s.used[0] <= 10
    && job <= 1 && |s.reservations| == 2 && Open(s.reservations[job])
    && s.reservations[job].allocations == map[0 := Allocation(10, None)] && s.reservations[job].start == job
    && s.ledger == BothRows()
    && job in s.jobs && s.jobs[job] == Queue(job, None).(state := Failed)
  }

  lemma {:induction false} UsageOfCycle(job: JobId)
    requires job <= 1
    ensures CycleEvents(BothRows(), job, job) == [CharEvent(job, 10)]
    ensures ExactUsage(CharBudget(10), [CharEvent(job, 10)]) == 10
    ensures !UnknownUsage(CharBudget(10), [CharEvent(job, 10)])
  {
    var ledger := BothRows();
    assert ledger[..1] == [CharEvent(0, 10)] && ledger[..1][..0] == [];
    assert CycleEvents(ledger[..1], job, job) == if job == 0 then [CharEvent(0, 10)] else [];
    AmountsAreCharacters(10, job, 10);
    assert [CharEvent(job, 10)][1..] == [];
  }

  /** Settling a failed job charges its ten characters and leaves the other one waiting. */
  lemma SettlingChargesTen(s: State, job: JobId)
    requires AwaitsCharge(s, job)
    ensures Finalize(s, job).used == [s.used[0] + 10]
    ensures AwaitsCharge(s, 1 - job) && s.used[0] == 0 ==> AwaitsCharge(Finalize(s, job), 1 - job)
  {
    UsageOfCycle(job);
    assert Settleable(s, job);
    assert Finalize(s, job) == Reconcile(s, job, [CharEvent(job, 10)]);
  }

  lemma BothFail(t: State)
    requires t == Apply(Apply(SecondUsed(), MoveJob(0, Failed)), MoveJob(1, Failed))
    ensures AwaitsCharge(t, 0) && AwaitsCharge(t, 1) && t.used == [0]
  {
  }

  /** A reservation that expires frees its capacity while its usage is still to be charged, so two
      jobs that each pass every check can spend twice the hard limit. The safety theorems therefore
      ask that nothing is admitted over expired work. */
  lemma ExpiryCanOverspend()
    ensures exists t :: Reaches(Start(10), t) && t.used == [20]
  {
    var s := Start(10);
    SecondIsUsed();
    ReachesNext(s, SecondUsed(), MoveJob(0, Failed));
    var half := Apply(SecondUsed(), MoveJob(0, Failed));
    ReachesNext(s, half, MoveJob(1, Failed));
    var failed := Apply(half, MoveJob(1, Failed));
    BothFail(failed);
    SettleBoth(s, failed);
  }

  lemma SettleBoth(s0: State, failed: State)
    requires Reaches(s0, failed) && AwaitsCharge(failed, 0) && AwaitsCharge(failed, 1) && failed.used == [0]
    ensures exists t :: Reaches(s0, t) && t.used == [20]
  {
    SettlingBothChargesTwenty(failed);
    SettlingIsReached(s0, failed, 0);
    SettlingIsReached(s0, Finalize(failed, 0), 1);
  }

  lemma SettlingBothChargesTwenty(failed: State)
    requires AwaitsCharge(failed, 0) && AwaitsCharge(failed, 1) && failed.used == [0]
    ensures Finalize(Finalize(failed, 0), 1).used == [20]
  {
    SettlingChargesTen(failed, 0);
    var half := Finalize(failed, 0);
    SettlingChargesTen(half, 1);
  }

  lemma SettlingIsReached(s0: State, s: State, job: JobId)
    requires Reaches(s0, s)
    ensures Reaches(s0, Finalize(s, job))
  {
    assert Apply(s, SettleJob(job)) == Finalize(s, job);
    ReachesNext(s0, s, SettleJob(job));
  }

  // ---- A retry under a request in flight ----

  /** The first job, failed while its ten characters are still in flight. */
  function FailedInFlight(): State {
    First(10, 10, None).(jobs := map[0 := Job(Failed, false, Some(0), Some(CharEstimate(10)))])
  }

  /** The same after a retry for five characters. */
  function RetriedInFlight(): State {
    FailedInFlight().(
      reservations := [Held(0, 10, Released, 0, 0).(settledAt := Some(0)), Held(0, 5, Active, 0, 0)],
      jobs := map[0 := Queue(1, Some(CharEstimate(10)))])
  }

  lemma OldCycleIsReleased()
    ensures Finalize(FailedInFlight(), 0)
         == FailedInFlight().(reservations := [Held(0, 10, Released, 0, 0).(settledAt := Some(0))])
  {
    var s := FailedInFlight();
    assert CycleEvents(s.ledger, 0, 0) == [];
    assert Settleable(s, 0);
    assert Finalize(s, 0) == Release(s, 0);
  }

  lemma RetryOpensSmallerCycle()
    ensures Apply(FailedInFlight(), RetryJob(0, [CharEstimate(5)])) == RetriedInFlight()
  {
    PlanForOne(10, 5);
    OldCycleIsReleased();
    var f := Finalize(FailedInFlight(), 0);
    assert f.reservations[..0] == [] && Total(f.reservations, ActiveWeight(0)) == 0;
    assert AllocationFits(f, 0, 0, 5);
    OneFits(f, 0, 5);
  }

  /** A cycle of one job that holds five characters and has ten recorded in it. */
  predicate HoldsFiveUsesTen(t: State) {
    && |t.reservations| == 2 && t.reservations[1] == Held(0, 5, Active, 0, 0)
    && ExactUsage(CharBudget(10), CycleEvents(t.ledger, 0, 0)) == 10
  }

  lemma LateRowOverruns()
    ensures Careful(RetriedInFlight(), RecordUsage(CharEvent(0, 10)), 0)
    ensures HoldsFiveUsesTen(Apply(RetriedInFlight(), RecordUsage(CharEvent(0, 10))))
  {
    AmountsAreCharacters(10, 0, 10);
    assert [] + [CharEvent(0, 10)] == [CharEvent(0, 10)];
    assert CycleEvents([CharEvent(0, 10)], 0, 0) == [CharEvent(0, 10)];
    assert [CharEvent(0, 10)][1..] == [];
  }

  lemma FailedInFlightIsReached()
    ensures SafelyReaches(Start(10), FailedInFlight())
  {
    var c := First(10, 10, Some(CharEstimate(10)));
    FirstIsInFlight(10, 10);
    assert Apply(c, MoveJob(0, Failed)) == FailedInFlight();
    SafelyReachesBy(Start(10), c, MoveJob(0, Failed), FailedInFlight());
  }

  lemma RetriedInFlightIsReached()
    ensures Reaches(Start(10), RetriedInFlight())
  {
    FailedInFlightIsReached();
    SafelyReachesReaches(Start(10), FailedInFlight());
    RetryOpensSmallerCycle();
    ReachesNext(Start(10), FailedInFlight(), RetryJob(0, [CharEstimate(5)]));
  }

  /** A row that arrives after a retry is counted in the new cycle: ten characters recorded against a
      reservation of five. The safety theorems therefore ask that a retry under a request in flight
      covers it again. */
  lemma LateUsageCanOverrun()
    ensures exists t :: Reaches(Start(10), t) && HoldsFiveUsesTen(t)
  {
    RetriedInFlightIsReached();
    LateRowOverruns();
    ReachesNext(Start(10), RetriedInFlight(), RecordUsage(CharEvent(0, 10)));
  }

  // ---- A row that arrives after the settlement ----

  /** The first job is settled with its request in flight, and a second job may have been admitted. */
  function Settled(second: Option<Job>, ledger: seq<UsageEvent>): State {
    var first := Job(Failed, false, Some(0), Some(CharEstimate(10)));
    var released := Held(0, 10, Released, 0, 0).(settledAt := Some(0));
    Start(10).(
      reservations := [released] + if second.Some? then [Held(1, 10, Active, 0, 0)] else [],
      jobs := map[0 := first] + if second.Some? then map[1 := second.value] else map[],
      ledger := ledger)
  }

  lemma FirstIsSettled()
    ensures SafelyReaches(Start(10), Settled(None, []))
  {
    FailedInFlightIsReached();
    OldCycleIsReleased();
    assert Finalize(FailedInFlight(), 0) == Settled(None, []);
    SafelyReachesBy(Start(10), FailedInFlight(), SettleJob(0), Settled(None, []));
  }

  lemma SecondIsAdmittedAfter()
    ensures Apply(Settled(None, []), AdmitJob(1, false, [CharEstimate(10)])) == Settled(Some(Queue(1, None)), [])
  {
    var e := Settled(None, []);
    PlanForOne(10, 10);
    assert e.reservations[..0] == [] && Total(e.reservations, ActiveWeight(0)) == 0;
    assert AllocationFits(e, 1, 0, 10);
    OneFits(e, 1, 10);
  }

  lemma SecondIsAdmittedSafely()
    ensures SafelyReaches(Start(10), Settled(Some(Queue(1, None)), []))
  {
    FirstIsSettled();
    SecondIsAdmittedAfter();
    NothingExpiredIn(Settled(Some(Queue(1, None)), []).reservations);
    SafelyReachesNext(Start(10), Settled(None, []), AdmitJob(1, false, [CharEstimate(10)]));
  }

  lemma SecondPassesAfter()
    ensures Apply(Settled(Some(Queue(1, None)), []), CheckDispatch(1, CharEstimate(10)))
         == Settled(Some(Queue(1, Some(CharEstimate(10)))), [])
  {
    var a := Settled(Some(Queue(1, None)), []);
    AmountsAreCharacters(10, 1, 10);
    assert CycleEvents(a.ledger, 1, 0) == [];
    assert DispatchCovered(a, Some(1), 1, 0, CharEstimate(10));
  }

  lemma SecondIsCheckedAfter()
    ensures SafelyReaches(Start(10), Settled(Some(Queue(1, Some(CharEstimate(10)))), []))
  {
    SecondIsAdmittedSafely();
    SecondPassesAfter();
    SafelyReachesBy(Start(10), Settled(Some(Queue(1, None)), []), CheckDispatch(1, CharEstimate(10)),
                    Settled(Some(Queue(1, Some(CharEstimate(10)))), []));
  }

  lemma SecondReports()
    ensures var c := Settled(Some(Queue(1, Some(CharEstimate(10)))), []);
            && Apply(c, RecordUsage(CharEvent(1, 10))) == Settled(Some(Queue(1, None)), [CharEvent(1, 10)])
            && Careful(c, RecordUsage(CharEvent(1, 10)), 0)
  {
    AmountsAreCharacters(10, 1, 10);
    assert [] + [CharEvent(1, 10)] == [CharEvent(1, 10)];
  }

  lemma SecondIsUsedAfter()
    ensures SafelyReaches(Start(10), Settled(Some(Queue(1, None)), [CharEvent(1, 10)]))
  {
    var c, u := Settled(Some(Queue(1, Some(CharEstimate(10)))), []), Settled(Some(Queue(1, None)), [CharEvent(1, 10)]);
    SecondIsCheckedAfter();
    SecondReports();
    SafelyReachesBy(Start(10), c, RecordUsage(CharEvent(1, 10)), u);
  }

  /** The first job's row arrives last. */
  function LateRows(): seq<UsageEvent> {
    [CharEvent(1, 10), CharEvent(0, 10)]
  }

  function Late(second: JobState): State {
    Settled(Some(Queue(1, None).(state := second)), LateRows())
      .(jobs := map[0 := Job(Failed, false, Some(0), None), 1 := Queue(1, None).(state := second)])
  }

  lemma LateRowIsRecorded()
    ensures var u := Settled(Some(Queue(1, None)), [CharEvent(1, 10)]);
            Apply(u, RecordUsage(CharEvent(0, 10))) == Late(Queued) && !InCycle(u, 0, 0)
  {
    assert [CharEvent(1, 10)] + [CharEvent(0, 10)] == LateRows();
  }

  lemma LateRowArrives()
    ensures SafelyReaches(Start(10), Late(Queued))
  {
    SecondIsUsedAfter();
    LateRowIsRecorded();
    SafelyReachesBy(Start(10), Settled(Some(Queue(1, None)), [CharEvent(1, 10)]), RecordUsage(CharEvent(0, 10)),
                    Late(Queued));
  }

  lemma SecondMoves()
    ensures Apply(Late(Queued), MoveJob(1, Failed)) == Late(Failed)
  {
  }

  lemma SecondFails()
    ensures SafelyReaches(Start(10), Late(Failed))
  {
    LateRowArrives();
    SecondMoves();
    SafelyReachesBy(Start(10), Late(Queued), MoveJob(1, Failed), Late(Failed));
  }

  lemma SecondIsCharged()
    ensures var t := Finalize(Late(Failed), 1);
            && t.used == [10] && t.ledger == LateRows() && |t.reservations| == 2
            && forall i :: 0 <= i < |t.reservations| ==> !Open(t.reservations[i])
  {
    LateRowsUsage();
    assert Settleable(Late(Failed), 1);
    assert Finalize(Late(Failed), 1) == Reconcile(Late(Failed), 1, [CharEvent(1, 10)]);
  }

  lemma LateRowsUsage()
    ensures JobUsage(CharBudget(10), LateRows()) == 20
    ensures CycleEvents(LateRows(), 1, 0) == [CharEvent(1, 10)]
    ensures ExactUsage(CharBudget(10), [CharEvent(1, 10)]) == 10
    ensures !UnknownUsage(CharBudget(10), [CharEvent(1, 10)])
  {
    var rows := LateRows();
    AmountsAreCharacters(10, 0, 10);
    AmountsAreCharacters(10, 1, 10);
    assert rows[..1] == [CharEvent(1, 10)] && rows[..1][..0] == [];
    assert CycleEvents(rows[..1], 1, 0) == [CharEvent(1, 10)];
    assert [CharEvent(1, 10)][1..] == [];
  }

  /** A row that arrives after its cycle was settled is charged to nobody: a disciplined run records twice a
      hard limit, and when every job is settled only half of it has been charged. */
  lemma LateRowIsNeverCharged()
    ensures exists t :: SafelyReaches(Start(10), t) && t.used == [10] && JobUsage(CharBudget(10), t.ledger) == 20
                        && forall i :: 0 <= i < |t.reservations| ==> !Open(t.reservations[i])
  {
    SecondFails();
    SecondIsCharged();
    LateRowsUsage();
    SafelyReachesBy(Start(10), Late(Failed), SettleJob(1), Finalize(Late(Failed), 1));
  }
}

/** The accounting service as it runs: loops over budgets, estimates and ledger rows that update
    stored reservations in place. Each method is proved to do exactly what the rule of the same name
    in Accounting says. */
module BudgetService {
  import opened Bounded
  import opened Wrappers
  import opened Accounting
  import opened LedgerLemmas

  datatype DispatchError =
    | JobNotFound
    | NoReservation
    | ReservationNotFound
    | ReservationClosed
    | NotCovered(budget: BudgetId)
    | UnknownProjection(budget: BudgetId)
    | UnknownPriorUsage(budget: BudgetId)
    | WouldExceed(budget: BudgetId)
  {
    predicate NamesBudget() {
      NotCovered? || UnknownProjection? || UnknownPriorUsage? || WouldExceed?
    }
  }

  lemma {:induction false} ExactUsagePrefix(b: Budget, events: seq<UsageEvent>, i: nat)
    requires i < |events|
    ensures ExactUsage(b, events[..i + 1]) == ExactUsage(b, events[..i]) + EventWeight(b, events[i])
  {
    assert events[..i + 1] == events[..i] + [events[i]];
    ExactUsageConcat(b, events[..i], [events[i]]);
  }

  lemma {:induction false} ExactEstimatePrefix(b: Budget, estimates: seq<Estimate>, i: nat)
    requires i < |estimates|
    ensures ExactEstimate(b, estimates[..i + 1]) == ExactEstimate(b, estimates[..i]) + EstimateWeight(b, estimates[i])
  {
    assert estimates[..i + 1] == estimates[..i] + [estimates[i]];
    ExactEstimateConcat(b, estimates[..i], [estimates[i]]);
  }

  /** Sums the estimates of one budget; stops at the first applicable one that is unknown. */
  method BudgetAmount(b: Budget, estimates: seq<Estimate>) returns (touched: bool, amount: Option<I64>)
    ensures touched == Touches(b, estimates)
    ensures amount == if UnknownEstimate(b, estimates) then None else Some(Cap(ExactEstimate(b, estimates)))
  {
    touched := false;
    var total: I64 := 0;
    var known := true;
    for i := 0 to |estimates|
      invariant touched == Touches(b, estimates[..i])
      invariant known == !UnknownEstimate(b, estimates[..i])
      invariant known ==> total == Cap(ExactEstimate(b, estimates[..i]))
    {
      ExactEstimatePrefix(b, estimates, i);
      assert estimates[..i + 1][i] == estimates[i] && estimates[..i + 1][..i] == estimates[..i];
      if AppliesTo(b, estimates[i].provider) {
        touched := true;
        var one := EstimateAmount(b, estimates[i]);
        if one.None? {
          known := false;
        } else if known {
          total := SaturatingAdd(total, Max(one.value, 0));
        }
      }
    }
    assert estimates[..|estimates|] == estimates;
    amount := if known then Some(total) else None;
  }

  /** Sums what one budget has seen of the listed ledger rows. */
  method SumUsage(b: Budget, events: seq<UsageEvent>) returns (known: I64, unknown: bool)
    ensures known == Cap(ExactUsage(b, events))
    ensures unknown == UnknownUsage(b, events)
  {
    known := 0;
    unknown := false;
    for i := 0 to |events|
      invariant known == Cap(ExactUsage(b, events[..i]))
      invariant unknown == UnknownUsage(b, events[..i])
    {
      ExactUsagePrefix(b, events, i);
      assert events[..i + 1][i] == events[i] && events[..i + 1][..i] == events[..i];
      if AppliesTo(b, events[i].provider) {
        var amount := UsageAmount(b, events[i]);
        if amount.Some? {
          known := SaturatingAdd(known, Max(amount.value, 0));
        } else {
          unknown := true;
        }
      }
    }
    assert events[..|events|] == events;
  }

  class Service {
    const budgets: seq<Budget>
    var used: seq<I64>
    var reservations: seq<Reservation>
    var jobs: map<JobId, Job>
    var ledger: seq<UsageEvent>
    var attempts: seq<Attempt>
    var clock: nat

    function Snapshot(): State
      reads this
    {
      State(budgets, used, reservations, jobs, ledger, attempts, clock)
    }

    constructor (budgets: seq<Budget>, used: seq<I64>)
      ensures Snapshot() == State(budgets, used, [], map[], [], [], 0)
    {
      this.budgets := budgets;
      this.used := used;
      reservations := [];
      jobs := map[];
      ledger := [];
      attempts := [];
      clock := 0;
    }

    /** Ledger rows of a job after a boundary, in descending sequence order. */
    method ListUsage(job: JobId, after: nat) returns (events: seq<UsageEvent>)
      ensures events == CycleEvents(ledger, job, after)
    {
      events := [];
      var n: nat := |ledger|;
      assert ledger[..n] == ledger;
      while after < n
        invariant n <= |ledger|
        invariant CycleEvents(ledger, job, after) == events + CycleEvents(ledger[..n], job, after)
      {
        n := n - 1;
        assert ledger[..n + 1] == ledger[..n] + [ledger[n]];
        CycleEventsAppend(ledger[..n], ledger[n], job, after);
        if ledger[n].job == Some(job) {
          assert events + ([ledger[n]] + CycleEvents(ledger[..n], job, after))
              == (events + [ledger[n]]) + CycleEvents(ledger[..n], job, after);
          events := events + [ledger[n]];
        }
      }
    }

    /** Builds the allocations of a new admission cycle, or refuses when a hard budget that applies
        cannot be estimated. */
    method PrepareReservation(allowOverride: bool, estimates: seq<Estimate>)
      returns (plan: Option<map<BudgetId, Allocation>>)
      ensures plan.None? <==> PlanRefused(budgets, allowOverride, estimates)
      ensures plan.Some? ==> plan.value == PlannedAllocations(budgets, estimates)
    {
      var allocations: map<BudgetId, Allocation> := map[];
      for k := 0 to |budgets|
        invariant forall i :: 0 <= i < k ==> !Unestimable(budgets[i], allowOverride, estimates)
        invariant allocations == PlannedAllocations(budgets[..k], estimates)
      {
        var b := budgets[k];
        if b.enabled {
          var touched, amount := BudgetAmount(b, estimates);
          if touched {
            if amount.None? && b.hard && !allowOverride {
              return None;
            }
            allocations := allocations[k := Allocation(Max(amount.GetOr(0), 0), None)];
          }
        }
      }
      assert budgets[..|budgets|] == budgets;
      return Some(allocations);
    }

    /** The repository's check, allocation by allocation, before it stores a reservation. */
    method CheckCapacity(job: JobId, allocations: map<BudgetId, Allocation>, enforce: bool) returns (ok: bool)
      requires |used| == |budgets|
      ensures ok == CanReserve(Snapshot(), job, allocations, enforce)
    {
      if allocations.Keys == {} || HasActive(reservations, job) {
        return false;
      }
      ok := true;
      var rest := allocations.Keys;
      while rest != {}
        invariant rest <= allocations.Keys
        invariant ok == forall b :: b in allocations.Keys - rest ==>
                          && allocations[b].reserved >= 0 && b < |budgets|
                          && (enforce ==> AllocationFits(Snapshot(), job, b, allocations[b].reserved))
        decreases |rest|
      {
        var b :| b in rest;
        if allocations[b].reserved < 0 || b >= |budgets|
           || (enforce && !AllocationFits(Snapshot(), job, b, allocations[b].reserved))
        {
          ok := false;
        }
        rest := rest - {b};
      }
    }

    /** Admits a new job: every touched budget is reserved in one transaction, or nothing is. */
    method ReserveForEstimates(job: JobId, allowOverride: bool, estimates: seq<Estimate>) returns (admitted: bool)
      requires |used| == |budgets|
      modifies this
      ensures Snapshot() == Admit(old(Snapshot()), job, allowOverride, estimates)
      ensures admitted <==> job !in old(jobs) && job in jobs
    {
      if job in jobs {
        return false;
      }
      var plan := PrepareReservation(allowOverride, estimates);
      if plan.None? {
        return false;
      }
      if plan.value == map[] {
        jobs := jobs[job := Job(Queued, allowOverride, None, None)];
        return true;
      }
      var ok := CheckCapacity(job, plan.value, !allowOverride);
      if ok {
        jobs := jobs[job := Job(Queued, allowOverride, Some(|reservations|), None)];
        reservations := reservations + [Reservation(job, Active, plan.value, clock, |ledger|, None)];
      }
      return ok;
    }

    /** The error is true of the state: before any budget is looked at, one guards the request and the
        job has no usable reservation; after that it names the first budget that does not cover it. */
    ghost predicate Justified(job: JobId, estimate: Estimate, error: DispatchError)
      reads this
    {
      if job !in jobs then error.JobNotFound?
      else
        var id := jobs[job].reservation;
        && !jobs[job].allowOverride
        && (exists k :: 0 <= k < |budgets| && GuardsDispatch(budgets[k], estimate))
        && match error
           case JobNotFound => false
           case NoReservation => id.None?
           case ReservationNotFound => id.Some? && id.value >= |reservations|
           case ReservationClosed => id.Some? && id.value < |reservations| && !reservations[id.value].status.Active?
           case _ => Blamed(job, estimate, error)
    }

    predicate Blamed(job: JobId, estimate: Estimate, error: DispatchError)
      requires error.NamesBudget()
      reads this
    {
      var k := error.budget;
      && job in jobs && jobs[job].reservation.Some? && jobs[job].reservation.value < |reservations|
      && k < |budgets| && GuardsDispatch(budgets[k], estimate)
      && (forall i :: 0 <= i < k && GuardsDispatch(budgets[i], estimate) ==>
            DispatchCovered(Snapshot(), jobs[job].reservation, job, i, estimate))
      && var r := reservations[jobs[job].reservation.value];
         r.status.Active? && Reason(r, CycleEvents(ledger, job, r.start), estimate, error)
    }

    predicate Reason(r: Reservation, events: seq<UsageEvent>, estimate: Estimate, error: DispatchError)
      requires error.NamesBudget() && error.budget < |budgets|
    {
      var k := error.budget;
      match error
      case NotCovered(_) => k !in r.allocations
      case UnknownProjection(_) => EstimateAmount(budgets[k], estimate).None?
      case UnknownPriorUsage(_) => UnknownUsage(budgets[k], events)
      case WouldExceed(_) =>
        && k in r.allocations
        && Cap(ExactUsage(budgets[k], events)) + EstimateWeight(budgets[k], estimate) > r.allocations[k].reserved
      case _ => true
    }

    /** Fails closed before a provider request. On refusal the error names the first budget that
        does not cover it, and why. */
    method VerifyDispatch(job: JobId, estimate: Estimate) returns (outcome: Result<(), DispatchError>)
      ensures outcome.Ok? <==> DispatchAllowed(Snapshot(), job, estimate)
      ensures outcome.Err? ==> Justified(job, estimate, outcome.error)
    {
      if job !in jobs {
        return Err(JobNotFound);
      }
      if jobs[job].allowOverride {
        return Ok(());
      }
      var guards := ListGuards(estimate);
      if guards == [] {
        return Ok(());
      }
      assert GuardsDispatch(budgets[guards[0]], estimate);
      if jobs[job].reservation.None? {
        return Err(NoReservation);
      }
      var id := jobs[job].reservation.value;
      if id >= |reservations| {
        return Err(ReservationNotFound);
      }
      var r := reservations[id];
      if !r.status.Active? {
        return Err(ReservationClosed);
      }
      var events := ListUsage(job, r.start);
      for i := 0 to |guards|
        invariant forall j :: 0 <= j < i ==> DispatchCovered(Snapshot(), Some(id), job, guards[j], estimate)
      {
        var error := CheckBudget(guards[i], r, events, estimate);
        if error.Some? {
          return Err(error.value);
        }
      }
      return Ok(());
    }

    /** The enabled hard budgets that apply to a request, in listing order. */
    method ListGuards(estimate: Estimate) returns (guards: seq<nat>)
      ensures forall i :: 0 <= i < |guards| ==> guards[i] < |budgets| && GuardsDispatch(budgets[guards[i]], estimate)
      ensures forall i, j :: 0 <= i < j < |guards| ==> guards[i] < guards[j]
      ensures forall k :: 0 <= k < |budgets| && GuardsDispatch(budgets[k], estimate) ==> k in guards
    {
      guards := [];
      for k := 0 to |budgets|
        invariant forall i :: 0 <= i < |guards| ==> guards[i] < k && GuardsDispatch(budgets[guards[i]], estimate)
        invariant forall i, j :: 0 <= i < j < |guards| ==> guards[i] < guards[j]
        invariant forall i :: 0 <= i < k && GuardsDispatch(budgets[i], estimate) ==> i in guards
      {
        if GuardsDispatch(budgets[k], estimate) {
          guards := guards + [k];
        }
      }
    }

    /** Whether an active reservation covers one more request for one budget; if not, why. */
    method CheckBudget(k: BudgetId, r: Reservation, events: seq<UsageEvent>, estimate: Estimate)
      returns (error: Option<DispatchError>)
      requires k < |budgets| && AppliesTo(budgets[k], estimate.provider)
      ensures error.None? <==> Covers(budgets[k], k, r, events, estimate)
      ensures error.Some? ==>
                && error.value.NamesBudget() && error.value.budget == k
                && Reason(r, events, estimate, error.value)
    {
      if k !in r.allocations {
        return Some(NotCovered(k));
      }
      var projected := EstimateAmount(budgets[k], estimate);
      if projected.None? {
        return Some(UnknownProjection(k));
      }
      var consumed, unknown := SumUsage(budgets[k], events);
      if unknown {
        return Some(UnknownPriorUsage(k));
      }
      if SaturatingAdd(consumed, Max(projected.value, 0)) > r.allocations[k].reserved {
        return Some(WouldExceed(k));
      }
      return None;
    }

    /** Settles the reservation of a terminal job against its own ledger rows. */
    method FinalizeLocked(job: JobId)
      requires |used| == |budgets|
      modifies this
      ensures Snapshot() == Finalize(old(Snapshot()), job)
    {
      if job !in jobs || !jobs[job].state.IsTerminal() || jobs[job].reservation.None? {
        return;
      }
      var id := jobs[job].reservation.value;
      if id >= |reservations| {
        return;
      }
      var r := reservations[id];
      if r.status.Reconciled? || r.status.Released? {
        return;
      }
      var events := ListUsage(job, r.start);
      if events == [] {
        if !SuccessfulSince(attempts, job, r.createdAt) {
          reservations := reservations[id := r.(status := Released, settledAt := Some(|ledger|))];
        }
        return;
      }
      var actuals := ComputeActuals(r.allocations, events);
      if forall b :: b in r.allocations ==> b in actuals {
        ApplyActuals(id, actuals, events);
      }
    }

    /** The charge of each allocation whose budget still exists. */
    method ComputeActuals(allocations: map<BudgetId, Allocation>, events: seq<UsageEvent>)
      returns (actuals: map<BudgetId, I64>)
      ensures actuals == map b | b in allocations && b < |budgets|
                           :: Charge(budgets[b], events, allocations[b].reserved)
    {
      actuals := map[];
      var rest := allocations.Keys;
      while rest != {}
        invariant rest <= allocations.Keys
        invariant actuals == map b | b in allocations.Keys - rest && b < |budgets|
                               :: Charge(budgets[b], events, allocations[b].reserved)
        decreases |rest|
      {
        var b :| b in rest;
        if b < |budgets| {
          var known, unknown := SumUsage(budgets[b], events);
          actuals := actuals[b := if unknown then Max(known, allocations[b].reserved) else known];
        }
        rest := rest - {b};
      }
    }

    /** The new rows of a reconciliation, computed before the transaction commits. */
    method ChargeAllocations(allocations: map<BudgetId, Allocation>, actuals: map<BudgetId, I64>)
      returns (charged: map<BudgetId, Allocation>, newUsed: seq<I64>)
      requires |used| == |budgets|
      requires forall b :: b in allocations ==> b < |budgets| && b in actuals
      ensures charged == map b | b in allocations :: allocations[b].(actual := Some(actuals[b]))
      ensures |newUsed| == |used|
      ensures forall b :: 0 <= b < |used| ==>
                newUsed[b] == if b in allocations && budgets[b].period.Lifetime?
                              then SaturatingAdd(used[b], actuals[b]) else used[b]
    {
      charged := map[];
      newUsed := used;
      var rest := allocations.Keys;
      while rest != {}
        invariant rest <= allocations.Keys
        invariant charged == map b | b in allocations.Keys - rest :: allocations[b].(actual := Some(actuals[b]))
        invariant |newUsed| == |used|
        invariant forall b :: 0 <= b < |used| ==>
                    newUsed[b] == if b in allocations && b !in rest && budgets[b].period.Lifetime?
                                  then SaturatingAdd(used[b], actuals[b]) else used[b]
        decreases |rest|
      {
        var b :| b in rest;
        if budgets[b].period.Lifetime? {
          newUsed := newUsed[b := SaturatingAdd(newUsed[b], actuals[b])];
        }
        charged := charged[b := allocations[b].(actual := Some(actuals[b]))];
        rest := rest - {b};
      }
    }

    /** The repository's reconcile: adds each charge to its budget and closes the reservation. */
    method ApplyActuals(id: ReservationId, actuals: map<BudgetId, I64>, ghost events: seq<UsageEvent>)
      requires |used| == |budgets|
      requires id < |reservations|
      requires forall b :: b in reservations[id].allocations ==> b < |budgets|
      requires actuals == map b | b in reservations[id].allocations && b < |budgets|
                            :: Charge(budgets[b], events, reservations[id].allocations[b].reserved)
      modifies this
      ensures Snapshot() == Reconcile(old(Snapshot()), id, events)
    {
      var r := reservations[id];
      var charged, newUsed := ChargeAllocations(r.allocations, actuals);
      assert charged == ChargedAllocations(budgets, r.allocations, events);
      assert newUsed == UsedAfter(Snapshot(), charged);
      used := newUsed;
      reservations := reservations[id := r.(status := Reconciled, allocations := charged, settledAt := Some(|ledger|))];
    }

    /** Settles the failed job's old cycle and opens a new one under the same lock. */
    method AdmitRetry(job: JobId, estimates: seq<Estimate>) returns (admitted: bool)
      requires |used| == |budgets|
      modifies this
      ensures Snapshot() == Retry(old(Snapshot()), job, estimates)
      ensures admitted ==> job in jobs && jobs[job].state.Queued?
    {
      if job !in jobs || !jobs[job].state.Failed? {
        return false;
      }
      FinalizeLocked(job);
      assert Snapshot() == Finalize(old(Snapshot()), job);
      var plan := PrepareReservation(jobs[job].allowOverride, estimates);
      if plan.None? || PredecessorOpen(Snapshot(), job) {
        return false;
      }
      var queued := jobs[job].(state := Queued);
      if plan.value == map[] {
        jobs := jobs[job := queued.(reservation := None)];
        return true;
      }
      var ok := CheckCapacity(job, plan.value, !queued.allowOverride);
      if ok {
        jobs := jobs[job := queued.(reservation := Some(|reservations|))];
        reservations := reservations + [Reservation(job, Active, plan.value, clock, |ledger|, None)];
      }
      return ok;
    }
  }
}

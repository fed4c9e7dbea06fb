/** Whole-run budget safety, budget by budget: what a job uses stays within what was reserved for it as
    long as that job is careful, and no hard budget is ever committed beyond its limit as long as all
    jobs are. */
module BudgetSafety {
  import opened Bounded
  import opened Wrappers
  import opened Accounting
  import opened LedgerLemmas
  import opened BudgetRuns
  import opened Settlement

  // ---- Discipline ----

  /** The job a step acts for. */
  function Actor(step: Step): Option<JobId> {
    match step
    case AdmitJob(job, _, _) => Some(job)
    case MoveJob(job, _) => Some(job)
    case CheckDispatch(job, _) => Some(job)
    case RecordUsage(event) => event.job
    case AbandonDispatch(job) => Some(job)
    case FinishAttempt(job, _) => Some(job)
    case SettleJob(job) => Some(job)
    case RetryJob(job, _) => Some(job)
    case Tick(_) => None
  }

  /** The job has an open cycle, active or expired, that holds an allocation for the budget. */
  predicate InCycle(s: State, job: JobId, b: BudgetId) {
    && b < |s.budgets| && job in s.jobs
    && var id := s.jobs[job].reservation;
       id.Some? && id.value < |s.reservations| && Open(s.reservations[id.value])
       && b in s.reservations[id.value].allocations
  }

  /** As long as the job's cycle is open it has room for one more request. */
  predicate HasRoom(s: State, job: JobId, b: BudgetId, estimate: Estimate) {
    InCycle(s, job, b) ==>
      var r := s.reservations[s.jobs[job].reservation.value];
      SaturatingAdd(Cap(ExactUsage(s.budgets[b], CycleEvents(s.ledger, job, r.start))),
                    EstimateWeight(s.budgets[b], estimate)) <= r.allocations[b].reserved
  }

  /** The step opens a cycle that reserves something of the budget. */
  predicate OpensCycle(s: State, step: Step, b: BudgetId) {
    && |Apply(s, step).reservations| == |s.reservations| + 1
    && b in Apply(s, step).reservations[|s.reservations|].allocations
  }

  /** What a worker owes one budget: no override in its cycles, one request at a time, usage recorded in a
      cycle within what the checked request was projected to use, and no retry under a request for which
      the new cycle has no room. A request may outlive its job's settlement, and its reservation. */
  predicate Careful(s: State, step: Step, b: BudgetId) {
    match step
    case AdmitJob(_, allowOverride, _) => OpensCycle(s, step, b) ==> !allowOverride
    case CheckDispatch(job, _) => InCycle(s, job, b) ==> s.jobs[job].inFlight.None?
    case RecordUsage(e) =>
      e.job.Some? && InCycle(s, e.job.value, b) ==>
        && s.jobs[e.job.value].inFlight.Some?
        && EventWeight(s.budgets[b], e) <= EstimateWeight(s.budgets[b], s.jobs[e.job.value].inFlight.value)
    case RetryJob(job, estimates) =>
      job in s.jobs ==>
        && (OpensCycle(s, step, b) ==> !s.jobs[job].allowOverride)
        && (s.jobs[job].inFlight.Some? ==> HasRoom(Retry(s, job, estimates), job, b, s.jobs[job].inFlight.value))
    case _ => true
  }

  /** One job is careful, whatever the others do. */
  predicate CarefulJob(s: State, steps: seq<Step>, job: JobId, b: BudgetId) {
    steps == []
    || (&& CarefulJob(s, steps[..|steps| - 1], job, b)
        && (Actor(steps[|steps| - 1]) == Some(job) ==> Careful(Run(s, steps[..|steps| - 1]), steps[|steps| - 1], b)))
  }

  /** What expired reservations still withhold in truth, although admission no longer counts it. */
  function ExpiredWeight(b: BudgetId): Reservation -> int {
    (r: Reservation) => if r.status.Expired? && b in r.allocations then r.allocations[b].reserved else 0
  }

  /** Careful, and opening no cycle on the budget while expired work on it still waits to be charged. */
  predicate Disciplined(s: State, step: Step, b: BudgetId) {
    && Careful(s, step, b)
    && (OpensCycle(s, step, b) ==> Total(Apply(s, step).reservations, ExpiredWeight(b)) == 0)
  }

  predicate DisciplinedRun(s: State, steps: seq<Step>, b: BudgetId) {
    steps == []
    || (&& DisciplinedRun(s, steps[..|steps| - 1], b)
        && Disciplined(Run(s, steps[..|steps| - 1]), steps[|steps| - 1], b))
  }

  lemma {:induction false} DisciplinedJobsAreCareful(s: State, steps: seq<Step>, job: JobId, b: BudgetId)
    requires DisciplinedRun(s, steps, b)
    ensures CarefulJob(s, steps, job, b)
  {
    if steps == [] {
    } else {
      DisciplinedJobsAreCareful(s, steps[..|steps| - 1], job, b);
    }
  }

  // ---- What a careful job keeps ----

  /** The usage recorded under an open reservation is within it, and a reconciled one was charged no more
      than it held. */
  predicate CycleKept(s: State, r: Reservation, b: BudgetId) {
    b in r.allocations && b < |s.budgets| ==>
      && (Open(r) ==> Cap(ExactUsage(s.budgets[b], CycleEvents(s.ledger, r.job, r.start))) <= r.allocations[b].reserved)
      && (r.status.Reconciled? ==> 0 <= r.allocations[b].actual.GetOr(0) <= r.allocations[b].reserved)
  }

  /** The job's open cycle has no override and room for its request in flight, and all its cycles are kept. */
  predicate JobKept(s: State, job: JobId, b: BudgetId) {
    && (InCycle(s, job, b) ==>
          && !s.jobs[job].allowOverride
          && (s.jobs[job].inFlight.Some? ==> HasRoom(s, job, b, s.jobs[job].inFlight.value)))
    && forall i :: 0 <= i < |s.reservations| && s.reservations[i].job == job ==> CycleKept(s, s.reservations[i], b)
  }

  /** Nothing of this job changed, except that its request may be gone and its reservations may have expired. */
  predicate SameFor(s: State, t: State, job: JobId) {
    && t.budgets == s.budgets
    && (job in t.jobs ==>
          && job in s.jobs && t.jobs[job].allowOverride == s.jobs[job].allowOverride
          && t.jobs[job].reservation == s.jobs[job].reservation
          && (t.jobs[job].inFlight.None? || t.jobs[job].inFlight == s.jobs[job].inFlight))
    && |s.reservations| <= |t.reservations|
    && (forall i :: 0 <= i < |s.reservations| && s.reservations[i].job == job ==>
          t.reservations[i] == s.reservations[i]
          || (s.reservations[i].status.Active? && t.reservations[i] == s.reservations[i].(status := Expired)))
    && (forall i :: 0 <= i < |s.reservations| && t.reservations[i].job == job ==> s.reservations[i].job == job)
    && (forall i :: |s.reservations| <= i < |t.reservations| ==> t.reservations[i].job != job)
    && (t.ledger == s.ledger
        || (t.ledger != [] && t.ledger[..|t.ledger| - 1] == s.ledger && t.ledger[|t.ledger| - 1].job != Some(job)))
  }

  lemma {:induction false} SameEvents(s: State, t: State, job: JobId, start: nat)
    requires SameFor(s, t, job) && start <= |s.ledger|
    ensures CycleEvents(t.ledger, job, start) == CycleEvents(s.ledger, job, start)
  {
  }

  lemma SameKeepsJob(s: State, t: State, job: JobId, b: BudgetId)
    requires WellFormed(s) && JobKept(s, job, b) && SameFor(s, t, job)
    ensures JobKept(t, job, b)
  {
    forall i | 0 <= i < |t.reservations| && t.reservations[i].job == job
      ensures CycleKept(t, t.reservations[i], b)
    {
      assert ReservationOk(s, s.reservations[i]) && CycleKept(s, s.reservations[i], b);
      SameEvents(s, t, job, s.reservations[i].start);
    }
    if InCycle(t, job, b) {
      var i := s.jobs[job].reservation.value;
      assert JobOk(s, job) && ReservationOk(s, s.reservations[i]);
      SameEvents(s, t, job, s.reservations[i].start);
      assert InCycle(s, job, b);
    }
  }

  /** Finalize changes one reservation at most, and never one that is still open afterwards. */
  lemma FinalizeFrame(s: State, job: JobId)
    requires WellFormed(s)
    ensures var t := Finalize(s, job);
            && t.jobs == s.jobs && t.ledger == s.ledger && t.budgets == s.budgets
            && |t.reservations| == |s.reservations|
            && forall i :: 0 <= i < |s.reservations| ==>
                 t.reservations[i] == s.reservations[i]
                 || (s.reservations[i].job == job == t.reservations[i].job && !Open(t.reservations[i]))
  {
    if Settleable(s, job) {
      assert JobOk(s, job);
    }
  }

  /** A step of another job, or one that touches neither the job's requests nor its reservations. */
  lemma OthersChangeNothing(s: State, step: Step, job: JobId)
    requires WellFormed(s)
    requires Actor(step) != Some(job) || step.MoveJob? || step.AbandonDispatch? || step.FinishAttempt?
    ensures SameFor(s, Apply(s, step), job)
  {
    match step
    case AdmitJob(other, allowOverride, estimates) => AdmitChangesNothing(s, other, allowOverride, estimates, job);
    case SettleJob(other) => FinalizeFrame(s, other);
    case RetryJob(other, estimates) => RetryChangesNothing(s, other, estimates, job);
    case Tick(seconds) => TickChangesNothing(s, seconds, job);
    case RecordUsage(e) => assert (s.ledger + [e])[..|s.ledger|] == s.ledger;
    case _ =>
  }

  lemma AdmitChangesNothing(s: State, other: JobId, allowOverride: bool, estimates: seq<Estimate>, job: JobId)
    requires other != job
    ensures SameFor(s, Admit(s, other, allowOverride, estimates), job)
  {
  }

  lemma RetryChangesNothing(s: State, other: JobId, estimates: seq<Estimate>, job: JobId)
    requires WellFormed(s) && other != job
    ensures SameFor(s, Retry(s, other, estimates), job)
  {
    FinalizeFrame(s, other);
  }

  lemma TickChangesNothing(s: State, seconds: nat, job: JobId)
    ensures SameFor(s, Apply(s, Tick(seconds)), job)
  {
  }

  // ---- The job's own steps ----

  lemma AdmitKeepsJob(s: State, job: JobId, allowOverride: bool, estimates: seq<Estimate>, b: BudgetId)
    requires WellFormed(s) && JobKept(s, job, b) && Careful(s, AdmitJob(job, allowOverride, estimates), b)
    ensures JobKept(Admit(s, job, allowOverride, estimates), job, b)
  {
    var t := Admit(s, job, allowOverride, estimates);
    if t != s {
      assert t == Apply(s, AdmitJob(job, allowOverride, estimates));
      assert forall i :: 0 <= i < |s.reservations| ==> ReservationOk(s, s.reservations[i]);
      if |t.reservations| > |s.reservations| {
        NewCycleIsKept(t, t.reservations[|s.reservations|], b);
      }
    }
  }

  lemma NewCycleIsKept(t: State, r: Reservation, b: BudgetId)
    requires r.start == |t.ledger| && r.status.Active?
    requires b in r.allocations ==> r.allocations[b].reserved >= 0
    ensures CycleKept(t, r, b)
  {
    if b < |t.budgets| {
      assert CycleEvents(t.ledger, r.job, r.start) == [];
      assert ExactUsage(t.budgets[b], []) == 0;
    }
  }

  lemma CheckKeepsJob(s: State, job: JobId, estimate: Estimate, b: BudgetId)
    requires WellFormed(s) && JobKept(s, job, b) && DispatchAllowed(s, job, estimate)
    requires b < |s.budgets| && s.budgets[b].hard
    ensures JobKept(Apply(s, CheckDispatch(job, estimate)), job, b)
  {
    var t := Apply(s, CheckDispatch(job, estimate));
    assert forall i :: 0 <= i < |s.reservations| && s.reservations[i].job == job ==>
        CycleKept(s, s.reservations[i], b) && CycleKept(t, s.reservations[i], b);
    CheckedHasRoom(s, job, estimate, b);
  }

  lemma CheckedHasRoom(s: State, job: JobId, estimate: Estimate, b: BudgetId)
    requires WellFormed(s) && JobKept(s, job, b) && DispatchAllowed(s, job, estimate)
    requires b < |s.budgets| && s.budgets[b].hard
    ensures HasRoom(s, job, b, estimate)
  {
    if InCycle(s, job, b) {
      var i := s.jobs[job].reservation.value;
      assert JobOk(s, job) && ReservationOk(s, s.reservations[i]) && CycleKept(s, s.reservations[i], b);
      if GuardsDispatch(s.budgets[b], estimate) {
        assert DispatchCovered(s, Some(i), job, b, estimate);
      } else {
        assert EstimateWeight(s.budgets[b], estimate) == 0;
      }
    }
  }

  /** One more recorded request stays within the open reservation it was checked against. */
  lemma RecordKeepsOpenCycle(s: State, e: UsageEvent, i: nat, b: BudgetId)
    requires WellFormed(s) && e.job.Some? && JobKept(s, e.job.value, b) && Careful(s, RecordUsage(e), b)
    requires i < |s.reservations| && s.reservations[i].job == e.job.value && Open(s.reservations[i])
    ensures CycleKept(s.(ledger := s.ledger + [e]), s.reservations[i], b)
  {
    var r := s.reservations[i];
    assert ReservationOk(s, r) && CycleKept(s, r, b);
    if b in r.allocations && b < |s.budgets| {
      var events := CycleEvents(s.ledger, r.job, r.start);
      assert InCycle(s, r.job, b);
      CycleEventsAppend(s.ledger, e, r.job, r.start);
      ExactUsageConcat(s.budgets[b], [e], events);
      SingleUsage(s.budgets[b], e);
      CapThenAdd(ExactUsage(s.budgets[b], events), EventWeight(s.budgets[b], e),
                 EstimateWeight(s.budgets[b], s.jobs[r.job].inFlight.value));
    }
  }

  lemma {:induction false} SingleUsage(b: Budget, e: UsageEvent)
    ensures ExactUsage(b, [e]) == EventWeight(b, e)
  {
    assert [e][1..] == [];
  }

  lemma RecordKeepsJob(s: State, e: UsageEvent, b: BudgetId)
    requires WellFormed(s) && e.job.Some? && JobKept(s, e.job.value, b) && Careful(s, RecordUsage(e), b)
    ensures JobKept(Apply(s, RecordUsage(e)), e.job.value, b)
  {
    var t := Apply(s, RecordUsage(e));
    forall i | 0 <= i < |t.reservations| && t.reservations[i].job == e.job.value
      ensures CycleKept(t, t.reservations[i], b)
    {
      assert CycleKept(s, s.reservations[i], b);
      if Open(s.reservations[i]) {
        RecordKeepsOpenCycle(s, e, i, b);
      }
    }
  }

  /** Reconciling an open reservation charges at most what it withheld. */
  lemma ReconcileKeepsCycle(s: State, id: ReservationId, b: BudgetId)
    requires WellFormed(s) && id < |s.reservations| && Open(s.reservations[id]) && CycleKept(s, s.reservations[id], b)
    ensures var events := CycleEvents(s.ledger, s.reservations[id].job, s.reservations[id].start);
            CycleKept(Reconcile(s, id, events), Reconcile(s, id, events).reservations[id], b)
  {
    var r := s.reservations[id];
    assert ReservationOk(s, r);
    if b in r.allocations {
      ChargeWithinReservation(s.budgets[b], CycleEvents(s.ledger, r.job, r.start), r.allocations[b].reserved);
    }
  }

  lemma FinalizeKeepsJob(s: State, job: JobId, b: BudgetId)
    requires WellFormed(s) && JobKept(s, job, b)
    ensures JobKept(Finalize(s, job), job, b)
  {
    var t := Finalize(s, job);
    FinalizeFrame(s, job);
    if Settleable(s, job) {
      var id := s.jobs[job].reservation.value;
      assert JobOk(s, job);
      forall i | 0 <= i < |t.reservations| && t.reservations[i].job == job
        ensures CycleKept(t, t.reservations[i], b)
      {
        assert CycleKept(s, s.reservations[i], b);
        if i == id {
          ReconcileKeepsCycle(s, id, b);
        }
      }
    }
  }

  lemma RetryKeepsJob(s: State, job: JobId, estimates: seq<Estimate>, b: BudgetId)
    requires WellFormed(s) && JobKept(s, job, b) && Careful(s, RetryJob(job, estimates), b)
    ensures JobKept(Retry(s, job, estimates), job, b)
  {
    var f, t := Finalize(s, job), Retry(s, job, estimates);
    FinalizeFrame(s, job);
    FinalizeKeepsJob(s, job, b);
    if t != s && t != f {
      if |t.reservations| > |f.reservations| {
        NewCycleIsKept(t, t.reservations[|f.reservations|], b);
      }
      assert forall i :: 0 <= i < |f.reservations| && f.reservations[i].job == job ==>
          CycleKept(f, f.reservations[i], b) && CycleKept(t, f.reservations[i], b);
    }
  }

  lemma StepKeepsJob(s: State, step: Step, job: JobId, b: BudgetId)
    requires WellFormed(s) && JobKept(s, job, b) && b < |s.budgets| && s.budgets[b].hard
    requires Actor(step) == Some(job) ==> Careful(s, step, b)
    ensures JobKept(Apply(s, step), job, b)
  {
    if Actor(step) != Some(job) || step.MoveJob? || step.AbandonDispatch? || step.FinishAttempt? {
      OthersChangeNothing(s, step, job);
      SameKeepsJob(s, Apply(s, step), job, b);
    } else {
      match step
      case AdmitJob(_, allowOverride, estimates) => AdmitKeepsJob(s, job, allowOverride, estimates, b);
      case CheckDispatch(_, estimate) =>
        if DispatchAllowed(s, job, estimate) {
          CheckKeepsJob(s, job, estimate, b);
        }
      case RecordUsage(e) => RecordKeepsJob(s, e, b);
      case SettleJob(_) => FinalizeKeepsJob(s, job, b);
      case RetryJob(_, estimates) => RetryKeepsJob(s, job, estimates, b);
    }
  }

  lemma {:induction false} CarefulJobsAreKept(s: State, steps: seq<Step>, job: JobId, b: BudgetId)
    requires Initial(s) && b < |s.budgets| && s.budgets[b].hard && CarefulJob(s, steps, job, b)
    ensures JobKept(Run(s, steps), job, b)
  {
    if steps == [] {
    } else {
      RunsAreWellFormed(s, steps[..|steps| - 1]);
      CarefulJobsAreKept(s, steps[..|steps| - 1], job, b);
      StepKeepsJob(Run(s, steps[..|steps| - 1]), steps[|steps| - 1], job, b);
    }
  }

  // ---- Limits ----

  /** What a reservation may still be charged for, and what it was charged. */
  function SpentWeight(b: BudgetId): Reservation -> int {
    (r: Reservation) =>
      if b !in r.allocations then 0
      else if Open(r) then r.allocations[b].reserved
      else if r.status.Reconciled? then r.allocations[b].actual.GetOr(0) else 0
  }

  function OpenWeight(b: BudgetId): Reservation -> int {
    (r: Reservation) => if Open(r) && b in r.allocations then r.allocations[b].reserved else 0
  }

  /** The same for the reservations of one job only. */
  function JobSpentWeight(job: JobId, b: BudgetId): Reservation -> int {
    (r: Reservation) => if r.job == job then SpentWeight(b)(r) else 0
  }

  /** Overall for a lifetime budget, or of one job for a per-job budget. */
  function WeightOf(who: Option<JobId>, b: BudgetId): Reservation -> int {
    if who.Some? then JobSpentWeight(who.value, b) else SpentWeight(b)
  }

  /** Settling a reservation charges at most what it withheld. */
  lemma FinalizeSpendsNoMore(s: State, job: JobId, who: Option<JobId>, b: BudgetId)
    requires WellFormed(s) && b < |s.budgets|
    requires who.None? || who.value == job ==> JobKept(s, job, b)
    ensures Total(Finalize(s, job).reservations, WeightOf(who, b)) <= Total(s.reservations, WeightOf(who, b))
  {
    var t := Finalize(s, job);
    if t != s {
      var id := s.jobs[job].reservation.value;
      assert JobOk(s, job) && ReservationOk(s, s.reservations[id]);
      if who.None? || who.value == job {
        FinalizeKeepsJob(s, job, b);
        assert CycleKept(t, t.reservations[id], b);
        SettledWeighsNoMore(s, job, b);
      }
      TotalUpdate(s.reservations, id, t.reservations[id], WeightOf(who, b));
    }
  }

  lemma SettledWeighsNoMore(s: State, job: JobId, b: BudgetId)
    requires WellFormed(s) && Settleable(s, job) && b < |s.budgets| && Finalize(s, job) != s
    requires CycleKept(Finalize(s, job), Finalize(s, job).reservations[s.jobs[job].reservation.value], b)
    ensures var id := s.jobs[job].reservation.value;
            SpentWeight(b)(Finalize(s, job).reservations[id]) <= SpentWeight(b)(s.reservations[id])
  {
    assert ReservationOk(s, s.reservations[s.jobs[job].reservation.value]);
  }

  /** Nothing is negative: not what is open, nor what expired, nor what was charged. */
  lemma WeightsAreNonNegative(s0: State, s: State, b: BudgetId)
    requires WellFormed(s) && Balanced(s0, s) && b < |s.budgets|
    ensures Total(s.reservations, ActiveWeight(b)) >= 0 && Total(s.reservations, ExpiredWeight(b)) >= 0
    ensures Total(s.reservations, ActualWeight(b)) >= 0
    ensures Total(s.reservations, SpentWeight(b))
         == Total(s.reservations, ActiveWeight(b)) + Total(s.reservations, ExpiredWeight(b))
          + Total(s.reservations, ActualWeight(b))
  {
    assert forall i :: 0 <= i < |s.reservations| ==> ReservationOk(s, s.reservations[i]);
    ChargesAreNonNegative(s, b);
    TotalNonNegative(s.reservations, ActiveWeight(b));
    TotalNonNegative(s.reservations, ExpiredWeight(b));
    TotalNonNegative(s.reservations, ActualWeight(b));
    TotalSplits(s.reservations, SpentWeight(b), OpenWeight(b), ActualWeight(b));
    TotalSplits(s.reservations, OpenWeight(b), ActiveWeight(b), ExpiredWeight(b));
  }

  /** One more reservation, within what the budget has left. */
  predicate Opens(f: State, t: State, job: JobId, estimates: seq<Estimate>, b: BudgetId) {
    var allocations := PlannedAllocations(f.budgets, estimates);
    && t.reservations == f.reservations + [NewReservation(f, job, allocations)]
    && (b in allocations ==> allocations[b].reserved >= 0 && AllocationFits(f, job, b, allocations[b].reserved))
  }

  lemma AdmitOpens(s: State, job: JobId, allowOverride: bool, estimates: seq<Estimate>, b: BudgetId)
    requires Careful(s, AdmitJob(job, allowOverride, estimates), b)
    ensures var t := Admit(s, job, allowOverride, estimates);
            t.budgets == s.budgets
            && (t.reservations == s.reservations || (job !in s.jobs && Opens(s, t, job, estimates, b)))
  {
    assert Apply(s, AdmitJob(job, allowOverride, estimates)) == Admit(s, job, allowOverride, estimates);
  }

  lemma RetryOpens(s: State, job: JobId, estimates: seq<Estimate>, b: BudgetId)
    requires WellFormed(s) && Careful(s, RetryJob(job, estimates), b)
    ensures var f, t := Finalize(s, job), Retry(s, job, estimates);
            t.budgets == s.budgets == f.budgets
            && (t == s || t.reservations == f.reservations
                || (&& Opens(f, t, job, estimates, b)
                    && job in f.jobs && !PredecessorOpen(f, job)
                    && |t.reservations| == |s.reservations| + 1))
  {
    FinalizeFrame(s, job);
    assert Apply(s, RetryJob(job, estimates)) == Retry(s, job, estimates);
  }

  // ---- The limit of a lifetime budget ----

  /** What a lifetime budget started with, was charged and may still be charged is within its limit, or is
      what it started with; and no reservation exceeds what was left of the limit at the start. */
  ghost predicate LimitKept(s0: State, s: State, b: BudgetId) {
    && b < |s.budgets| && b < |s0.used|
    && s0.used[b] + Total(s.reservations, SpentWeight(b)) <= Max(s.budgets[b].limit, s0.used[b])
    && forall i :: 0 <= i < |s.reservations| && b in s.reservations[i].allocations ==>
         s0.used[b] + s.reservations[i].allocations[b].reserved <= s.budgets[b].limit
  }

  /** While the limit is kept the used column is exact: it has not been capped. */
  lemma UsedIsExact(s0: State, s: State, b: BudgetId)
    requires WellFormed(s) && Balanced(s0, s) && LimitKept(s0, s, b) && s.budgets[b].period.Lifetime?
    ensures s.used[b] == s0.used[b] + Total(s.reservations, ActualWeight(b))
  {
    WeightsAreNonNegative(s0, s, b);
    assert s.used[b] == AccountedUse(s0, s, b);
  }

  lemma OpeningKeepsLimit(s0: State, s: State, t: State, job: JobId, estimates: seq<Estimate>, b: BudgetId)
    requires WellFormed(s) && Balanced(s0, s) && LimitKept(s0, s, b) && s0.used[b] >= 0
    requires s.budgets[b].hard && s.budgets[b].period.Lifetime?
    requires t.budgets == s.budgets && Opens(s, t, job, estimates, b)
    requires b in t.reservations[|s.reservations|].allocations ==> Total(t.reservations, ExpiredWeight(b)) == 0
    ensures LimitKept(s0, t, b)
  {
    var allocations := PlannedAllocations(s.budgets, estimates);
    var r := NewReservation(s, job, allocations);
    TotalAppend(s.reservations, r, SpentWeight(b));
    TotalAppend(s.reservations, r, ExpiredWeight(b));
    WeightsAreNonNegative(s0, s, b);
    UsedIsExact(s0, s, b);
    assert SpentWeight(b)(r) == if b in allocations then allocations[b].reserved else 0;
  }

  lemma FinalizeKeepsLimit(s0: State, s: State, job: JobId, b: BudgetId)
    requires WellFormed(s) && LimitKept(s0, s, b) && JobKept(s, job, b)
    ensures LimitKept(s0, Finalize(s, job), b)
  {
    FinalizeSpendsNoMore(s, job, None, b);
    FinalizeKeepsReserved(s, job);
  }

  lemma FinalizeKeepsReserved(s: State, job: JobId)
    ensures var t := Finalize(s, job);
            && t.budgets == s.budgets && |t.reservations| == |s.reservations|
            && forall i, b :: 0 <= i < |t.reservations| && b in t.reservations[i].allocations ==>
                 && b in s.reservations[i].allocations
                 && t.reservations[i].allocations[b].reserved == s.reservations[i].allocations[b].reserved
  {
  }

  lemma OpenedOverNothingExpired(s: State, step: Step, b: BudgetId)
    requires Disciplined(s, step, b) && |Apply(s, step).reservations| == |s.reservations| + 1
    ensures b in Apply(s, step).reservations[|s.reservations|].allocations ==>
              Total(Apply(s, step).reservations, ExpiredWeight(b)) == 0
  {
  }

  lemma AdmitKeepsLimit(s0: State, s: State, job: JobId, allowOverride: bool, estimates: seq<Estimate>, b: BudgetId)
    requires WellFormed(s) && Balanced(s0, s) && LimitKept(s0, s, b) && s0.used[b] >= 0
    requires s.budgets[b].hard && s.budgets[b].period.Lifetime?
    requires Disciplined(s, AdmitJob(job, allowOverride, estimates), b)
    ensures LimitKept(s0, Admit(s, job, allowOverride, estimates), b)
  {
    var t := Admit(s, job, allowOverride, estimates);
    AdmitOpens(s, job, allowOverride, estimates, b);
    if t.reservations != s.reservations {
      OpeningKeepsLimit(s0, s, t, job, estimates, b);
    }
  }

  lemma RetryKeepsLimit(s0: State, s: State, job: JobId, estimates: seq<Estimate>, b: BudgetId)
    requires WellFormed(s) && Balanced(s0, s) && LimitKept(s0, s, b) && JobKept(s, job, b)
    requires forall k :: 0 <= k < |s0.used| ==> s0.used[k] >= 0
    requires s.budgets[b].hard && s.budgets[b].period.Lifetime?
    requires Disciplined(s, RetryJob(job, estimates), b)
    ensures LimitKept(s0, Retry(s, job, estimates), b)
  {
    var f, t := Finalize(s, job), Retry(s, job, estimates);
    RetryOpens(s, job, estimates, b);
    FinalizeKeepsLimit(s0, s, job, b);
    if t != s && t.reservations != f.reservations {
      FinalizeKeepsWellFormed(s, job);
      FinalizeStaysBalanced(s0, s, job);
      FinalizeFrame(s, job);
      OpenedOverNothingExpired(s, RetryJob(job, estimates), b);
      OpeningKeepsLimit(s0, f, t, job, estimates, b);
    }
  }

  lemma TickSpendsNothing(s: State, seconds: nat, who: Option<JobId>, b: BudgetId)
    ensures Total(Apply(s, Tick(seconds)).reservations, WeightOf(who, b)) == Total(s.reservations, WeightOf(who, b))
  {
    var rs, qs := s.reservations, Apply(s, Tick(seconds)).reservations;
    forall k | 0 <= k < |rs|
      ensures WeightOf(who, b)(rs[k]) == WeightOf(who, b)(qs[k])
    {
      assert SpentWeight(b)(rs[k]) == SpentWeight(b)(qs[k]);
    }
    TotalSame(rs, qs, WeightOf(who, b));
  }

  lemma StepKeepsLimit(s0: State, s: State, step: Step, b: BudgetId)
    requires WellFormed(s) && Balanced(s0, s) && LimitKept(s0, s, b) && forall job: JobId :: JobKept(s, job, b)
    requires forall k :: 0 <= k < |s0.used| ==> s0.used[k] >= 0
    requires s.budgets[b].hard && s.budgets[b].period.Lifetime? && Disciplined(s, step, b)
    ensures LimitKept(s0, Apply(s, step), b)
  {
    match step
    case AdmitJob(job, allowOverride, estimates) => AdmitKeepsLimit(s0, s, job, allowOverride, estimates, b);
    case SettleJob(job) => FinalizeKeepsLimit(s0, s, job, b);
    case RetryJob(job, estimates) => RetryKeepsLimit(s0, s, job, estimates, b);
    case Tick(seconds) => TickSpendsNothing(s, seconds, None, b);
    case _ =>
  }

  lemma {:induction false} DisciplinedRunsKeepLimit(s0: State, steps: seq<Step>, b: BudgetId)
    requires Initial(s0) && DisciplinedRun(s0, steps, b)
    requires b < |s0.budgets| && s0.budgets[b].hard && s0.budgets[b].period.Lifetime?
    ensures LimitKept(s0, Run(s0, steps), b)
  {
    if steps == [] {
    } else {
      var n := |steps| - 1;
      RunsAreWellFormed(s0, steps[..n]);
      RunsStayBalanced(s0, steps[..n]);
      DisciplinedRunsKeepLimit(s0, steps[..n], b);
      forall job: JobId
        ensures JobKept(Run(s0, steps[..n]), job, b)
      {
        DisciplinedJobsAreCareful(s0, steps[..n], job, b);
        CarefulJobsAreKept(s0, steps[..n], job, b);
      }
      StepKeepsLimit(s0, Run(s0, steps[..n]), steps[n], b);
    }
  }

  /** A hard lifetime budget is never overspent, not even by what is still reserved and what expired
      reservations may still be charged: all of it is within the limit, or within what had been used at the
      start if that was more. The used column is exact. */
  lemma {:induction false} HardLimitIsNeverOverspent(s0: State, steps: seq<Step>, b: BudgetId)
    requires Initial(s0) && DisciplinedRun(s0, steps, b)
    requires b < |s0.budgets| && s0.budgets[b].hard && s0.budgets[b].period.Lifetime?
    ensures var s := Run(s0, steps);
            && b < |s.used| && s.used[b] == s0.used[b] + Total(s.reservations, ActualWeight(b))
            && Total(s.reservations, ActiveWeight(b)) >= 0 && Total(s.reservations, ExpiredWeight(b)) >= 0
            && s0.used[b] <= s.used[b]
            && s.used[b] + Total(s.reservations, ActiveWeight(b)) + Total(s.reservations, ExpiredWeight(b))
                <= Max(s0.budgets[b].limit, s0.used[b])
  {
    DisciplinedRunsKeepLimit(s0, steps, b);
    RunsAreWellFormed(s0, steps);
    RunsStayBalanced(s0, steps);
    UsedIsExact(s0, Run(s0, steps), b);
    WeightsAreNonNegative(s0, Run(s0, steps), b);
  }

  // ---- The limit of a per-job budget ----

  /** A job about to open a cycle has no open one, so what admission sums up is all that counts. */
  lemma NothingOfTheJobIsOverlooked(s: State, job: JobId, b: BudgetId)
    requires WellFormed(s) && (job in s.jobs ==> !PredecessorOpen(s, job))
    ensures Total(s.reservations, JobWeight(job, b)) == Total(s.reservations, JobSpentWeight(job, b))
  {
    forall i | 0 <= i < |s.reservations|
      ensures JobWeight(job, b)(s.reservations[i]) == JobSpentWeight(job, b)(s.reservations[i])
    {
      var r := s.reservations[i];
      assert ReservationOk(s, r);
      if r.job == job {
        assert !Open(r);
        assert ActiveWeight(b)(r) == 0 && SpentWeight(b)(r) == ActualWeight(b)(r);
      }
    }
    TotalEqual(s.reservations, JobWeight(job, b), JobSpentWeight(job, b));
  }

  predicate JobLimitKept(s: State, job: JobId, b: BudgetId) {
    b < |s.budgets| && Total(s.reservations, JobSpentWeight(job, b)) <= Max(s.budgets[b].limit, 0)
  }

  lemma OpeningKeepsJobLimit(s: State, t: State, job: JobId, estimates: seq<Estimate>, b: BudgetId)
    requires WellFormed(s) && (job in s.jobs ==> !PredecessorOpen(s, job)) && JobLimitKept(s, job, b)
    requires s.budgets[b].hard && s.budgets[b].period.PerJob?
    requires t.budgets == s.budgets && Opens(s, t, job, estimates, b)
    ensures JobLimitKept(t, job, b)
  {
    var allocations := PlannedAllocations(s.budgets, estimates);
    var r := NewReservation(s, job, allocations);
    NothingOfTheJobIsOverlooked(s, job, b);
    TotalAppend(s.reservations, r, JobSpentWeight(job, b));
    assert SpentWeight(b)(r) == if b in allocations then allocations[b].reserved else 0;
  }

  /** One more reservation of another job does not count. */
  lemma OthersDoNotCount(s: State, t: State, other: JobId, job: JobId, b: BudgetId)
    requires JobLimitKept(s, job, b) && t.budgets == s.budgets && other != job
    requires t.reservations == s.reservations
          || (t.reservations != [] && t.reservations[..|t.reservations| - 1] == s.reservations
              && t.reservations[|t.reservations| - 1].job == other)
    ensures JobLimitKept(t, job, b)
  {
  }

  lemma AdmitKeepsJobLimit(s: State, other: JobId, allowOverride: bool, estimates: seq<Estimate>, job: JobId,
                           b: BudgetId)
    requires WellFormed(s) && JobLimitKept(s, job, b) && s.budgets[b].hard && s.budgets[b].period.PerJob?
    requires other == job ==> Careful(s, AdmitJob(job, allowOverride, estimates), b)
    ensures JobLimitKept(Admit(s, other, allowOverride, estimates), job, b)
  {
    var t := Admit(s, other, allowOverride, estimates);
    if other != job {
      OthersDoNotCount(s, t, other, job, b);
    } else {
      AdmitOpens(s, job, allowOverride, estimates, b);
      if t.reservations != s.reservations {
        OpeningKeepsJobLimit(s, t, job, estimates, b);
      }
    }
  }

  lemma RetryKeepsJobLimit(s: State, job: JobId, estimates: seq<Estimate>, b: BudgetId)
    requires WellFormed(s) && JobKept(s, job, b) && JobLimitKept(s, job, b)
    requires s.budgets[b].hard && s.budgets[b].period.PerJob? && Careful(s, RetryJob(job, estimates), b)
    ensures JobLimitKept(Retry(s, job, estimates), job, b)
  {
    var f, t := Finalize(s, job), Retry(s, job, estimates);
    FinalizeSpendsNoMore(s, job, Some(job), b);
    RetryOpens(s, job, estimates, b);
    if t != s && t.reservations != f.reservations {
      FinalizeKeepsWellFormed(s, job);
      OpeningKeepsJobLimit(f, t, job, estimates, b);
    }
  }

  lemma OtherRetryKeepsJobLimit(s: State, other: JobId, estimates: seq<Estimate>, job: JobId, b: BudgetId)
    requires WellFormed(s) && JobLimitKept(s, job, b) && other != job
    ensures JobLimitKept(Retry(s, other, estimates), job, b)
  {
    var f, t := Finalize(s, other), Retry(s, other, estimates);
    FinalizeFrame(s, other);
    FinalizeSpendsNoMore(s, other, Some(job), b);
    if t != s {
      OthersDoNotCount(f, t, other, job, b);
    }
  }

  lemma StepKeepsJobLimit(s: State, step: Step, job: JobId, b: BudgetId)
    requires WellFormed(s) && JobKept(s, job, b) && JobLimitKept(s, job, b)
    requires s.budgets[b].hard && s.budgets[b].period.PerJob?
    requires Actor(step) == Some(job) ==> Careful(s, step, b)
    ensures JobLimitKept(Apply(s, step), job, b)
  {
    match step
    case AdmitJob(other, allowOverride, estimates) =>
      AdmitKeepsJobLimit(s, other, allowOverride, estimates, job, b);
    case SettleJob(other) =>
      FinalizeFrame(s, other);
      FinalizeSpendsNoMore(s, other, Some(job), b);
    case RetryJob(other, estimates) =>
      if other == job {
        RetryKeepsJobLimit(s, job, estimates, b);
      } else {
        OtherRetryKeepsJobLimit(s, other, estimates, job, b);
      }
    case Tick(seconds) => TickSpendsNothing(s, seconds, Some(job), b);
    case _ =>
  }

  /** A hard per-job budget is never overspent by a careful job, over all of its retry cycles, whatever
      other jobs do. */
  lemma {:induction false} HardJobLimitIsNeverOverspent(s0: State, steps: seq<Step>, job: JobId, b: BudgetId)
    requires Initial(s0) && CarefulJob(s0, steps, job, b)
    requires b < |s0.budgets| && s0.budgets[b].hard && s0.budgets[b].period.PerJob?
    ensures Total(Run(s0, steps).reservations, JobSpentWeight(job, b)) <= Max(s0.budgets[b].limit, 0)
  {
    RunsAreWellFormed(s0, steps);
    if steps == [] {
    } else {
      var n := |steps| - 1;
      RunsAreWellFormed(s0, steps[..n]);
      CarefulJobsAreKept(s0, steps[..n], job, b);
      HardJobLimitIsNeverOverspent(s0, steps[..n], job, b);
      StepKeepsJobLimit(Run(s0, steps[..n]), steps[n], job, b);
    }
  }

  // ---- What a cycle uses ----

  /** The ledger rows of a reservation's cycle: so far, or those it was settled against. */
  function CycleRows(s: State, r: Reservation): seq<UsageEvent> {
    if Open(r) then CycleEvents(s.ledger, r.job, r.start) else SettledEvents(s, r)
  }

  /** The exact usage of every cycle of a careful job, open or settled, is within its reservation, provided
      the reserved amount is below the largest i64. */
  lemma {:induction false} ConsumedWithinAllocation(s0: State, steps: seq<Step>, i: nat, b: BudgetId)
    requires Initial(s0) && b < |s0.budgets| && s0.budgets[b].hard
    requires var s := Run(s0, steps);
             && i < |s.reservations| && CarefulJob(s0, steps, s.reservations[i].job, b)
             && b in s.reservations[i].allocations && s.reservations[i].allocations[b].reserved < I64_MAX
    ensures var s := Run(s0, steps);
            var r := s.reservations[i];
            ExactUsage(s0.budgets[b], CycleRows(s, r)) <= r.allocations[b].reserved
  {
    var s := Run(s0, steps);
    CarefulJobsAreKept(s0, steps, s.reservations[i].job, b);
    RunsAreWellFormed(s0, steps);
    RunsStayBalanced(s0, steps);
    ConsumedInState(s, s.reservations[i], b);
  }

  lemma ConsumedInState(s: State, r: Reservation, b: BudgetId)
    requires ReservationOk(s, r) && CycleKept(s, r, b) && SettledRight(s, r)
    requires b in r.allocations && b < |s.budgets| && r.allocations[b].reserved < I64_MAX
    ensures ExactUsage(s.budgets[b], CycleRows(s, r)) <= r.allocations[b].reserved
    ensures ExactUsage(s.budgets[b], CycleRows(s, r)) <= SpentWeight(b)(r)
  {
    var rows := CycleRows(s, r);
    assert r.status.Reconciled? ==>
        r.allocations[b].actual == Some(Charge(s.budgets[b], rows, r.allocations[b].reserved));
    assert r.status.Released? ==> rows == [];
  }

  /** What a settled cycle of a careful job was charged is within its reservation, whatever of its usage is
      known. */
  lemma {:induction false} ChargedWithinAllocation(s0: State, steps: seq<Step>, i: nat, b: BudgetId)
    requires Initial(s0) && b < |s0.budgets| && s0.budgets[b].hard
    requires var s := Run(s0, steps);
             && i < |s.reservations| && CarefulJob(s0, steps, s.reservations[i].job, b)
             && s.reservations[i].status.Reconciled? && b in s.reservations[i].allocations
    ensures var r := Run(s0, steps).reservations[i];
            r.allocations[b].actual.Some? && 0 <= r.allocations[b].actual.value <= r.allocations[b].reserved
  {
    var s := Run(s0, steps);
    CarefulJobsAreKept(s0, steps, s.reservations[i].job, b);
    RunsAreWellFormed(s0, steps);
    RunsStayBalanced(s0, steps);
    assert CycleKept(s, s.reservations[i], b) && SettledRight(s, s.reservations[i]);
  }

  // ---- Runs without expiry ----

  /** No reservation reaches its expiry, and every step is careful. */
  predicate UnexpiredRun(s: State, steps: seq<Step>, b: BudgetId) {
    steps == []
    || (&& UnexpiredRun(s, steps[..|steps| - 1], b)
        && Careful(Run(s, steps[..|steps| - 1]), steps[|steps| - 1], b)
        && Unexpiring(Run(s, steps[..|steps| - 1]), steps[|steps| - 1]))
  }

  predicate Unexpiring(s: State, step: Step) {
    step.Tick? ==> forall i :: 0 <= i < |s.reservations| ==> !Stale(s.reservations[i], s.clock + step.seconds)
  }

  predicate NoneExpired(s: State) {
    forall i :: 0 <= i < |s.reservations| ==> !s.reservations[i].status.Expired?
  }

  lemma NoneExpiredWeighsNothing(s: State, b: BudgetId)
    requires NoneExpired(s)
    ensures Total(s.reservations, ExpiredWeight(b)) == 0
  {
    TotalEqual(s.reservations, ExpiredWeight(b), (r: Reservation) => 0);
    ZeroTotal(s.reservations);
  }

  lemma {:induction false} ZeroTotal(rs: seq<Reservation>)
    ensures Total(rs, (r: Reservation) => 0) == 0
  {
    if rs == [] {
    } else {
      ZeroTotal(rs[..|rs| - 1]);
    }
  }

  lemma FinalizeExpiresNothing(s: State, job: JobId)
    requires NoneExpired(s)
    ensures NoneExpired(Finalize(s, job))
  {
  }

  lemma StepExpiresNothing(s: State, step: Step)
    requires NoneExpired(s) && Unexpiring(s, step)
    ensures NoneExpired(Apply(s, step))
  {
    match step
    case SettleJob(job) => FinalizeExpiresNothing(s, job);
    case RetryJob(job, _) => FinalizeExpiresNothing(s, job);
    case _ =>
  }

  /** As long as no reservation expires the condition on opening cycles is met of itself, so the limit
      theorem holds for all such runs of careful jobs. */
  lemma {:induction false} UnexpiredRunsAreDisciplined(s: State, steps: seq<Step>, b: BudgetId)
    requires Initial(s) && UnexpiredRun(s, steps, b)
    ensures DisciplinedRun(s, steps, b) && NoneExpired(Run(s, steps))
  {
    if steps == [] {
    } else {
      UnexpiredRunsAreDisciplined(s, steps[..|steps| - 1], b);
      StepExpiresNothing(Run(s, steps[..|steps| - 1]), steps[|steps| - 1]);
      NoneExpiredWeighsNothing(Run(s, steps), b);
    }
  }
}

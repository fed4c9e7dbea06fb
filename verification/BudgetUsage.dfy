/** From reservations to the ledger: all the usage that jobs record stays within a hard budget, as long as no
    job is settled or retried under a request in flight. */
module BudgetUsage {
  import opened Bounded
  import opened Wrappers
  import opened Accounting
  import opened LedgerLemmas
  import opened BudgetRuns
  import opened Settlement
  import opened BudgetSafety

  /** What all jobs together have recorded against a budget. */
  function JobUsage(b: Budget, ledger: seq<UsageEvent>): nat {
    if ledger == [] then 0
    else
      var last := |ledger| - 1;
      JobUsage(b, ledger[..last]) + if ledger[last].job.Some? then EventWeight(b, ledger[last]) else 0
  }

  /** Usage of the budget comes only from a checked request of a job without override, within its projection,
      and no cycle is closed while such a request is in flight. */
  predicate Attended(s: State, step: Step, b: BudgetId) {
    b < |s.budgets| ==>
      match step
      case CheckDispatch(job, estimate) =>
        job in s.jobs && s.jobs[job].allowOverride ==> EstimateWeight(s.budgets[b], estimate) == 0
      case RecordUsage(e) =>
        e.job.Some? && EventWeight(s.budgets[b], e) > 0 ==>
          && e.job.value in s.jobs && s.jobs[e.job.value].inFlight.Some?
          && EventWeight(s.budgets[b], e) <= EstimateWeight(s.budgets[b], s.jobs[e.job.value].inFlight.value)
      case SettleJob(job) => NotClosedUnderRequest(s, job, b)
      case RetryJob(job, _) => NotClosedUnderRequest(s, job, b)
      case _ => true
  }

  predicate NotClosedUnderRequest(s: State, job: JobId, b: BudgetId)
    requires b < |s.budgets|
  {
    job in s.jobs && s.jobs[job].state.IsTerminal() && s.jobs[job].inFlight.Some? ==>
      EstimateWeight(s.budgets[b], s.jobs[job].inFlight.value) == 0
  }

  predicate AttendedRun(s: State, steps: seq<Step>, b: BudgetId) {
    steps == []
    || (&& AttendedRun(s, steps[..|steps| - 1], b)
        && Attended(Run(s, steps[..|steps| - 1]), steps[|steps| - 1], b))
  }

  // ---- A request in flight is carried by an open cycle ----

  predicate Carried(s: State, job: JobId, b: BudgetId) {
    b < |s.budgets| && job in s.jobs && s.jobs[job].inFlight.Some?
    && EstimateWeight(s.budgets[b], s.jobs[job].inFlight.value) > 0 ==>
      InCycle(s, job, b)
  }

  lemma SameStaysCarried(s: State, t: State, job: JobId, b: BudgetId)
    requires SameFor(s, t, job) && WellFormed(s) && Carried(s, job, b)
    ensures Carried(t, job, b)
  {
    if job in s.jobs {
      assert JobOk(s, job);
    }
  }

  lemma CheckedIsCarried(s: State, job: JobId, estimate: Estimate, b: BudgetId)
    requires b < |s.budgets| && s.budgets[b].hard && s.budgets[b].enabled
    requires Carried(s, job, b) && Attended(s, CheckDispatch(job, estimate), b)
    ensures Carried(Apply(s, CheckDispatch(job, estimate)), job, b)
  {
    if DispatchAllowed(s, job, estimate) && EstimateWeight(s.budgets[b], estimate) > 0 {
      assert GuardsDispatch(s.budgets[b], estimate);
      assert DispatchCovered(s, s.jobs[job].reservation, job, b, estimate);
    }
  }

  lemma RetryIsCarried(s: State, job: JobId, estimates: seq<Estimate>, b: BudgetId)
    requires WellFormed(s) && b < |s.budgets| && Carried(s, job, b) && NotClosedUnderRequest(s, job, b)
    ensures Carried(Retry(s, job, estimates), job, b)
  {
    FinalizeFrame(s, job);
  }

  lemma StepStaysCarried(s: State, step: Step, job: JobId, b: BudgetId)
    requires WellFormed(s) && b < |s.budgets| && s.budgets[b].hard && s.budgets[b].enabled
    requires Carried(s, job, b) && Attended(s, step, b)
    ensures Carried(Apply(s, step), job, b)
  {
    if Actor(step) != Some(job) || step.MoveJob? || step.AbandonDispatch? || step.FinishAttempt? {
      OthersChangeNothing(s, step, job);
      SameStaysCarried(s, Apply(s, step), job, b);
    } else {
      match step
      case CheckDispatch(_, estimate) => CheckedIsCarried(s, job, estimate, b);
      case RetryJob(_, estimates) => RetryIsCarried(s, job, estimates, b);
      case SettleJob(_) => FinalizeFrame(s, job);
      case _ =>
    }
  }

  // ---- Every row that counts is in some cycle ----

  function RowWeight(s: State, b: BudgetId): Reservation -> int
    requires b < |s.budgets|
  {
    (r: Reservation) => if b in r.allocations then ExactUsage(s.budgets[b], CycleRows(s, r)) else 0
  }

  /** All usage of the budget is in the rows of cycles that hold an allocation for it. */
  predicate AllInCycles(s: State, b: BudgetId) {
    b < |s.budgets| && JobUsage(s.budgets[b], s.ledger) <= Total(s.reservations, RowWeight(s, b))
  }

  lemma {:induction false} TotalGains(rs: seq<Reservation>, qs: seq<Reservation>, v: Reservation -> int,
                                      w: Reservation -> int, i: nat, gain: nat)
    requires |rs| <= |qs| && (gain > 0 ==> i < |rs|)
    requires forall k :: 0 <= k < |rs| ==> v(rs[k]) + (if k == i then gain else 0) <= w(qs[k])
    requires forall k :: |rs| <= k < |qs| ==> w(qs[k]) >= 0
    ensures Total(rs, v) + gain <= Total(qs, w)
  {
    if qs == [] {
    } else if |rs| < |qs| {
      TotalGains(rs, qs[..|qs| - 1], v, w, i, gain);
    } else {
      var last := |rs| - 1;
      TotalGains(rs[..last], qs[..last], v, w, i, if i == last then 0 else gain);
    }
  }

  /** The rows of a cycle stay its rows when it expires or is settled. */
  lemma RowsStay(s: State, t: State, i: nat)
    requires WellFormed(s) && i < |s.reservations| && i < |t.reservations| && t.ledger == s.ledger
    requires var r, q := s.reservations[i], t.reservations[i];
             q == r || (Open(r) && q.job == r.job && q.start == r.start
                        && (Open(q) || q.settledAt == Some(|s.ledger|)))
    ensures CycleRows(t, t.reservations[i]) == CycleRows(s, s.reservations[i])
  {
    assert s.ledger[..|s.ledger|] == s.ledger;
    assert ReservationOk(s, s.reservations[i]);
  }

  /** What any step but a recording does to a reservation, as far as its rows are concerned. */
  predicate KeepsRows(s: State, t: State) {
    && t.ledger == s.ledger && t.budgets == s.budgets && |s.reservations| <= |t.reservations|
    && forall i :: 0 <= i < |s.reservations| ==>
         var r, q := s.reservations[i], t.reservations[i];
         && q.allocations.Keys == r.allocations.Keys
         && (q == r || (Open(r) && q.job == r.job && q.start == r.start
                        && (Open(q) || q.settledAt == Some(|s.ledger|))))
  }

  lemma FinalizeKeepsRows(s: State, job: JobId)
    requires WellFormed(s)
    ensures KeepsRows(s, Finalize(s, job))
  {
  }

  lemma StepKeepsRows(s: State, step: Step)
    requires WellFormed(s) && !step.RecordUsage?
    ensures KeepsRows(s, Apply(s, step))
  {
    match step
    case AdmitJob(job, allowOverride, estimates) => AdmitKeepsRows(s, job, allowOverride, estimates);
    case SettleJob(job) => FinalizeKeepsRows(s, job);
    case RetryJob(job, estimates) => RetryKeepsRows(s, job, estimates);
    case Tick(seconds) => TickKeepsRows(s, seconds);
    case _ =>
  }

  lemma AdmitKeepsRows(s: State, job: JobId, allowOverride: bool, estimates: seq<Estimate>)
    ensures KeepsRows(s, Admit(s, job, allowOverride, estimates))
  {
  }

  lemma RetryKeepsRows(s: State, job: JobId, estimates: seq<Estimate>)
    requires WellFormed(s)
    ensures KeepsRows(s, Retry(s, job, estimates))
  {
    FinalizeKeepsRows(s, job);
  }

  lemma TickKeepsRows(s: State, seconds: nat)
    ensures KeepsRows(s, Apply(s, Tick(seconds)))
  {
  }

  lemma KeptRowsStayInCycles(s: State, t: State, b: BudgetId)
    requires WellFormed(s) && AllInCycles(s, b) && KeepsRows(s, t)
    ensures AllInCycles(t, b)
  {
    forall i | 0 <= i < |s.reservations|
      ensures RowWeight(t, b)(t.reservations[i]) == RowWeight(s, b)(s.reservations[i])
    {
      RowsStay(s, t, i);
      assert b in t.reservations[i].allocations.Keys <==> b in s.reservations[i].allocations.Keys;
    }
    TotalGains(s.reservations, t.reservations, RowWeight(s, b), RowWeight(t, b), 0, 0);
  }

  /** A new row adds its usage to its job's open cycle and takes nothing from any other. */
  lemma RecordedRows(s: State, e: UsageEvent, b: BudgetId, i: nat)
    requires WellFormed(s) && i < |s.reservations| && b < |s.budgets|
    ensures var t := Apply(s, RecordUsage(e));
            var r := s.reservations[i];
            RowWeight(t, b)(t.reservations[i]) == RowWeight(s, b)(r)
              + if Open(r) && e.job == Some(r.job) && b in r.allocations then EventWeight(s.budgets[b], e) else 0
  {
    var t, r := Apply(s, RecordUsage(e)), s.reservations[i];
    assert ReservationOk(s, r);
    if Open(r) {
      CycleEventsAppend(s.ledger, e, r.job, r.start);
      ExactUsageConcat(s.budgets[b], if e.job == Some(r.job) then [e] else [], CycleEvents(s.ledger, r.job, r.start));
      SingleUsage(s.budgets[b], e);
    } else {
      assert t.ledger[..r.settledAt.value] == s.ledger[..r.settledAt.value];
    }
  }

  lemma RecordStaysInCycles(s: State, e: UsageEvent, b: BudgetId)
    requires WellFormed(s) && AllInCycles(s, b) && Attended(s, RecordUsage(e), b)
    requires e.job.Some? ==> Carried(s, e.job.value, b)
    ensures AllInCycles(Apply(s, RecordUsage(e)), b)
  {
    var t := Apply(s, RecordUsage(e));
    var gain := if e.job.Some? then EventWeight(s.budgets[b], e) else 0;
    var i := 0;
    if gain > 0 {
      assert InCycle(s, e.job.value, b) && JobOk(s, e.job.value);
      i := s.jobs[e.job.value].reservation.value;
    }
    forall k | 0 <= k < |s.reservations|
      ensures RowWeight(s, b)(s.reservations[k]) + (if k == i then gain else 0) <= RowWeight(t, b)(t.reservations[k])
    {
      RecordedRows(s, e, b, k);
    }
    TotalGains(s.reservations, t.reservations, RowWeight(s, b), RowWeight(t, b), i, gain);
    assert t.ledger[..|s.ledger|] == s.ledger;
  }

  lemma {:induction false} RunsStayInCycles(s: State, steps: seq<Step>, b: BudgetId)
    requires Initial(s) && AttendedRun(s, steps, b)
    requires b < |s.budgets| && s.budgets[b].hard && s.budgets[b].enabled
    ensures AllInCycles(Run(s, steps), b) && forall job: JobId :: Carried(Run(s, steps), job, b)
  {
    if steps == [] {
    } else {
      var before, step := Run(s, steps[..|steps| - 1]), steps[|steps| - 1];
      RunsStayInCycles(s, steps[..|steps| - 1], b);
      RunsAreWellFormed(s, steps[..|steps| - 1]);
      forall job: JobId
        ensures Carried(Apply(before, step), job, b)
      {
        StepStaysCarried(before, step, job, b);
      }
      if step.RecordUsage? {
        RecordStaysInCycles(before, step.event, b);
      } else {
        StepKeepsRows(before, step);
        KeptRowsStayInCycles(before, Apply(before, step), b);
      }
    }
  }

  /** Conservation and safety together. If no job is settled or retried under a request in flight, then what
      the budget had used at the start and all usage that jobs ever record against it are within its limit,
      whatever of it was charged so far. Only a reservation of the largest i64 could be overrun. */
  lemma {:induction false} RecordedUsageIsWithinLimit(s0: State, steps: seq<Step>, b: BudgetId)
    requires Initial(s0) && DisciplinedRun(s0, steps, b) && AttendedRun(s0, steps, b)
    requires b < |s0.budgets| && s0.budgets[b].hard && s0.budgets[b].enabled && s0.budgets[b].period.Lifetime?
    requires s0.budgets[b].limit < I64_MAX || s0.used[b] > 0
    ensures s0.used[b] + JobUsage(s0.budgets[b], Run(s0, steps).ledger) <= Max(s0.budgets[b].limit, s0.used[b])
  {
    var s := Run(s0, steps);
    RunsAreWellFormed(s0, steps);
    RunsStayBalanced(s0, steps);
    DisciplinedRunsKeepLimit(s0, steps, b);
    RunsStayInCycles(s0, steps, b);
    forall i | 0 <= i < |s.reservations|
      ensures RowWeight(s, b)(s.reservations[i]) <= SpentWeight(b)(s.reservations[i])
    {
      var r := s.reservations[i];
      if b in r.allocations {
        DisciplinedJobsAreCareful(s0, steps, r.job, b);
        CarefulJobsAreKept(s0, steps, r.job, b);
        assert CycleKept(s, r, b) && SettledRight(s, r) && ReservationOk(s, r);
        ConsumedInState(s, r, b);
      }
    }
    TotalGains(s.reservations, s.reservations, RowWeight(s, b), SpentWeight(b), 0, 0);
  }
}

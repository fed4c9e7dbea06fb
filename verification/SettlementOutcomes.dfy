/** What a settlement makes of a cycle without ledger rows, said on the steps of a run: which attempts were
    reported, and when. */
module SettlementOutcomes {
  import opened Bounded
  import opened Wrappers
  import opened Accounting
  import opened LedgerLemmas
  import opened BudgetRuns
  import opened Settlement

  /** Step `q` of the run reports a successful attempt of the job. */
  predicate ReportsSuccess(steps: seq<Step>, q: nat, job: JobId) {
    q < |steps| && steps[q] == FinishAttempt(job, true)
  }

  /** A success of the job was reported in the run, at the given time or later. */
  predicate SuccessReported(s0: State, steps: seq<Step>, job: JobId, time: nat) {
    exists q :: 0 <= q < |steps| && ReportsSuccess(steps, q, job) && time <= Run(s0, steps[..q]).clock
  }

  predicate AttemptCounts(attempt: Attempt, job: JobId, time: nat) {
    attempt.job == job && attempt.success && time <= attempt.finishedAt
  }

  lemma OneMoreAttempt(attempts: seq<Attempt>, attempt: Attempt, job: JobId, time: nat)
    ensures SuccessfulSince(attempts + [attempt], job, time)
       <==> SuccessfulSince(attempts, job, time) || AttemptCounts(attempt, job, time)
  {
    var all := attempts + [attempt];
    if SuccessfulSince(attempts, job, time) {
      var i :| 0 <= i < |attempts| && attempts[i].job == job && attempts[i].success && time <= attempts[i].finishedAt;
      assert all[i] == attempts[i];
    }
    if AttemptCounts(attempt, job, time) {
      assert all[|attempts|] == attempt;
    }
  }

  lemma {:induction false} OneMoreStep(s0: State, steps: seq<Step>, job: JobId, time: nat)
    requires steps != []
    ensures var before := steps[..|steps| - 1];
            SuccessReported(s0, steps, job, time) <==>
              || SuccessReported(s0, before, job, time)
              || (steps[|steps| - 1] == FinishAttempt(job, true) && time <= Run(s0, before).clock)
  {
    var before := steps[..|steps| - 1];
    forall q | 0 <= q < |before|
      ensures ReportsSuccess(before, q, job) == ReportsSuccess(steps, q, job) && before[..q] == steps[..q]
    {
    }
    if SuccessReported(s0, before, job, time) {
      var q :| 0 <= q < |before| && ReportsSuccess(before, q, job) && time <= Run(s0, before[..q]).clock;
      assert ReportsSuccess(steps, q, job) && before[..q] == steps[..q];
    }
    if steps[|steps| - 1] == FinishAttempt(job, true) && time <= Run(s0, before).clock {
      assert ReportsSuccess(steps, |steps| - 1, job);
    }
    if SuccessReported(s0, steps, job, time) {
      var q :| 0 <= q < |steps| && ReportsSuccess(steps, q, job) && time <= Run(s0, steps[..q]).clock;
      if q < |before| {
        assert ReportsSuccess(before, q, job) && before[..q] == steps[..q];
      }
    }
  }

  lemma AttemptsStay(s: State, step: Step)
    requires !step.FinishAttempt?
    ensures Apply(s, step).attempts == s.attempts
  {
  }

  /** The stored attempts are the reported ones. */
  lemma {:induction false} AttemptsAreReported(s0: State, steps: seq<Step>, job: JobId, time: nat)
    requires Initial(s0)
    ensures SuccessfulSince(Run(s0, steps).attempts, job, time) <==> SuccessReported(s0, steps, job, time)
  {
    if steps == [] {
    } else {
      var before, step := steps[..|steps| - 1], steps[|steps| - 1];
      AttemptsAreReported(s0, before, job, time);
      OneMoreStep(s0, steps, job, time);
      if step.FinishAttempt? {
        OneMoreAttempt(Run(s0, before).attempts, Attempt(step.job, Run(s0, before).clock, step.success), job, time);
      } else {
        AttemptsStay(Run(s0, before), step);
      }
    }
  }

  /** Settling a terminal job whose open cycle has no ledger row releases the cycle if and only if no success
      of the job was reported since its admission, failed attempts or not; otherwise it changes nothing,
      and no retry is admitted over it. */
  lemma {:induction false} IdleCycleIsReleasedIff(s0: State, steps: seq<Step>, i: nat, estimates: seq<Estimate>)
    requires Initial(s0)
    requires var s := Run(s0, steps);
             && i < |s.reservations| && Open(s.reservations[i])
             && s.reservations[i].job in s.jobs && s.jobs[s.reservations[i].job].state.IsTerminal()
             && CycleEvents(s.ledger, s.reservations[i].job, s.reservations[i].start) == []
    ensures var s := Run(s0, steps);
            var r := s.reservations[i];
            var t := Apply(s, SettleJob(r.job));
            && i < |t.reservations| && t.used == s.used
            && (t.reservations[i].status.Released? <==> !SuccessReported(s0, steps, r.job, r.createdAt))
            && (SuccessReported(s0, steps, r.job, r.createdAt) ==> t == s == Apply(s, RetryJob(r.job, estimates)))
  {
    RunsAreWellFormed(s0, steps);
    var s := Run(s0, steps);
    AttemptsAreReported(s0, steps, s.reservations[i].job, s.reservations[i].createdAt);
    IdleCycleInState(s, i, estimates);
  }

  lemma IdleCycleInState(s: State, i: nat, estimates: seq<Estimate>)
    requires WellFormed(s) && i < |s.reservations| && Open(s.reservations[i])
    requires s.reservations[i].job in s.jobs && s.jobs[s.reservations[i].job].state.IsTerminal()
    requires CycleEvents(s.ledger, s.reservations[i].job, s.reservations[i].start) == []
    ensures var r := s.reservations[i];
            var t := Apply(s, SettleJob(r.job));
            var kept := SuccessfulSince(s.attempts, r.job, r.createdAt);
            && i < |t.reservations| && t.used == s.used
            && (t.reservations[i].status.Released? <==> !kept)
            && (kept ==> t == s == Apply(s, RetryJob(r.job, estimates)))
  {
    var r := s.reservations[i];
    assert ReservationOk(s, r);
    assert Settleable(s, r.job) && s.jobs[r.job].reservation == Some(i);
  }

  // ---- A success is never forgotten ----

  /** A success of its job keeps a reservation from being released: it stays open or is reconciled. */
  predicate Secured(s: State, i: nat) {
    && i < |s.reservations|
    && !s.reservations[i].status.Released?
    && s.reservations[i].createdAt <= s.clock
    && SuccessfulSince(s.attempts, s.reservations[i].job, s.reservations[i].createdAt)
  }

  lemma FinalizeKeepsSecured(s: State, job: JobId, i: nat)
    requires WellFormed(s) && Secured(s, i)
    ensures Secured(Finalize(s, job), i)
  {
    if Settleable(s, job) {
      assert JobOk(s, job);
    }
  }

  lemma RetryKeepsSecured(s: State, job: JobId, estimates: seq<Estimate>, i: nat)
    requires WellFormed(s) && Secured(s, i)
    ensures Secured(Retry(s, job, estimates), i)
  {
    FinalizeKeepsSecured(s, job, i);
  }

  lemma StepKeepsSecured(s: State, step: Step, i: nat)
    requires WellFormed(s) && Secured(s, i)
    ensures Secured(Apply(s, step), i)
  {
    match step
    case SettleJob(job) => FinalizeKeepsSecured(s, job, i);
    case RetryJob(job, estimates) => RetryKeepsSecured(s, job, estimates, i);
    case FinishAttempt(job, success) =>
      OneMoreAttempt(s.attempts, Attempt(job, s.clock, success), s.reservations[i].job, s.reservations[i].createdAt);
    case _ =>
  }

  predicate CreatedBefore(s: State) {
    forall i :: 0 <= i < |s.reservations| ==> s.reservations[i].createdAt <= s.clock
  }

  lemma FinalizeKeepsTimes(s: State, job: JobId)
    requires CreatedBefore(s)
    ensures CreatedBefore(Finalize(s, job)) && Finalize(s, job).clock == s.clock
  {
  }

  lemma StepKeepsTimes(s: State, step: Step)
    requires CreatedBefore(s)
    ensures CreatedBefore(Apply(s, step))
  {
    match step
    case SettleJob(job) => FinalizeKeepsTimes(s, job);
    case RetryJob(job, _) => FinalizeKeepsTimes(s, job);
    case _ =>
  }

  lemma {:induction false} RunsKeepTimes(s0: State, steps: seq<Step>)
    requires Initial(s0)
    ensures CreatedBefore(Run(s0, steps))
  {
    if steps == [] {
    } else {
      RunsKeepTimes(s0, steps[..|steps| - 1]);
      StepKeepsTimes(Run(s0, steps[..|steps| - 1]), steps[|steps| - 1]);
    }
  }

  lemma SuccessSecures(s: State, job: JobId, i: nat)
    requires CreatedBefore(s) && i < |s.reservations| && s.reservations[i].job == job
    requires !s.reservations[i].status.Released?
    ensures Secured(Apply(s, FinishAttempt(job, true)), i)
  {
    OneMoreAttempt(s.attempts, Attempt(job, s.clock, true), job, s.reservations[i].createdAt);
  }

  /** Once a success of its job is reported, no later step of any run releases a reservation: not a settlement,
      not a retry. It is reconciled against its rows, or kept open as long as there are none. */
  lemma {:induction false} SuccessIsNeverReleased(s0: State, steps: seq<Step>, q: nat, i: nat)
    requires Initial(s0) && q < |steps| && i < |Run(s0, steps[..q]).reservations|
    requires ReportsSuccess(steps, q, Run(s0, steps[..q]).reservations[i].job)
    requires !Run(s0, steps[..q]).reservations[i].status.Released?
    ensures i < |Run(s0, steps).reservations| && !Run(s0, steps).reservations[i].status.Released?
  {
    SecuredFromThere(s0, steps, q, i);
  }

  lemma {:induction false} SecuredFromThere(s0: State, steps: seq<Step>, q: nat, i: nat)
    requires Initial(s0) && q < |steps| && i < |Run(s0, steps[..q]).reservations|
    requires ReportsSuccess(steps, q, Run(s0, steps[..q]).reservations[i].job)
    requires !Run(s0, steps[..q]).reservations[i].status.Released?
    ensures Secured(Run(s0, steps), i)
    decreases |steps|
  {
    var before := steps[..|steps| - 1];
    if q == |steps| - 1 {
      RunsKeepTimes(s0, before);
      SuccessSecures(Run(s0, before), Run(s0, before).reservations[i].job, i);
    } else {
      assert before[..q] == steps[..q] && before[q] == steps[q];
      SecuredFromThere(s0, before, q, i);
      RunsAreWellFormed(s0, before);
      StepKeepsSecured(Run(s0, before), steps[|steps| - 1], i);
    }
  }
}

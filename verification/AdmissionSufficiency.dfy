/** Admission is sufficient: a job that dispatches exactly what it was admitted for, in any order
    and with anything else going on around it, is never refused by the dispatch check. */
module AdmissionSufficiency {
  import opened Bounded
  import opened Wrappers
  import opened Accounting
  import opened LedgerLemmas
  import opened BudgetRuns

  /** Usage that every budget guarding both this request and the next one knows, and that is at most its
      estimate. Soft and disabled budgets, and those of other providers, do not matter. */
  predicate Fulfils(budgets: seq<Budget>, e: UsageEvent, estimate: Estimate, next: Estimate) {
    && e.provider == estimate.provider
    && forall k :: 0 <= k < |budgets| && GuardsDispatch(budgets[k], estimate) && GuardsDispatch(budgets[k], next) ==>
         UsageAmount(budgets[k], e).Some? && EventWeight(budgets[k], e) <= EstimateWeight(budgets[k], estimate)
  }

  /** The recorded rows are those of the admitted estimates at the chosen, pairwise distinct places. */
  predicate Dispatched(budgets: seq<Budget>, events: seq<UsageEvent>, estimates: seq<Estimate>, picks: seq<nat>,
                       next: Estimate)
  {
    && |picks| == |events| && Distinct(picks)
    && forall i :: 0 <= i < |picks| ==>
         picks[i] < |estimates| && Fulfils(budgets, events[i], estimates[picks[i]], next)
  }

  predicate Distinct(picks: seq<nat>) {
    forall i, k :: 0 <= i < k < |picks| ==> picks[i] != picks[k]
  }

  predicate Within(picks: seq<nat>, n: nat) {
    forall i :: 0 <= i < |picks| ==> picks[i] < n
  }

  function PickedWeight(b: Budget, estimates: seq<Estimate>, picks: seq<nat>): nat
    requires Within(picks, |estimates|)
  {
    if picks == [] then 0
    else EstimateWeight(b, estimates[picks[0]]) + PickedWeight(b, estimates, picks[1..])
  }

  lemma {:induction false} PickOut(b: Budget, estimates: seq<Estimate>, picks: seq<nat>, i: nat)
    requires Within(picks, |estimates|)
    requires i < |picks|
    ensures PickedWeight(b, estimates, picks)
         == EstimateWeight(b, estimates[picks[i]]) + PickedWeight(b, estimates, picks[..i] + picks[i + 1..])
  {
    if i == 0 {
      assert picks[..0] + picks[1..] == picks[1..];
    } else {
      PickOut(b, estimates, picks[1..], i - 1);
      var rest := picks[..i] + picks[i + 1..];
      assert rest[1..] == picks[1..][..i - 1] + picks[1..][i..];
    }
  }

  lemma {:induction false} PicksInPrefix(b: Budget, estimates: seq<Estimate>, picks: seq<nat>, n: nat)
    requires n <= |estimates| && Within(picks, n)
    ensures PickedWeight(b, estimates, picks) == PickedWeight(b, estimates[..n], picks)
  {
    if picks == [] {
    } else {
      PicksInPrefix(b, estimates, picks[1..], n);
    }
  }

  /** Distinct estimates never weigh more than all of them together. */
  lemma {:induction false} PicksWithinEstimate(b: Budget, estimates: seq<Estimate>, picks: seq<nat>)
    requires Distinct(picks) && Within(picks, |estimates|)
    ensures PickedWeight(b, estimates, picks) <= ExactEstimate(b, estimates)
  {
    if estimates == [] {
    } else {
      var n := |estimates| - 1;
      assert estimates == estimates[..n] + [estimates[n]];
      ExactEstimateConcat(b, estimates[..n], [estimates[n]]);
      var rest := picks;
      if n in picks {
        var i :| 0 <= i < |picks| && picks[i] == n;
        PickOut(b, estimates, picks, i);
        rest := picks[..i] + picks[i + 1..];
      }
      assert Within(rest, n);
      PicksWithinEstimate(b, estimates[..n], rest);
      PicksInPrefix(b, estimates, rest, n);
    }
  }

  lemma {:induction false} UsageWithinPicks(budgets: seq<Budget>, k: nat, events: seq<UsageEvent>,
                                            estimates: seq<Estimate>, picks: seq<nat>, next: Estimate)
    requires k < |budgets| && GuardsDispatch(budgets[k], next)
    requires Dispatched(budgets, events, estimates, picks, next)
    ensures ExactUsage(budgets[k], events) <= PickedWeight(budgets[k], estimates, picks)
    ensures !UnknownUsage(budgets[k], events)
  {
    if events == [] {
    } else {
      UsageWithinPicks(budgets, k, events[1..], estimates, picks[1..], next);
      assert Fulfils(budgets, events[0], estimates[picks[0]], next);
      forall i | 0 <= i < |events| && AppliesTo(budgets[k], events[i].provider)
        ensures UsageAmount(budgets[k], events[i]).Some?
      {
        assert Fulfils(budgets, events[i], estimates[picks[i]], next);
      }
    }
  }

  /** One budget's check passes for the next admitted request. */
  lemma NextRequestIsCovered(budgets: seq<Budget>, k: nat, r: Reservation, estimates: seq<Estimate>,
                             events: seq<UsageEvent>, picks: seq<nat>, next: nat)
    requires k < |budgets| && next < |estimates| && GuardsDispatch(budgets[k], estimates[next])
    requires !PlanRefused(budgets, false, estimates)
    requires r.allocations == PlannedAllocations(budgets, estimates)
    requires Dispatched(budgets, events, estimates, picks, estimates[next]) && next !in picks
    ensures Covers(budgets[k], k, r, events, estimates[next])
  {
    var b := budgets[k];
    assert Touches(b, estimates);
    assert !Unestimable(b, false, estimates);
    UsageWithinPicks(budgets, k, events, estimates, picks, estimates[next]);
    PicksWithinEstimate(b, estimates, [next] + picks);
    assert ([next] + picks)[1..] == picks;
    assert ExactUsage(b, events) + EstimateWeight(b, estimates[next]) <= ExactEstimate(b, estimates);
  }

  // ---- What a run does to an admitted cycle while it is open ----

  /** As long as reservation `i` is active, its admission is what it was. */
  predicate SameCycle(s: State, t: State, i: nat)
    requires i < |s.reservations|
  {
    && i < |t.reservations|
    && t.budgets == s.budgets
    && (t.reservations[i].status.Active? ==>
          && s.reservations[i].status.Active?
          && t.reservations[i].allocations == s.reservations[i].allocations
          && t.reservations[i].start == s.reservations[i].start)
  }

  lemma FinalizeKeepsActiveCycle(s: State, job: JobId, i: nat)
    requires i < |s.reservations|
    ensures SameCycle(s, Finalize(s, job), i)
  {
  }

  lemma {:induction false} StepKeepsActiveCycle(s: State, step: Step, i: nat)
    requires i < |s.reservations|
    ensures SameCycle(s, Apply(s, step), i)
  {
    match step
    case SettleJob(job) => FinalizeKeepsActiveCycle(s, job, i);
    case RetryJob(job, estimates) =>
      FinalizeKeepsActiveCycle(s, job, i);
      assert Retry(s, job, estimates) == s || SameCycle(Finalize(s, job), Retry(s, job, estimates), i);
    case _ =>
  }

  lemma {:induction false} RunKeepsActiveCycle(s: State, steps: seq<Step>, i: nat)
    requires i < |s.reservations|
    ensures SameCycle(s, Run(s, steps), i)
  {
    if steps == [] {
    } else {
      RunKeepsActiveCycle(s, steps[..|steps| - 1], i);
      StepKeepsActiveCycle(Run(s, steps[..|steps| - 1]), steps[|steps| - 1], i);
    }
  }

  lemma StepKeepsJob(s: State, step: Step, job: JobId)
    requires job in s.jobs
    ensures var t := Apply(s, step);
            job in t.jobs && t.jobs[job].allowOverride == s.jobs[job].allowOverride && t.budgets == s.budgets
  {
    match step
    case RetryJob(other, estimates) => assert Finalize(s, other).jobs == s.jobs;
    case _ =>
  }

  lemma {:induction false} RunKeepsJob(s: State, steps: seq<Step>, job: JobId)
    requires job in s.jobs
    ensures var t := Run(s, steps);
            job in t.jobs && t.jobs[job].allowOverride == s.jobs[job].allowOverride && t.budgets == s.budgets
  {
    if steps == [] {
    } else {
      RunKeepsJob(s, steps[..|steps| - 1], job);
      StepKeepsJob(Run(s, steps[..|steps| - 1]), steps[|steps| - 1], job);
    }
  }

  /** `a` has just opened an admission cycle of `job` for these estimates. */
  predicate CycleOpened(a: State, job: JobId, estimates: seq<Estimate>, start: nat) {
    && job in a.jobs && !a.jobs[job].allowOverride
    && !PlanRefused(a.budgets, false, estimates)
    && var id := a.jobs[job].reservation;
       if PlannedAllocations(a.budgets, estimates) == map[] then id.None?
       else
         && id.Some? && id.value < |a.reservations|
         && a.reservations[id.value].allocations == PlannedAllocations(a.budgets, estimates)
         && a.reservations[id.value].start == start
  }

  /** The job is still in the cycle it had in `a`, and every row recorded since the cycle's boundary is
      usage of one of the estimates, no estimate twice. */
  predicate StillInCycle(a: State, t: State, job: JobId, estimates: seq<Estimate>, start: nat, picks: seq<nat>,
                         next: Estimate)
    requires job in a.jobs
  {
    var id := a.jobs[job].reservation;
    && job in t.jobs && t.jobs[job].reservation == id
    && (id.Some? && id.value < |t.reservations| ==> t.reservations[id.value].status.Active?)
    && Dispatched(a.budgets, CycleEvents(t.ledger, job, start), estimates, picks, next)
  }

  lemma {:induction false} OpenedCycleIsSufficient(a: State, job: JobId, estimates: seq<Estimate>, start: nat,
                                steps: seq<Step>, picks: seq<nat>, next: nat)
    requires CycleOpened(a, job, estimates, start)
    requires next < |estimates| && next !in picks
    requires StillInCycle(a, Run(a, steps), job, estimates, start, picks, estimates[next])
    ensures DispatchAllowed(Run(a, steps), job, estimates[next])
  {
    var t := Run(a, steps);
    RunKeepsJob(a, steps, job);
    var id := a.jobs[job].reservation;
    if id.Some? {
      RunKeepsActiveCycle(a, steps, id.value);
    }
    forall k | 0 <= k < |t.budgets| && GuardsDispatch(t.budgets[k], estimates[next])
      ensures DispatchCovered(t, t.jobs[job].reservation, job, k, estimates[next])
    {
      assert Touches(a.budgets[k], estimates);
      assert k in PlannedAllocations(a.budgets, estimates);
      NextRequestIsCovered(a.budgets, k, t.reservations[id.value], estimates,
                           CycleEvents(t.ledger, job, start), picks, next);
    }
  }

  /** Admission is sufficient. After `job` was admitted for `estimates` and any further steps of any
      jobs, as long as the same cycle is still active and its recorded rows are usage of distinct
      admitted estimates, the check lets through every admitted estimate not yet dispatched. */
  lemma {:induction false} AdmittedWorkIsNeverRefused(s: State, job: JobId, estimates: seq<Estimate>,
                                                      steps: seq<Step>, picks: seq<nat>, next: nat)
    requires job !in s.jobs && job in Admit(s, job, false, estimates).jobs
    requires next < |estimates| && next !in picks
    requires var a := Admit(s, job, false, estimates);
             StillInCycle(a, Run(a, steps), job, estimates, |s.ledger|, picks, estimates[next])
    ensures DispatchAllowed(Run(Admit(s, job, false, estimates), steps), job, estimates[next])
  {
    OpenedCycleIsSufficient(Admit(s, job, false, estimates), job, estimates, |s.ledger|, steps, picks, next);
  }

  lemma RetryOpensCycle(s: State, job: JobId, estimates: seq<Estimate>)
    requires job in s.jobs && s.jobs[job].state.Failed? && !s.jobs[job].allowOverride
    requires job in Retry(s, job, estimates).jobs && Retry(s, job, estimates).jobs[job].state.Queued?
    ensures CycleOpened(Retry(s, job, estimates), job, estimates, |s.ledger|)
  {
    var f := Finalize(s, job);
    assert f.jobs == s.jobs && f.ledger == s.ledger && f.budgets == s.budgets;
  }

  /** The same for every later cycle: after a retry was admitted, usage of earlier cycles never stands
      in the way of what the new one was admitted for. */
  lemma {:induction false} RetriedWorkIsNeverRefused(s: State, job: JobId, estimates: seq<Estimate>, steps: seq<Step>,
                                                     picks: seq<nat>, next: nat)
    requires job in s.jobs && s.jobs[job].state.Failed? && !s.jobs[job].allowOverride
    requires job in Retry(s, job, estimates).jobs && Retry(s, job, estimates).jobs[job].state.Queued?
    requires next < |estimates| && next !in picks
    requires var a := Retry(s, job, estimates);
             StillInCycle(a, Run(a, steps), job, estimates, |s.ledger|, picks, estimates[next])
    ensures DispatchAllowed(Run(Retry(s, job, estimates), steps), job, estimates[next])
  {
    RetryOpensCycle(s, job, estimates);
    OpenedCycleIsSufficient(Retry(s, job, estimates), job, estimates, |s.ledger|, steps, picks, next);
  }
}

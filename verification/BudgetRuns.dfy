/** Runs of the budget system: any sequence of admissions, dispatch checks, usage records, clock
    ticks, settlements and retries, over a fixed set of budgets. */
module BudgetRuns {
  import opened Bounded
  import opened Wrappers
  import opened Accounting

  const SEVEN_DAYS := 7 * 24 * 60 * 60

  datatype Step =
    | AdmitJob(job: JobId, allowOverride: bool, estimates: seq<Estimate>)
    | MoveJob(job: JobId, next: JobState)
    | CheckDispatch(job: JobId, estimate: Estimate)
    | RecordUsage(event: UsageEvent)
    | AbandonDispatch(job: JobId)
    | FinishAttempt(job: JobId, success: bool)
    | SettleJob(job: JobId)
    | RetryJob(job: JobId, estimates: seq<Estimate>)
    | Tick(seconds: nat)

  predicate Stale(r: Reservation, now: nat) {
    r.status.Active? && r.createdAt + SEVEN_DAYS <= now
  }

  /** Marks overdue reservations as expired. The repository does this before every read that could
      notice, so doing it with the clock is the same to every caller. */
  function ExpireStale(rs: seq<Reservation>, now: nat): seq<Reservation> {
    seq(|rs|, i requires 0 <= i < |rs| => if Stale(rs[i], now) then rs[i].(status := Expired) else rs[i])
  }

  /** An active reservation expires exactly when it is seven days old; no other one changes. */
  lemma ExpiryIsExact(rs: seq<Reservation>, now: nat, i: nat)
    requires i < |rs|
    ensures |ExpireStale(rs, now)| == |rs|
    ensures ExpireStale(rs, now)[i] == if rs[i].status == Active && now >= rs[i].createdAt + 604_800
                                       then rs[i].(status := Expired) else rs[i]
  {
  }

  function SetInFlight(s: State, job: JobId, estimate: Option<Estimate>): State
    requires job in s.jobs
  {
    s.(jobs := s.jobs[job := s.jobs[job].(inFlight := estimate)])
  }

  function Apply(s: State, step: Step): State {
    match step
    case AdmitJob(job, allowOverride, estimates) => Admit(s, job, allowOverride, estimates)
    case MoveJob(job, next) =>
      if job in s.jobs && s.jobs[job].state.CanTransitionTo(next)
      then s.(jobs := s.jobs[job := s.jobs[job].(state := next)]) else s
    case CheckDispatch(job, estimate) =>
      if DispatchAllowed(s, job, estimate) then SetInFlight(s, job, Some(estimate)) else s
    case RecordUsage(event) =>
      var recorded := s.(ledger := s.ledger + [event]);
      if event.job.Some? && event.job.value in s.jobs then SetInFlight(recorded, event.job.value, None) else recorded
    case AbandonDispatch(job) => if job in s.jobs then SetInFlight(s, job, None) else s
    case FinishAttempt(job, success) => s.(attempts := s.attempts + [Attempt(job, s.clock, success)])
    case SettleJob(job) => Finalize(s, job)
    case RetryJob(job, estimates) => Retry(s, job, estimates)
    case Tick(seconds) =>
      s.(clock := s.clock + seconds, reservations := ExpireStale(s.reservations, s.clock + seconds))
  }

  function Run(s: State, steps: seq<Step>): State {
    if steps == [] then s else Apply(Run(s, steps[..|steps| - 1]), steps[|steps| - 1])
  }

  /** A service that has not admitted anything yet. */
  predicate Initial(s: State) {
    && |s.used| == |s.budgets|
    && (forall b :: 0 <= b < |s.used| ==> s.used[b] >= 0)
    && s.reservations == [] && s.jobs == map[] && s.ledger == [] && s.attempts == []
  }

  // ---- What every run keeps ----

  predicate Open(r: Reservation) {
    r.status.Active? || r.status.Expired?
  }

  predicate ReservationOk(s: State, r: Reservation) {
    && r.job in s.jobs
    && r.start <= |s.ledger|
    && (Open(r) <==> r.settledAt.None?)
    && (r.settledAt.Some? ==> r.start <= r.settledAt.value <= |s.ledger|)
    && (forall b :: b in r.allocations ==>
          b < |s.budgets| && s.budgets[b].enabled && r.allocations[b].reserved >= 0)
  }

  predicate JobOk(s: State, job: JobId)
    requires job in s.jobs
  {
    var id := s.jobs[job].reservation;
    id.Some? ==> id.value < |s.reservations| && s.reservations[id.value].job == job
  }

  /** The cycles of one job do not overlap: an earlier one is closed before the next begins. */
  predicate CyclesOrdered(earlier: Reservation, later: Reservation) {
    earlier.job == later.job ==> earlier.settledAt.Some? && earlier.settledAt.value <= later.start
  }

  ghost predicate WellFormed(s: State) {
    && |s.used| == |s.budgets|
    && (forall b :: 0 <= b < |s.used| ==> s.used[b] >= 0)
    && (forall i :: 0 <= i < |s.reservations| ==> ReservationOk(s, s.reservations[i]))
    && (forall i :: 0 <= i < |s.reservations| && Open(s.reservations[i]) ==>
          s.reservations[i].job in s.jobs && s.jobs[s.reservations[i].job].reservation == Some(i))
    && (forall job :: job in s.jobs ==> JobOk(s, job))
    && (forall i, k :: 0 <= i < k < |s.reservations| ==> CyclesOrdered(s.reservations[i], s.reservations[k]))
  }

  lemma InitialWellFormed(s: State)
    requires Initial(s)
    ensures WellFormed(s)
  {
  }

  lemma ReserveKeepsWellFormed(s: State, job: JobId, allocations: map<BudgetId, Allocation>, j: Job)
    requires WellFormed(s)
    requires job in s.jobs ==> !PredecessorOpen(s, job)
    requires forall b :: b in allocations ==>
               b < |s.budgets| && s.budgets[b].enabled && allocations[b].reserved >= 0
    requires j.reservation == Some(|s.reservations|)
    ensures WellFormed(Reserve(s, job, allocations).(jobs := s.jobs[job := j]))
  {
    var t := Reserve(s, job, allocations).(jobs := s.jobs[job := j]);
    forall i | 0 <= i < |s.reservations| && s.reservations[i].job == job
      ensures !Open(s.reservations[i])
    {
      assert ReservationOk(s, s.reservations[i]);
      assert JobOk(s, job);
    }
    forall i, k | 0 <= i < k < |t.reservations|
      ensures CyclesOrdered(t.reservations[i], t.reservations[k])
    {
      assert ReservationOk(s, s.reservations[i]);
      if k < |s.reservations| {
        assert CyclesOrdered(s.reservations[i], s.reservations[k]);
      }
    }
    forall i | 0 <= i < |t.reservations|
      ensures ReservationOk(t, t.reservations[i])
    {
      if i < |s.reservations| {
        assert ReservationOk(s, s.reservations[i]);
      }
    }
    forall job' | job' in t.jobs
      ensures JobOk(t, job')
    {
      if job' != job {
        assert JobOk(s, job');
      }
    }
  }

  lemma JobsKeepWellFormed(s: State, job: JobId, j: Job)
    requires WellFormed(s)
    requires job in s.jobs ==>
        j.reservation == s.jobs[job].reservation || (j.reservation.None? && !PredecessorOpen(s, job))
    requires job !in s.jobs ==> j.reservation.None?
    ensures WellFormed(s.(jobs := s.jobs[job := j]))
  {
    var t := s.(jobs := s.jobs[job := j]);
    forall i | 0 <= i < |t.reservations|
      ensures ReservationOk(t, t.reservations[i])
    {
      assert ReservationOk(s, s.reservations[i]);
    }
    forall job' | job' in t.jobs
      ensures JobOk(t, job')
    {
      if job' in s.jobs {
        assert JobOk(s, job');
      }
    }
  }

  /** Closing the job's current reservation, whatever becomes of its amounts. */
  lemma CloseKeepsWellFormed(s: State, id: ReservationId, closed: Reservation, t: State)
    requires WellFormed(s) && id < |s.reservations|
    requires t == s.(used := t.used, reservations := s.reservations[id := closed])
    requires |t.used| == |s.used| && forall b :: 0 <= b < |t.used| ==> t.used[b] >= 0
    requires closed.job == s.reservations[id].job && closed.start == s.reservations[id].start
    requires Open(s.reservations[id]) && !Open(closed) && closed.settledAt == Some(|s.ledger|)
    requires closed.allocations.Keys == s.reservations[id].allocations.Keys
    requires forall b :: b in closed.allocations ==>
        closed.allocations[b].reserved == s.reservations[id].allocations[b].reserved
    ensures WellFormed(t)
  {
    assert ReservationOk(s, s.reservations[id]);
    forall i | 0 <= i < |t.reservations|
      ensures ReservationOk(t, t.reservations[i])
    {
      assert ReservationOk(s, s.reservations[i]);
    }
    forall job | job in t.jobs
      ensures JobOk(t, job)
    {
      assert JobOk(s, job);
    }
    forall i, k | 0 <= i < k < |t.reservations|
      ensures CyclesOrdered(t.reservations[i], t.reservations[k])
    {
      assert CyclesOrdered(s.reservations[i], s.reservations[k]);
    }
  }

  lemma ReconcileKeepsWellFormed(s: State, id: ReservationId, events: seq<UsageEvent>)
    requires WellFormed(s) && id < |s.reservations| && Open(s.reservations[id])
    ensures WellFormed(Reconcile(s, id, events))
  {
    var t := Reconcile(s, id, events);
    assert ReservationOk(s, s.reservations[id]);
    CloseKeepsWellFormed(s, id, t.reservations[id], t);
  }

  lemma ReleaseKeepsWellFormed(s: State, id: ReservationId)
    requires WellFormed(s) && id < |s.reservations| && Open(s.reservations[id])
    ensures WellFormed(Release(s, id))
  {
    var t := Release(s, id);
    CloseKeepsWellFormed(s, id, t.reservations[id], t);
  }

  lemma {:induction false} FinalizeKeepsWellFormed(s: State, job: JobId)
    requires WellFormed(s)
    ensures WellFormed(Finalize(s, job))
  {
    if Settleable(s, job) {
      var id := s.jobs[job].reservation.value;
      ReconcileKeepsWellFormed(s, id, CycleEvents(s.ledger, job, s.reservations[id].start));
      ReleaseKeepsWellFormed(s, id);
    }
  }

  lemma UsedStaysNonNegative(s: State, job: JobId)
    requires WellFormed(s) && Settleable(s, job)
    ensures var t := Finalize(s, job);
            |t.used| == |s.used| && forall b :: 0 <= b < |s.used| ==> t.used[b] >= s.used[b]
  {
    var id := s.jobs[job].reservation.value;
    assert ReservationOk(s, s.reservations[id]);
  }

  lemma ExpireKeepsWellFormed(s: State, seconds: nat)
    requires WellFormed(s)
    ensures WellFormed(Apply(s, Tick(seconds)))
  {
    var t := Apply(s, Tick(seconds));
    forall i | 0 <= i < |t.reservations|
      ensures ReservationOk(t, t.reservations[i])
    {
      assert ReservationOk(s, s.reservations[i]);
    }
    forall job | job in t.jobs
      ensures JobOk(t, job)
    {
      assert JobOk(s, job);
    }
    forall i, k | 0 <= i < k < |t.reservations|
      ensures CyclesOrdered(t.reservations[i], t.reservations[k])
    {
      assert CyclesOrdered(s.reservations[i], s.reservations[k]);
      assert ReservationOk(s, s.reservations[i]);
    }
  }

  lemma LedgerKeepsWellFormed(s: State, event: UsageEvent)
    requires WellFormed(s)
    ensures WellFormed(s.(ledger := s.ledger + [event]))
  {
    var t := s.(ledger := s.ledger + [event]);
    forall i | 0 <= i < |t.reservations|
      ensures ReservationOk(t, t.reservations[i])
    {
      assert ReservationOk(s, s.reservations[i]);
    }
    forall job | job in t.jobs
      ensures JobOk(t, job)
    {
      assert JobOk(s, job);
    }
  }

  lemma RequeueKeepsWellFormed(s: State, job: JobId, estimates: seq<Estimate>)
    requires WellFormed(s) && job in s.jobs && !PredecessorOpen(s, job)
    ensures var allocations := PlannedAllocations(s.budgets, estimates);
            var queued := s.jobs[job].(state := Queued);
            && WellFormed(s.(jobs := s.jobs[job := queued.(reservation := None)]))
            && WellFormed(Reserve(s, job, allocations).(
                            jobs := s.jobs[job := queued.(reservation := Some(|s.reservations|))]))
  {
    var queued := s.jobs[job].(state := Queued);
    JobsKeepWellFormed(s, job, queued.(reservation := None));
    ReserveKeepsWellFormed(s, job, PlannedAllocations(s.budgets, estimates),
        queued.(reservation := Some(|s.reservations|)));
  }

  lemma {:induction false} RetryKeepsWellFormed(s: State, job: JobId, estimates: seq<Estimate>)
    requires WellFormed(s)
    ensures WellFormed(Retry(s, job, estimates))
  {
    if Retry(s, job, estimates) != s {
      var f := Finalize(s, job);
      FinalizeKeepsWellFormed(s, job);
      assert f.jobs == s.jobs;
      if !PredecessorOpen(f, job) {
        RequeueKeepsWellFormed(f, job, estimates);
      }
    }
  }

  lemma AdmitKeepsWellFormed(s: State, job: JobId, allowOverride: bool, estimates: seq<Estimate>)
    requires WellFormed(s)
    ensures WellFormed(Admit(s, job, allowOverride, estimates))
  {
    if Admit(s, job, allowOverride, estimates) != s {
      var allocations := PlannedAllocations(s.budgets, estimates);
      if allocations == map[] {
        JobsKeepWellFormed(s, job, Job(Queued, allowOverride, None, None));
      } else {
        ReserveKeepsWellFormed(s, job, allocations, Job(Queued, allowOverride, Some(|s.reservations|), None));
      }
    }
  }

  lemma BudgetsStay(s: State, step: Step)
    ensures Apply(s, step).budgets == s.budgets
  {
  }

  lemma {:induction false} StepKeepsWellFormed(s: State, step: Step)
    requires WellFormed(s)
    ensures WellFormed(Apply(s, step))
  {
    match step
    case AdmitJob(job, allowOverride, estimates) =>
      AdmitKeepsWellFormed(s, job, allowOverride, estimates);
    case MoveJob(job, next) =>
      if job in s.jobs {
        JobsKeepWellFormed(s, job, s.jobs[job].(state := next));
      }
    case CheckDispatch(job, estimate) =>
      if job in s.jobs {
        JobsKeepWellFormed(s, job, s.jobs[job].(inFlight := Some(estimate)));
      }
    case RecordUsage(event) =>
      LedgerKeepsWellFormed(s, event);
      var recorded := s.(ledger := s.ledger + [event]);
      if event.job.Some? && event.job.value in s.jobs {
        JobsKeepWellFormed(recorded, event.job.value, s.jobs[event.job.value].(inFlight := None));
      }
    case AbandonDispatch(job) =>
      if job in s.jobs {
        JobsKeepWellFormed(s, job, s.jobs[job].(inFlight := None));
      }
    case FinishAttempt(job, success) =>
      AttemptKeepsWellFormed(s, Attempt(job, s.clock, success));
    case SettleJob(job) =>
      FinalizeKeepsWellFormed(s, job);
    case RetryJob(job, estimates) =>
      RetryKeepsWellFormed(s, job, estimates);
    case Tick(seconds) =>
      ExpireKeepsWellFormed(s, seconds);
  }

  lemma AttemptKeepsWellFormed(s: State, attempt: Attempt)
    requires WellFormed(s)
    ensures WellFormed(s.(attempts := s.attempts + [attempt]))
  {
    var t := s.(attempts := s.attempts + [attempt]);
    forall i | 0 <= i < |t.reservations|
      ensures ReservationOk(t, t.reservations[i])
    {
      assert ReservationOk(s, s.reservations[i]);
    }
    forall job | job in t.jobs
      ensures JobOk(t, job)
    {
      assert JobOk(s, job);
    }
  }

  lemma {:induction false} RunsAreWellFormed(s: State, steps: seq<Step>)
    requires Initial(s)
    ensures WellFormed(Run(s, steps)) && Run(s, steps).budgets == s.budgets
  {
    if steps == [] {
      InitialWellFormed(s);
    } else {
      RunsAreWellFormed(s, steps[..|steps| - 1]);
      StepKeepsWellFormed(Run(s, steps[..|steps| - 1]), steps[|steps| - 1]);
      BudgetsStay(Run(s, steps[..|steps| - 1]), steps[|steps| - 1]);
    }
  }
}

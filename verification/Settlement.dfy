/** Exactly-once settlement: in every run, overrides, unchecked usage and expiry included, each
    reservation is settled at most once and each ledger row is charged by at most one of them. */
module Settlement {
  import opened Bounded
  import opened Wrappers
  import opened Accounting
  import opened LedgerLemmas
  import opened BudgetRuns

  /** The ledger rows a closed reservation was settled against. */
  function SettledEvents(s: State, r: Reservation): seq<UsageEvent> {
    if r.settledAt.Some? && r.settledAt.value <= |s.ledger|
    then CycleEvents(s.ledger[..r.settledAt.value], r.job, r.start) else []
  }

  ghost predicate SettledRight(s: State, r: Reservation) {
    && (r.status.Reconciled? ==>
          SettledEvents(s, r) != [] &&
          forall b :: b in r.allocations && b < |s.budgets| ==>
            r.allocations[b].actual == Some(Charge(s.budgets[b], SettledEvents(s, r), r.allocations[b].reserved)))
    && (r.status.Released? ==> SettledEvents(s, r) == [])
  }

  /** What a budget has used: its starting amount plus the charge of every reconciled reservation. */
  function AccountedUse(s0: State, s: State, b: BudgetId): int
    requires b < |s.budgets| && b < |s0.used|
  {
    if s.budgets[b].period.Lifetime? then Cap(s0.used[b] + Total(s.reservations, ActualWeight(b))) else s0.used[b]
  }

  ghost predicate Balanced(s0: State, s: State) {
    && |s.budgets| == |s0.used| == |s.used|
    && (forall b :: 0 <= b < |s.used| ==> s.used[b] == AccountedUse(s0, s, b))
    && (forall i :: 0 <= i < |s.reservations| ==> SettledRight(s, s.reservations[i]))
  }

  lemma ChargesAreNonNegative(s: State, b: BudgetId)
    requires WellFormed(s) && b < |s.budgets|
    requires forall i :: 0 <= i < |s.reservations| ==> SettledRight(s, s.reservations[i])
    ensures forall i :: 0 <= i < |s.reservations| ==> ActualWeight(b)(s.reservations[i]) >= 0
  {
    forall i | 0 <= i < |s.reservations|
      ensures ActualWeight(b)(s.reservations[i]) >= 0
    {
      assert SettledRight(s, s.reservations[i]) && ReservationOk(s, s.reservations[i]);
    }
  }

  lemma ReserveStaysBalanced(s0: State, s: State, job: JobId, allocations: map<BudgetId, Allocation>)
    requires Balanced(s0, s)
    ensures Balanced(s0, Reserve(s, job, allocations))
  {
    var t := Reserve(s, job, allocations);
    forall b | 0 <= b < |t.used|
      ensures t.used[b] == AccountedUse(s0, t, b)
    {
      TotalAppend(s.reservations, NewReservation(s, job, allocations), ActualWeight(b));
    }
    forall i | 0 <= i < |t.reservations|
      ensures SettledRight(t, t.reservations[i])
    {
      if i < |s.reservations| {
        assert SettledRight(s, s.reservations[i]);
      }
    }
  }

  lemma FinalizeSettlesRight(s: State, job: JobId, i: nat)
    requires WellFormed(s) && Settleable(s, job) && i < |s.reservations| && SettledRight(s, s.reservations[i])
    ensures SettledRight(Finalize(s, job), Finalize(s, job).reservations[i])
  {
    var id := s.jobs[job].reservation.value;
    var r := s.reservations[id];
    assert s.ledger[..|s.ledger|] == s.ledger;
    assert JobOk(s, job) && ReservationOk(s, r);
    var t := Finalize(s, job);
    if t != s && i == id {
      assert SettledEvents(t, t.reservations[id]) == CycleEvents(s.ledger, job, r.start);
    }
  }

  lemma ReconciledWeight(s: State, id: ReservationId, events: seq<UsageEvent>, b: BudgetId)
    requires WellFormed(s) && id < |s.reservations| && Open(s.reservations[id]) && b < |s.budgets|
    ensures var t := Reconcile(s, id, events);
            && ActualWeight(b)(s.reservations[id]) == 0
            && 0 <= ActualWeight(b)(t.reservations[id]) <= I64_MAX
            && t.used[b] == (if s.budgets[b].period.Lifetime?
                             then SaturatingAdd(s.used[b], ActualWeight(b)(t.reservations[id])) else s.used[b])
  {
    assert ReservationOk(s, s.reservations[id]);
  }

  /** Reconciling a reservation moves its charge into the used column and nowhere else. */
  lemma {:induction false} ReconcileAccounts(s0: State, s: State, id: ReservationId, events: seq<UsageEvent>,
                                             b: BudgetId)
    requires WellFormed(s) && Balanced(s0, s)
    requires id < |s.reservations| && Open(s.reservations[id])
    requires b < |s0.used| && s0.used[b] >= 0
    ensures Reconcile(s, id, events).used[b] == AccountedUse(s0, Reconcile(s, id, events), b)
  {
    var t := Reconcile(s, id, events);
    ReconciledWeight(s, id, events, b);
    ChargesAreNonNegative(s, b);
    TotalNonNegative(s.reservations, ActualWeight(b));
    TotalUpdate(s.reservations, id, t.reservations[id], ActualWeight(b));
    assert s.used[b] == AccountedUse(s0, s, b);
  }

  lemma {:induction false} FinalizeAccounts(s0: State, s: State, job: JobId, b: BudgetId)
    requires WellFormed(s) && Balanced(s0, s) && Settleable(s, job)
    requires b < |s0.used| && s0.used[b] >= 0
    ensures Finalize(s, job).used[b] == AccountedUse(s0, Finalize(s, job), b)
  {
    var id := s.jobs[job].reservation.value;
    var r := s.reservations[id];
    assert s.used[b] == AccountedUse(s0, s, b);
    assert ReservationOk(s, r);
    var events := CycleEvents(s.ledger, job, r.start);
    if events != [] {
      ReconcileAccounts(s0, s, id, events, b);
    } else {
      TotalUpdate(s.reservations, id, Release(s, id).reservations[id], ActualWeight(b));
    }
  }

  lemma {:induction false} FinalizeStaysBalanced(s0: State, s: State, job: JobId)
    requires WellFormed(s) && Balanced(s0, s) && (forall b :: 0 <= b < |s0.used| ==> s0.used[b] >= 0)
    ensures Balanced(s0, Finalize(s, job))
  {
    if Settleable(s, job) {
      UsedStaysNonNegative(s, job);
      var t := Finalize(s, job);
      forall i | 0 <= i < |t.reservations|
        ensures SettledRight(t, t.reservations[i])
      {
        FinalizeSettlesRight(s, job, i);
      }
      forall b | 0 <= b < |t.used|
        ensures t.used[b] == AccountedUse(s0, t, b)
      {
        FinalizeAccounts(s0, s, job, b);
      }
    }
  }

  lemma {:induction false} LedgerStaysBalanced(s0: State, s: State, event: UsageEvent)
    requires WellFormed(s) && Balanced(s0, s)
    ensures Balanced(s0, s.(ledger := s.ledger + [event]))
  {
    var t := s.(ledger := s.ledger + [event]);
    forall i | 0 <= i < |t.reservations|
      ensures SettledRight(t, t.reservations[i])
    {
      var r := s.reservations[i];
      assert SettledRight(s, r) && ReservationOk(s, r);
      if r.settledAt.Some? {
        assert t.ledger[..r.settledAt.value] == s.ledger[..r.settledAt.value];
      }
    }
    forall b | 0 <= b < |t.used|
      ensures t.used[b] == AccountedUse(s0, t, b)
    {
      assert s.used[b] == AccountedUse(s0, s, b);
    }
  }

  lemma TickStaysBalanced(s0: State, s: State, seconds: nat)
    requires WellFormed(s) && Balanced(s0, s)
    ensures Balanced(s0, Apply(s, Tick(seconds)))
  {
    var t := Apply(s, Tick(seconds));
    forall b | 0 <= b < |t.used|
      ensures t.used[b] == AccountedUse(s0, t, b)
    {
      assert s.used[b] == AccountedUse(s0, s, b);
      TotalSame(s.reservations, t.reservations, ActualWeight(b));
    }
    forall i | 0 <= i < |t.reservations|
      ensures SettledRight(t, t.reservations[i])
    {
      assert SettledRight(s, s.reservations[i]);
    }
  }

  /** Steps that touch neither the used column, nor the ledger, nor a reservation. */
  lemma OthersStayBalanced(s0: State, s: State, t: State)
    requires Balanced(s0, s)
    requires t.budgets == s.budgets && t.used == s.used && t.reservations == s.reservations && t.ledger == s.ledger
    ensures Balanced(s0, t)
  {
    forall i | 0 <= i < |t.reservations|
      ensures SettledRight(t, t.reservations[i])
    {
      assert SettledRight(s, s.reservations[i]);
    }
    forall b | 0 <= b < |t.used|
      ensures t.used[b] == AccountedUse(s0, t, b)
    {
      assert s.used[b] == AccountedUse(s0, s, b);
    }
  }

  lemma RetryStaysBalanced(s0: State, s: State, job: JobId, estimates: seq<Estimate>)
    requires WellFormed(s) && Balanced(s0, s) && (forall b :: 0 <= b < |s0.used| ==> s0.used[b] >= 0)
    ensures Balanced(s0, Retry(s, job, estimates))
  {
    var t := Retry(s, job, estimates);
    if t != s {
      FinalizeStaysBalanced(s0, s, job);
      var f := Finalize(s, job);
      if t.reservations == f.reservations {
        OthersStayBalanced(s0, f, t);
      } else {
        var allocations := PlannedAllocations(f.budgets, estimates);
        ReserveStaysBalanced(s0, f, job, allocations);
        OthersStayBalanced(s0, Reserve(f, job, allocations), t);
      }
    }
  }

  lemma {:induction false} StepStaysBalanced(s0: State, s: State, step: Step)
    requires WellFormed(s) && Balanced(s0, s) && (forall b :: 0 <= b < |s0.used| ==> s0.used[b] >= 0)
    ensures Balanced(s0, Apply(s, step))
  {
    var t := Apply(s, step);
    match step
    case AdmitJob(job, allowOverride, estimates) =>
      if t.reservations == s.reservations {
        OthersStayBalanced(s0, s, t);
      } else {
        var allocations := PlannedAllocations(s.budgets, estimates);
        ReserveStaysBalanced(s0, s, job, allocations);
        OthersStayBalanced(s0, Reserve(s, job, allocations), t);
      }
    case RecordUsage(event) =>
      LedgerStaysBalanced(s0, s, event);
      OthersStayBalanced(s0, s.(ledger := s.ledger + [event]), t);
    case SettleJob(job) =>
      FinalizeStaysBalanced(s0, s, job);
    case RetryJob(job, estimates) =>
      RetryStaysBalanced(s0, s, job, estimates);
    case Tick(seconds) =>
      TickStaysBalanced(s0, s, seconds);
    case MoveJob(_, _) => OthersStayBalanced(s0, s, t);
    case CheckDispatch(_, _) => OthersStayBalanced(s0, s, t);
    case AbandonDispatch(_) => OthersStayBalanced(s0, s, t);
    case FinishAttempt(_, _) => OthersStayBalanced(s0, s, t);
  }

  /** In every reachable state the used column is the starting amount plus the charges of the
      reconciled reservations, and each charge is computed from that reservation's own rows. */
  lemma {:induction false} RunsStayBalanced(s0: State, steps: seq<Step>)
    requires Initial(s0)
    ensures Balanced(s0, Run(s0, steps))
  {
    if steps == [] {
    } else {
      RunsAreWellFormed(s0, steps[..|steps| - 1]);
      RunsStayBalanced(s0, steps[..|steps| - 1]);
      StepStaysBalanced(s0, Run(s0, steps[..|steps| - 1]), steps[|steps| - 1]);
    }
  }

  /** What a reconciled charge is worth: at least the known usage of its rows, and at least the
      reservation when some row's usage is unknown. */
  lemma {:induction false} ReconciledChargeIsSufficient(s0: State, steps: seq<Step>, i: nat, b: BudgetId)
    requires Initial(s0)
    requires var s := Run(s0, steps);
             i < |s.reservations| && s.reservations[i].status.Reconciled? && b in s.reservations[i].allocations
    ensures var s := Run(s0, steps);
            var r := s.reservations[i];
            var events := SettledEvents(s, r);
            && b < |s.budgets| && r.allocations[b].actual.Some?
            && r.allocations[b].actual.value >= Cap(ExactUsage(s.budgets[b], events))
            && (UnknownUsage(s.budgets[b], events) ==> r.allocations[b].actual.value >= r.allocations[b].reserved)
            && (!UnknownUsage(s.budgets[b], events) ==>
                r.allocations[b].actual.value == Cap(ExactUsage(s.budgets[b], events)))
  {
    RunsAreWellFormed(s0, steps);
    RunsStayBalanced(s0, steps);
    assert ReservationOk(Run(s0, steps), Run(s0, steps).reservations[i]);
    assert SettledRight(Run(s0, steps), Run(s0, steps).reservations[i]);
  }

  // ---- Each ledger row is charged at most once ----

  /** Ledger row `n` went into the reconciliation of reservation `r`. */
  predicate Counts(s: State, r: Reservation, n: nat) {
    && n < |s.ledger|
    && r.status.Reconciled? && r.settledAt.Some?
    && s.ledger[n].job == Some(r.job) && r.start <= n < r.settledAt.value
  }

  lemma LaterCycleExcludesEarlier(s: State, i: nat, k: nat, n: nat)
    requires WellFormed(s) && i < k < |s.reservations| && Counts(s, s.reservations[k], n)
    ensures !Counts(s, s.reservations[i], n)
  {
  }

  lemma {:induction false} NoRowIsCountedTwice(s0: State, steps: seq<Step>, i: nat, k: nat, n: nat)
    requires Initial(s0)
    requires var s := Run(s0, steps);
             i < |s.reservations| && k < |s.reservations|
             && Counts(s, s.reservations[i], n) && Counts(s, s.reservations[k], n)
    ensures i == k
  {
    RunsAreWellFormed(s0, steps);
    if i < k {
      LaterCycleExcludesEarlier(Run(s0, steps), i, k, n);
    }
    if k < i {
      LaterCycleExcludesEarlier(Run(s0, steps), k, i, n);
    }
  }

  /** The usage of every ledger row below `upTo` that some one of the first `k` reservations with an
      allocation for `b` was charged for, each such row taken once. */
  ghost function CountedUsage(s: State, b: BudgetId, k: nat, upTo: nat): nat
    requires k <= |s.reservations| && upTo <= |s.ledger| && b < |s.budgets|
  {
    if upTo == 0 then 0
    else
      CountedUsage(s, b, k, upTo - 1)
      + (if Counted(s, b, k, upTo - 1) then EventWeight(s.budgets[b], s.ledger[upTo - 1]) else 0)
  }

  ghost predicate Counted(s: State, b: BudgetId, k: nat, n: nat)
    requires k <= |s.reservations|
  {
    exists i :: 0 <= i < k && b in s.reservations[i].allocations && Counts(s, s.reservations[i], n)
  }

  /** The exact known usage behind a reconciled reservation's charge. */
  function KnownWeight(s: State, b: BudgetId): Reservation -> int
    requires b < |s.budgets|
  {
    (r: Reservation) =>
      if r.status.Reconciled? && b in r.allocations then ExactUsage(s.budgets[b], SettledEvents(s, r)) else 0
  }

  /** The known usage a reconciled reservation draws from the first `upTo` ledger rows. */
  function KnownUpTo(s: State, b: BudgetId, r: Reservation, upTo: nat): nat
    requires b < |s.budgets| && upTo <= |s.ledger|
  {
    if r.status.Reconciled? && b in r.allocations && r.settledAt.Some?
    then ExactUsage(s.budgets[b], CycleEvents(s.ledger[..Min(upTo, r.settledAt.value)], r.job, r.start)) else 0
  }

  lemma KnownUpToStep(s: State, b: BudgetId, r: Reservation, upTo: nat)
    requires b < |s.budgets| && 0 < upTo <= |s.ledger| && ReservationOk(s, r)
    ensures KnownUpTo(s, b, r, upTo) == KnownUpTo(s, b, r, upTo - 1)
              + (if b in r.allocations && Counts(s, r, upTo - 1)
                 then EventWeight(s.budgets[b], s.ledger[upTo - 1]) else 0)
  {
    var n := upTo - 1;
    if r.status.Reconciled? && b in r.allocations && n < r.settledAt.value && r.start <= n {
      assert s.ledger[..upTo] == s.ledger[..n] + [s.ledger[n]];
      CycleEventsAppend(s.ledger[..n], s.ledger[n], r.job, r.start);
      ExactUsageConcat(s.budgets[b], if s.ledger[n].job == Some(r.job) then [s.ledger[n]] else [],
                       CycleEvents(s.ledger[..n], r.job, r.start));
    }
  }

  /** Adding one reservation to the counted set adds exactly the usage of its own rows. */
  lemma {:induction false} OneMoreReservation(s: State, b: BudgetId, k: nat, upTo: nat)
    requires WellFormed(s) && k < |s.reservations| && upTo <= |s.ledger| && b < |s.budgets|
    ensures CountedUsage(s, b, k + 1, upTo) == CountedUsage(s, b, k, upTo) + KnownUpTo(s, b, s.reservations[k], upTo)
  {
    var r := s.reservations[k];
    assert ReservationOk(s, r);
    if upTo > 0 {
      var n := upTo - 1;
      OneMoreReservation(s, b, k, n);
      KnownUpToStep(s, b, r, upTo);
      CountedSplits(s, b, k, n);
    }
  }

  lemma CountedSplits(s: State, b: BudgetId, k: nat, n: nat)
    requires WellFormed(s) && k < |s.reservations|
    ensures Counted(s, b, k + 1, n)
        <==> Counted(s, b, k, n) || (b in s.reservations[k].allocations && Counts(s, s.reservations[k], n))
    ensures Counts(s, s.reservations[k], n) ==> !Counted(s, b, k, n)
  {
  }

  lemma {:induction false} KnownUsageIsCounted(s: State, b: BudgetId, k: nat)
    requires WellFormed(s) && k <= |s.reservations| && b < |s.budgets|
    ensures Total(s.reservations[..k], KnownWeight(s, b)) == CountedUsage(s, b, k, |s.ledger|)
  {
    if k == 0 {
      NothingCounted(s, b, |s.ledger|);
    } else {
      var r := s.reservations[k - 1];
      KnownUsageIsCounted(s, b, k - 1);
      OneMoreReservation(s, b, k - 1, |s.ledger|);
      assert s.reservations[..k] == s.reservations[..k - 1] + [r];
      TotalAppend(s.reservations[..k - 1], r, KnownWeight(s, b));
      KnownInFull(s, b, r);
    }
  }

  lemma KnownInFull(s: State, b: BudgetId, r: Reservation)
    requires b < |s.budgets| && ReservationOk(s, r)
    ensures KnownWeight(s, b)(r) == KnownUpTo(s, b, r, |s.ledger|)
  {
  }

  lemma {:induction false} NothingCounted(s: State, b: BudgetId, upTo: nat)
    requires upTo <= |s.ledger| && b < |s.budgets|
    ensures CountedUsage(s, b, 0, upTo) == 0
  {
    if upTo == 0 {
    } else {
      NothingCounted(s, b, upTo - 1);
    }
  }

  /** Capping every single charge loses nothing against capping their sum once. */
  lemma {:induction false} CapTotals(x: nat, rs: seq<Reservation>, capped: Reservation -> int,
                                     exact: Reservation -> int)
    requires forall i :: 0 <= i < |rs| ==> exact(rs[i]) >= 0 && capped(rs[i]) == Cap(exact(rs[i]))
    ensures Total(rs, exact) >= 0 && Cap(x + Total(rs, capped)) == Cap(x + Total(rs, exact))
  {
    if rs == [] {
    } else {
      var last := |rs| - 1;
      CapTotals(x, rs[..last], capped, exact);
      CapTotals(0, rs[..last], capped, exact);
    }
  }

  /** The amount of every row behind a settlement of the budget is known. */
  predicate SettledUsageIsKnown(s: State, b: BudgetId) {
    forall i :: 0 <= i < |s.reservations| && b in s.reservations[i].allocations && b < |s.budgets| ==>
      !UnknownUsage(s.budgets[b], SettledEvents(s, s.reservations[i]))
  }

  lemma KnownChargeIsCapped(s: State, r: Reservation, b: BudgetId)
    requires b < |s.budgets| && SettledRight(s, r)
    requires b in r.allocations ==> !UnknownUsage(s.budgets[b], SettledEvents(s, r))
    ensures ActualWeight(b)(r) == Cap(KnownWeight(s, b)(r))
  {
  }

  /** Conservation down to ledger rows. When the settled usage of a lifetime budget is known, the used
      column has grown by the usage of the counted ledger rows, every counted row exactly once, and is
      capped at the largest i64. */
  lemma {:induction false} UsedGrowsByCountedRows(s0: State, steps: seq<Step>, b: BudgetId)
    requires Initial(s0)
    requires b < |s0.budgets| && s0.budgets[b].period.Lifetime?
    requires SettledUsageIsKnown(Run(s0, steps), b)
    ensures var s := Run(s0, steps);
            b < |s.used| && s.used[b] == Cap(s0.used[b] + CountedUsageIn(s, b))
  {
    var s := Run(s0, steps);
    RunsAreWellFormed(s0, steps);
    RunsStayBalanced(s0, steps);
    UsedInState(s0, s, b);
  }

  lemma {:induction false} UsedInState(s0: State, s: State, b: BudgetId)
    requires Initial(s0) && WellFormed(s) && Balanced(s0, s) && s.budgets == s0.budgets
    requires b < |s0.budgets| && s0.budgets[b].period.Lifetime? && SettledUsageIsKnown(s, b)
    ensures b < |s.used| && s.used[b] == Cap(s0.used[b] + CountedUsageIn(s, b))
  {
    CountedInTotal(s, b);
    CapTotals(s0.used[b], s.reservations, ActualWeight(b), KnownWeight(s, b));
    assert s.used[b] == AccountedUse(s0, s, b);
  }

  lemma CountedInTotal(s: State, b: BudgetId)
    requires WellFormed(s) && b < |s.budgets|
    requires forall i :: 0 <= i < |s.reservations| ==> SettledRight(s, s.reservations[i])
    requires SettledUsageIsKnown(s, b)
    ensures Total(s.reservations, KnownWeight(s, b)) == CountedUsageIn(s, b)
    ensures forall i :: 0 <= i < |s.reservations| ==>
              && KnownWeight(s, b)(s.reservations[i]) >= 0
              && ActualWeight(b)(s.reservations[i]) == Cap(KnownWeight(s, b)(s.reservations[i]))
  {
    KnownUsageIsCounted(s, b, |s.reservations|);
    assert s.reservations[..|s.reservations|] == s.reservations;
    forall i | 0 <= i < |s.reservations|
      ensures ActualWeight(b)(s.reservations[i]) == Cap(KnownWeight(s, b)(s.reservations[i]))
    {
      KnownChargeIsCapped(s, s.reservations[i], b);
    }
  }

  ghost function CountedUsageIn(s: State, b: BudgetId): nat {
    if b < |s.budgets| then CountedUsage(s, b, |s.reservations|, |s.ledger|) else 0
  }

  // ---- A settlement is final ----

  lemma FinalizeTwiceIsOnce(s: State, job: JobId)
    ensures Finalize(Finalize(s, job), job) == Finalize(s, job)
  {
  }

  predicate KeepsReservation(s: State, t: State, i: nat)
    requires i < |s.reservations|
  {
    i < |t.reservations| && t.reservations[i] == s.reservations[i]
  }

  lemma FinalizeKeepsSettled(s: State, job: JobId, i: nat)
    requires i < |s.reservations| && !Open(s.reservations[i])
    ensures KeepsReservation(s, Finalize(s, job), i)
  {
  }

  lemma StepKeepsSettled(s: State, step: Step, i: nat)
    requires i < |s.reservations| && !Open(s.reservations[i])
    ensures KeepsReservation(s, Apply(s, step), i)
  {
    match step
    case SettleJob(job) => FinalizeKeepsSettled(s, job, i);
    case RetryJob(job, estimates) => FinalizeKeepsSettled(s, job, i);
    case _ =>
  }

  /** Once a reservation is reconciled or released, no later step changes it. */
  lemma {:induction false} SettledReservationsAreFinal(s: State, steps: seq<Step>, i: nat)
    requires i < |s.reservations| && !Open(s.reservations[i])
    ensures KeepsReservation(s, Run(s, steps), i)
  {
    if steps == [] {
    } else {
      SettledReservationsAreFinal(s, steps[..|steps| - 1], i);
      StepKeepsSettled(Run(s, steps[..|steps| - 1]), steps[|steps| - 1], i);
    }
  }

  lemma FinalizeReleasesIdleCycles(s: State, job: JobId, i: nat)
    requires WellFormed(s) && i < |s.reservations| && Open(s.reservations[i])
    requires Finalize(s, job).reservations[i].status.Released?
    ensures var r := s.reservations[i];
            && CycleEvents(s.ledger, r.job, r.start) == []
            && !SuccessfulSince(s.attempts, r.job, r.createdAt)
            && Finalize(s, job).used == s.used
  {
    assert Settleable(s, job) && JobOk(s, job);
  }

  lemma RetryChangesNoOtherReservation(s: State, job: JobId, estimates: seq<Estimate>, i: nat)
    requires i < |s.reservations| && Retry(s, job, estimates) != s
    ensures KeepsReservation(Finalize(s, job), Retry(s, job, estimates), i)
    ensures Retry(s, job, estimates).used == Finalize(s, job).used
  {
  }

  /** A release is only ever given to a cycle with no ledger row and no successful attempt, and it
      charges nothing. */
  lemma {:induction false} ReleaseMeansNothingHappened(s0: State, steps: seq<Step>, step: Step, i: nat)
    requires Initial(s0)
    requires var s := Run(s0, steps);
             && i < |s.reservations| && Open(s.reservations[i])
             && i < |Apply(s, step).reservations| && Apply(s, step).reservations[i].status.Released?
    ensures var s := Run(s0, steps);
            var r := s.reservations[i];
            && CycleEvents(s.ledger, r.job, r.start) == []
            && !SuccessfulSince(s.attempts, r.job, r.createdAt)
            && Apply(s, step).used == s.used
  {
    RunsAreWellFormed(s0, steps);
    var s := Run(s0, steps);
    match step
    case SettleJob(job) => FinalizeReleasesIdleCycles(s, job, i);
    case RetryJob(job, estimates) =>
      assert Retry(s, job, estimates) != s;
      RetryChangesNoOtherReservation(s, job, estimates, i);
      FinalizeReleasesIdleCycles(s, job, i);
    case _ =>
  }

  /** A cycle whose work succeeded but whose usage row is missing keeps its reservation: settling
      it changes nothing, and no retry is admitted over it. */
  lemma {:induction false} MissingUsageRetainsReservation(s: State, job: JobId, estimates: seq<Estimate>)
    requires Settleable(s, job)
    requires var r := s.reservations[s.jobs[job].reservation.value];
             CycleEvents(s.ledger, job, r.start) == [] && SuccessfulSince(s.attempts, job, r.createdAt)
    ensures Finalize(s, job) == s && Retry(s, job, estimates) == s
  {
  }

  // ---- Which rows are charged ----

  /** From the recording of row `|s.ledger|` on: the row stays, a cycle that was open then closes after it,
      one that was closed stays as it is, and a later one begins after it. */
  predicate AfterRow(s: State, t: State, e: UsageEvent) {
    && |s.ledger| < |t.ledger| && t.ledger[|s.ledger|] == e && |s.reservations| <= |t.reservations|
    && (forall i :: 0 <= i < |s.reservations| ==>
          var r, q := s.reservations[i], t.reservations[i];
          if Open(r) then q.job == r.job && q.start == r.start && (Open(q) || SettledAfter(q, |s.ledger|)) else q == r)
    && (forall i :: |s.reservations| <= i < |t.reservations| ==> t.reservations[i].start > |s.ledger|)
  }

  predicate SettledAfter(r: Reservation, n: nat) {
    r.settledAt.Some? && r.settledAt.value > n
  }

  lemma FinalizeAfterRow(s: State, t: State, e: UsageEvent, job: JobId)
    requires WellFormed(t) && AfterRow(s, t, e)
    ensures AfterRow(s, Finalize(t, job), e)
  {
  }

  lemma StepAfterRow(s: State, t: State, e: UsageEvent, step: Step)
    requires WellFormed(t) && AfterRow(s, t, e)
    ensures AfterRow(s, Apply(t, step), e)
  {
    match step
    case SettleJob(job) => FinalizeAfterRow(s, t, e, job);
    case RetryJob(job, estimates) => RetryAfterRow(s, t, e, job, estimates);
    case _ =>
  }

  lemma RetryAfterRow(s: State, t: State, e: UsageEvent, job: JobId, estimates: seq<Estimate>)
    requires WellFormed(t) && AfterRow(s, t, e)
    ensures AfterRow(s, Retry(t, job, estimates), e)
  {
    FinalizeAfterRow(s, t, e, job);
  }

  lemma RecordedAfterRow(s: State, e: UsageEvent)
    ensures AfterRow(s, Apply(s, RecordUsage(e)), e)
  {
  }

  lemma {:induction false} LastAfterRow(s0: State, steps: seq<Step>, e: UsageEvent)
    requires steps != [] && steps[|steps| - 1] == RecordUsage(e)
    ensures AfterRow(Run(s0, steps[..|steps| - 1]), Run(s0, steps), e)
  {
    RecordedAfterRow(Run(s0, steps[..|steps| - 1]), e);
  }

  lemma {:induction false} RunAfterRow(s0: State, steps: seq<Step>, p: nat)
    requires Initial(s0) && p < |steps| && steps[p].RecordUsage?
    ensures AfterRow(Run(s0, steps[..p]), Run(s0, steps), steps[p].event)
    decreases |steps|
  {
    if p == |steps| - 1 {
      LastAfterRow(s0, steps, steps[p].event);
    } else {
      var before := steps[..|steps| - 1];
      RunAfterRow(s0, before, p);
      assert before[..p] == steps[..p];
      NextAfterRow(s0, steps, Run(s0, steps[..p]), steps[p].event);
    }
  }

  lemma {:induction false} NextAfterRow(s0: State, steps: seq<Step>, s: State, e: UsageEvent)
    requires Initial(s0) && steps != [] && AfterRow(s, Run(s0, steps[..|steps| - 1]), e)
    ensures AfterRow(s, Run(s0, steps), e)
  {
    RunsAreWellFormed(s0, steps[..|steps| - 1]);
    StepAfterRow(s, Run(s0, steps[..|steps| - 1]), e, steps[|steps| - 1]);
  }

  /** In every run a ledger row goes into the reconciliation of a closed cycle if and only if it is the job's
      own and that cycle was open when it was recorded. A row recorded later is charged to nobody. */
  lemma {:induction false} RowIsChargedIff(s0: State, steps: seq<Step>, p: nat, i: nat)
    requires Initial(s0) && p < |steps| && steps[p].RecordUsage?
    requires i < |Run(s0, steps).reservations| && !Open(Run(s0, steps).reservations[i])
    ensures var s, t := Run(s0, steps[..p]), Run(s0, steps);
            Counts(t, t.reservations[i], |s.ledger|) <==>
                i < |s.reservations| && Open(s.reservations[i]) && steps[p].event.job == Some(s.reservations[i].job)
  {
    RunAfterRow(s0, steps, p);
    RunsAreWellFormed(s0, steps);
    RunsAreWellFormed(s0, steps[..p]);
    RunsStayBalanced(s0, steps);
    var s, t := Run(s0, steps[..p]), Run(s0, steps);
    var r := t.reservations[i];
    assert ReservationOk(t, r) && SettledRight(t, r);
    if i < |s.reservations| {
      assert ReservationOk(s, s.reservations[i]);
      if Open(s.reservations[i]) && steps[p].event.job == Some(r.job) {
        assert t.ledger[..r.settledAt.value][|s.ledger|] == steps[p].event;
        LedgerRowIsListed(t.ledger[..r.settledAt.value], r.job, r.start, |s.ledger|);
      }
    }
  }
}

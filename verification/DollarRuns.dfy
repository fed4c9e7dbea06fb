/** A budget in dollars, step by step: what it admits, what it lets through and what it charges. */
module DollarRuns {
  import opened Bounded
  import opened Wrappers
  import opened Accounting
  import opened Amounts
  import opened BudgetRuns
  import opened LedgerLemmas
  import opened Text

  function Dollars(limit: I64): Budget {
    Budget(Global, Lifetime, MoneyMicros, Some("USD"), limit, true, true)
  }

  function Opening(limit: I64): State {
    State([Dollars(limit)], [0], [], map[], [], [], 0)
  }

  function Costing(n: I64, currency: string): Estimate {
    Estimate(0, Tts, NOTHING, Some(Money(n, currency)), Some(0))
  }

  function Spending(n: I64, currency: string): UsageEvent {
    UsageEvent(Some(0), 0, Tts, NOTHING, Some(Money(n, currency)))
  }

  /** Job 0 holds `n` micros. */
  function Holding(limit: I64, n: I64, state: JobState, ledger: seq<UsageEvent>): State {
    Opening(limit).(
      reservations := [Reservation(0, Active, map[0 := Allocation(n, None)], 0, 0, None)],
      jobs := map[0 := Job(state, false, Some(0), None)],
      ledger := ledger)
  }

  lemma OneEstimate(limit: I64, n: I64, currency: string)
    requires 0 <= n
    ensures var estimates := [Costing(n, currency)];
            && Touches(Dollars(limit), estimates)
            && (UnknownEstimate(Dollars(limit), estimates) <==> !SameUpToCase("USD", currency))
            && (SameUpToCase("USD", currency) ==> ExactEstimate(Dollars(limit), estimates) == n)
  {
    var estimates := [Costing(n, currency)];
    MoneyIsKnownIff(Dollars(limit), "USD", estimates[0], Spending(0, ""));
    assert estimates[1..] == [];
  }

  /** A job of `n` micros is admitted to a fresh dollar budget if and only if it costs dollars, in whatever
      case they are written, and no more than the limit; then it holds exactly `n`. */
  lemma AdmittedIff(limit: I64, n: I64, currency: string)
    requires 0 <= n && 0 <= limit
    ensures Apply(Opening(limit), AdmitJob(0, false, [Costing(n, currency)]))
         == if SameUpToCase("USD", currency) && n <= limit then Holding(limit, n, Queued, []) else Opening(limit)
  {
    var s, estimates := Opening(limit), [Costing(n, currency)];
    OneEstimate(limit, n, currency);
    if SameUpToCase("USD", currency) {
      var allocations := PlannedAllocations(s.budgets, estimates);
      assert !Unestimable(s.budgets[0], false, estimates);
      assert allocations == map[0 := Allocation(n, None)] && 0 in allocations.Keys;
      assert Total(s.reservations, ActiveWeight(0)) == 0;
      assert AllocationFits(s, 0, 0, n) <==> n <= limit;
      assert CanReserve(s, 0, allocations, true) <==> n <= limit;
    } else {
      assert Unestimable(s.budgets[0], false, estimates);
    }
  }

  /** The budget need not be hard, nor enabled. */
  function OpeningWith(limit: I64, hard: bool, enabled: bool): State {
    Opening(limit).(budgets := [Dollars(limit).(hard := hard, enabled := enabled)])
  }

  /** A soft budget, or one the job may override, keeps no job out and stops no request: it withholds what the
      job costs, or nothing when that is not in dollars. */
  lemma SoftBudgetWithholds(limit: I64, n: I64, currency: string, hard: bool, allowOverride: bool)
    requires 0 <= n && (!hard || allowOverride)
    ensures var s := OpeningWith(limit, hard, true);
            var t := Apply(s, AdmitJob(0, allowOverride, [Costing(n, currency)]));
            var held := map[0 := Allocation(if SameUpToCase("USD", currency) then n else 0, None)];
            && t.reservations == [Reservation(0, Active, held, 0, 0, None)]
            && t.jobs == map[0 := Job(Queued, allowOverride, Some(0), None)]
            && DispatchAllowed(t, 0, Costing(I64_MAX, "EUR"))
  {
    var s, estimates := OpeningWith(limit, hard, true), [Costing(n, currency)];
    var b := s.budgets[0];
    OneEstimate(limit, n, currency);
    assert Touches(b, estimates) == Touches(Dollars(limit), estimates);
    SameAmounts(b, limit, estimates);
    var allocations := PlannedAllocations(s.budgets, estimates);
    assert !PlanRefused(s.budgets, allowOverride, estimates);
    assert 0 in allocations.Keys && allocations == map[0 := Allocation(PlannedAmount(b, estimates), None)];
    assert Total(s.reservations, ActiveWeight(0)) == 0;
    assert CanReserve(s, 0, allocations, !allowOverride);
  }

  /** Being hard or enabled changes nothing about what a budget counts. */
  lemma {:induction false} SameAmounts(b: Budget, limit: I64, estimates: seq<Estimate>)
    requires b == Dollars(limit).(hard := b.hard, enabled := b.enabled)
    ensures UnknownEstimate(b, estimates) == UnknownEstimate(Dollars(limit), estimates)
    ensures ExactEstimate(b, estimates) == ExactEstimate(Dollars(limit), estimates)
  {
    if estimates == [] {
    } else {
      SameAmounts(b, limit, estimates[1..]);
    }
    assert forall e: Estimate :: EstimateAmount(b, e) == EstimateAmount(Dollars(limit), e);
    assert forall provider :: AppliesTo(b, provider) && AppliesTo(Dollars(limit), provider);
  }

  /** A disabled budget is not looked at: the job is queued without a reservation and may dispatch anything. */
  lemma DisabledBudgetIsIgnored(limit: I64, n: I64, currency: string, hard: bool)
    ensures var t := Apply(OpeningWith(limit, hard, false), AdmitJob(0, false, [Costing(n, currency)]));
            && t.reservations == [] && t.jobs == map[0 := Job(Queued, false, None, None)]
            && DispatchAllowed(t, 0, Costing(n, currency))
  {
    var s := OpeningWith(limit, hard, false);
    assert PlannedAllocations(s.budgets, [Costing(n, currency)]) == map[];
  }

  /** Another job holds `m` micros of the same budget. */
  function Beside(limit: I64, m: I64): State {
    Opening(limit).(
      reservations := [Reservation(7, Active, map[0 := Allocation(m, None)], 0, 0, None)],
      jobs := map[7 := Job(Queued, false, Some(0), None)])
  }

  /** Beside it a job of `n` micros is admitted if and only if both are within the limit together. */
  lemma AdmittedBesideIff(limit: I64, m: I64, n: I64)
    requires 0 <= n && 0 <= m && 0 <= limit
    ensures 0 in Apply(Beside(limit, m), AdmitJob(0, false, [Costing(n, "USD")])).jobs <==> m + n <= limit
  {
    var s, estimates := Beside(limit, m), [Costing(n, "USD")];
    OneEstimate(limit, n, "USD");
    assert SameUpToCase("USD", "USD");
    var allocations := PlannedAllocations(s.budgets, estimates);
    assert !Unestimable(s.budgets[0], false, estimates);
    assert allocations == map[0 := Allocation(n, None)] && 0 in allocations.Keys;
    assert s.reservations[..0] == [] && Total(s.reservations, ActiveWeight(0)) == m;
    assert AllocationFits(s, 0, 0, n) <==> m + n <= limit;
    assert CanReserve(s, 0, allocations, true) <==> m + n <= limit;
  }

  lemma OneRow(limit: I64, m: I64, spent: string)
    requires 0 <= m
    ensures CycleEvents([Spending(m, spent)], 0, 0) == [Spending(m, spent)]
    ensures UnknownUsage(Dollars(limit), [Spending(m, spent)]) <==> !SameUpToCase("USD", spent)
    ensures ExactUsage(Dollars(limit), [Spending(m, spent)]) == if SameUpToCase("USD", spent) then m else 0
  {
    var rows := [Spending(m, spent)];
    MoneyIsKnownIff(Dollars(limit), "USD", Costing(0, ""), rows[0]);
    assert rows[1..] == [] && rows[..0] == [];
  }

  /** After `m` micros were spent a request for `x` more passes if and only if both are dollars and together
      they are within what the job holds. */
  lemma DispatchedIff(limit: I64, n: I64, m: I64, spent: string, x: I64, currency: string)
    requires 0 <= n < I64_MAX && 0 <= m && 0 <= x
    ensures DispatchAllowed(Holding(limit, n, Running, [Spending(m, spent)]), 0, Costing(x, currency))
       <==> SameUpToCase("USD", spent) && SameUpToCase("USD", currency) && m + x <= n
  {
    var s := Holding(limit, n, Running, [Spending(m, spent)]);
    OneRow(limit, m, spent);
    MoneyIsKnownIff(Dollars(limit), "USD", Costing(x, currency), Spending(m, spent));
    assert GuardsDispatch(s.budgets[0], Costing(x, currency));
    assert DispatchCovered(s, Some(0), 0, 0, Costing(x, currency))
        <==> SameUpToCase("USD", spent) && SameUpToCase("USD", currency) && m + x <= n;
  }

  /** Settled, the job is charged what it spent, or at least all it held when that was not in dollars. */
  lemma ChargedExactly(limit: I64, n: I64, m: I64, spent: string)
    requires 0 <= n && 0 <= m
    ensures Finalize(Holding(limit, n, Failed, [Spending(m, spent)]), 0).used
         == [if SameUpToCase("USD", spent) then m else n]
  {
    var s, rows := Holding(limit, n, Failed, [Spending(m, spent)]), [Spending(m, spent)];
    OneRow(limit, m, spent);
    MoneyIsKnownIff(Dollars(limit), "USD", Costing(0, ""), rows[0]);
    assert rows[1..] == [];
    assert Settleable(s, 0);
    assert Finalize(s, 0) == Reconcile(s, 0, rows);
  }
}

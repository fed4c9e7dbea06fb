/** What a budget counts, said without the rules that count it: currencies up to case, micros as they are
    stated, and one quantity field at a time. */
module Amounts {
  import opened Bounded
  import opened Wrappers
  import opened Accounting
  import opened LedgerLemmas
  import Text

  // ---- Currencies ----

  /** A cost in the given currency. */
  predicate CostsIn(cost: Option<Money>, currency: string) {
    cost.Some? && Text.SameUpToCase(currency, cost.value.currency)
  }

  predicate MoneyBudget(b: Budget, currency: string) {
    b.metric.MoneyMicros? && b.currency == Some(currency)
  }

  /** A money budget knows exactly the costs in its own currency, and counts their micros; an estimate must
      also come from a rate card. */
  lemma MoneyIsKnownIff(b: Budget, currency: string, estimate: Estimate, e: UsageEvent)
    requires MoneyBudget(b, currency)
    ensures UsageAmount(b, e) == if CostsIn(e.cost, currency) then Some(e.cost.value.micros) else None
    ensures EstimateAmount(b, estimate)
         == if estimate.rateCard.Some? && CostsIn(estimate.cost, currency)
            then Some(estimate.cost.value.micros) else None
  {
    if e.cost.Some? {
      Text.LowerIgnoresCase(currency, e.cost.value.currency);
    }
    if estimate.cost.Some? {
      Text.LowerIgnoresCase(currency, estimate.cost.value.currency);
    }
  }

  // ---- Sums of micros ----

  predicate UsageIn(rows: seq<UsageEvent>, currency: string) {
    forall i :: 0 <= i < |rows| ==> CostsIn(rows[i].cost, currency)
  }

  predicate RatedIn(estimates: seq<Estimate>, currency: string) {
    forall i :: 0 <= i < |estimates| ==> estimates[i].rateCard.Some? && CostsIn(estimates[i].cost, currency)
  }

  function SpentMicros(rows: seq<UsageEvent>): nat {
    if rows == [] then 0
    else SpentMicros(rows[..|rows| - 1])
         + (match rows[|rows| - 1].cost case Some(money) => Max(money.micros, 0) case None => 0)
  }

  function EstimatedMicros(estimates: seq<Estimate>): nat {
    if estimates == [] then 0
    else EstimatedMicros(estimates[..|estimates| - 1])
         + (match estimates[|estimates| - 1].cost case Some(money) => Max(money.micros, 0) case None => 0)
  }

  /** What a money budget has seen of rows in its currency is the sum of their non-negative micros. */
  lemma {:induction false} UsageIsMicros(b: Budget, currency: string, rows: seq<UsageEvent>)
    requires MoneyBudget(b, currency) && b.scope.Global? && UsageIn(rows, currency)
    ensures ExactUsage(b, rows) == SpentMicros(rows) && !UnknownUsage(b, rows)
  {
    forall i | 0 <= i < |rows|
      ensures UsageAmount(b, rows[i]) == Some(rows[i].cost.value.micros)
    {
      KnownUsageRow(b, currency, rows[i]);
    }
    if rows == [] {
    } else {
      var n := |rows| - 1;
      UsageIsMicros(b, currency, rows[..n]);
      assert rows == rows[..n] + [rows[n]];
      ExactUsageConcat(b, rows[..n], [rows[n]]);
      assert [rows[n]][1..] == [];
    }
  }

  lemma KnownUsageRow(b: Budget, currency: string, e: UsageEvent)
    requires MoneyBudget(b, currency) && CostsIn(e.cost, currency)
    ensures UsageAmount(b, e) == Some(e.cost.value.micros)
  {
    Text.LowerIgnoresCase(currency, e.cost.value.currency);
  }

  lemma KnownEstimate(b: Budget, currency: string, e: Estimate)
    requires MoneyBudget(b, currency) && e.rateCard.Some? && CostsIn(e.cost, currency)
    ensures EstimateAmount(b, e) == Some(e.cost.value.micros)
  {
    Text.LowerIgnoresCase(currency, e.cost.value.currency);
  }

  /** What a money budget is asked to reserve for rated estimates in its currency is the same sum. */
  lemma {:induction false} EstimateIsMicros(b: Budget, currency: string, estimates: seq<Estimate>)
    requires MoneyBudget(b, currency) && b.scope.Global? && RatedIn(estimates, currency)
    ensures ExactEstimate(b, estimates) == EstimatedMicros(estimates) && !UnknownEstimate(b, estimates)
  {
    forall i | 0 <= i < |estimates|
      ensures EstimateAmount(b, estimates[i]) == Some(estimates[i].cost.value.micros)
    {
      KnownEstimate(b, currency, estimates[i]);
    }
    if estimates == [] {
    } else {
      var n := |estimates| - 1;
      EstimateIsMicros(b, currency, estimates[..n]);
      assert estimates == estimates[..n] + [estimates[n]];
      ExactEstimateConcat(b, estimates[..n], [estimates[n]]);
      assert [estimates[n]][1..] == [];
    }
  }

  // ---- Scopes ----

  function RowsOf(rows: seq<UsageEvent>, provider: ProviderId): seq<UsageEvent> {
    if rows == [] then []
    else (if rows[0].provider == provider then [rows[0]] else []) + RowsOf(rows[1..], provider)
  }

  function EstimatesOf(estimates: seq<Estimate>, provider: ProviderId): seq<Estimate> {
    if estimates == [] then []
    else (if estimates[0].provider == provider then [estimates[0]] else []) + EstimatesOf(estimates[1..], provider)
  }

  /** A provider's budget counts what a global one would count of that provider's rows alone. */
  lemma {:induction false} ProviderUsage(b: Budget, rows: seq<UsageEvent>, provider: ProviderId)
    requires b.scope == Provider(Some(provider))
    ensures ExactUsage(b, rows) == ExactUsage(b.(scope := Global), RowsOf(rows, provider))
    ensures UnknownUsage(b, rows) <==> UnknownUsage(b.(scope := Global), RowsOf(rows, provider))
  {
    if rows == [] {
    } else {
      ProviderUsage(b, rows[1..], provider);
      UnknownUsageSplits(b, rows);
      var own := RowsOf(rows, provider);
      if rows[0].provider == provider {
        assert own[0] == rows[0] && own[1..] == RowsOf(rows[1..], provider);
        UnknownUsageSplits(b.(scope := Global), own);
      } else {
        assert own == RowsOf(rows[1..], provider);
      }
    }
  }

  lemma UnknownUsageSplits(b: Budget, rows: seq<UsageEvent>)
    requires rows != []
    ensures UnknownUsage(b, rows) <==>
              (AppliesTo(b, rows[0].provider) && UsageAmount(b, rows[0]).None?) || UnknownUsage(b, rows[1..])
  {
    if UnknownUsage(b, rows[1..]) {
      var i :| 0 <= i < |rows| - 1 && AppliesTo(b, rows[1..][i].provider) && UsageAmount(b, rows[1..][i]).None?;
      assert rows[i + 1] == rows[1..][i];
    }
    if UnknownUsage(b, rows) {
      var i :| 0 <= i < |rows| && AppliesTo(b, rows[i].provider) && UsageAmount(b, rows[i]).None?;
      assert i > 0 ==> rows[1..][i - 1] == rows[i];
    }
  }

  lemma {:induction false} ProviderEstimate(b: Budget, estimates: seq<Estimate>, provider: ProviderId)
    requires b.scope == Provider(Some(provider))
    ensures ExactEstimate(b, estimates) == ExactEstimate(b.(scope := Global), EstimatesOf(estimates, provider))
    ensures UnknownEstimate(b, estimates) <==> UnknownEstimate(b.(scope := Global), EstimatesOf(estimates, provider))
    ensures Touches(b, estimates) <==> EstimatesOf(estimates, provider) != []
  {
    if estimates == [] {
    } else {
      ProviderEstimate(b, estimates[1..], provider);
      UnknownEstimateSplits(b, estimates);
      var own := EstimatesOf(estimates, provider);
      if estimates[0].provider == provider {
        assert own[0] == estimates[0] && own[1..] == EstimatesOf(estimates[1..], provider);
        UnknownEstimateSplits(b.(scope := Global), own);
      } else {
        assert own == EstimatesOf(estimates[1..], provider);
      }
    }
  }

  lemma UnknownEstimateSplits(b: Budget, estimates: seq<Estimate>)
    requires estimates != []
    ensures UnknownEstimate(b, estimates) <==>
              || (AppliesTo(b, estimates[0].provider) && EstimateAmount(b, estimates[0]).None?)
              || UnknownEstimate(b, estimates[1..])
    ensures Touches(b, estimates) <==> AppliesTo(b, estimates[0].provider) || Touches(b, estimates[1..])
  {
    var rest := estimates[1..];
    if UnknownEstimate(b, rest) {
      var i :| 0 <= i < |rest| && AppliesTo(b, rest[i].provider) && EstimateAmount(b, rest[i]).None?;
      assert estimates[i + 1] == rest[i];
    }
    if Touches(b, rest) {
      var i :| 0 <= i < |rest| && AppliesTo(b, rest[i].provider);
      assert estimates[i + 1] == rest[i];
    }
    if UnknownEstimate(b, estimates) {
      var i :| 0 <= i < |estimates| && AppliesTo(b, estimates[i].provider) && EstimateAmount(b, estimates[i]).None?;
      assert i > 0 ==> rest[i - 1] == estimates[i];
    }
    if Touches(b, estimates) {
      var i :| 0 <= i < |estimates| && AppliesTo(b, estimates[i].provider);
      assert i > 0 ==> rest[i - 1] == estimates[i];
    }
  }

  /** A budget whose provider is missing counts nothing and touches nothing. */
  lemma {:induction false} OrphanedBudgetCountsNothing(b: Budget, rows: seq<UsageEvent>, estimates: seq<Estimate>)
    requires b.scope == Provider(None)
    ensures ExactUsage(b, rows) == 0 && !UnknownUsage(b, rows) && !Touches(b, estimates)
  {
    if rows == [] {
    } else {
      OrphanedBudgetCountsNothing(b, rows[1..], estimates);
    }
  }

  // ---- One quantity at a time ----

  datatype Field =
    | CharacterField
    | AudioField
    | InputField
    | OutputField
    | CacheReadField
    | ReasoningField
    | CreditField

  function Raised(q: Quantities, field: Field, n: nat): Quantities
    requires AllPresent(q) && Get(q, field) + n <= I64_MAX
  {
    match field
    case CharacterField => q.(characters := Some(q.characters.value + n))
    case AudioField => q.(audioMilliseconds := Some(q.audioMilliseconds.value + n))
    case InputField => q.(inputTokens := Some(q.inputTokens.value + n))
    case OutputField => q.(outputTokens := Some(q.outputTokens.value + n))
    case CacheReadField => q.(cacheReadTokens := Some(q.cacheReadTokens.value + n))
    case ReasoningField => q.(reasoningTokens := Some(q.reasoningTokens.value + n))
    case CreditField => q.(providerCredits := Some(q.providerCredits.value + n))
  }

  function Get(q: Quantities, field: Field): int
    requires AllPresent(q)
  {
    match field
    case CharacterField => q.characters.value
    case AudioField => q.audioMilliseconds.value
    case InputField => q.inputTokens.value
    case OutputField => q.outputTokens.value
    case CacheReadField => q.cacheReadTokens.value
    case ReasoningField => q.reasoningTokens.value
    case CreditField => q.providerCredits.value
  }

  predicate AllPresent(q: Quantities) {
    && q.characters.Some? && q.audioMilliseconds.Some? && q.inputTokens.Some? && q.outputTokens.Some?
    && q.cacheReadTokens.Some? && q.reasoningTokens.Some? && q.providerCredits.Some?
  }

  /** The fields that add to a metric. */
  function FieldsOf(metric: Metric): set<Field> {
    match metric
    case MoneyMicros => {}
    case Characters => {CharacterField}
    case AudioMilliseconds => {AudioField}
    case InputTokens => {InputField}
    case OutputTokens => {OutputField}
    case TotalTokens => {InputField, OutputField, ReasoningField}
    case ProviderCredits => {CreditField}
  }

  const NOTHING := Quantities(Some(0), Some(0), Some(0), Some(0), Some(0), Some(0), Some(0))

  /** Raising one quantity raises exactly the metrics it belongs to, by exactly that number; a chapter
      analysis has no audio. */
  lemma RaisingAFieldCounts(b: Budget, e: UsageEvent, field: Field, n: nat)
    requires AllPresent(e.quantities) && !b.metric.MoneyMicros?
    requires Get(e.quantities, field) + n <= I64_MAX && UsageAmount(b, e).Some?
    requires b.metric.TotalTokens? && field in FieldsOf(b.metric) ==> UsageAmount(b, e).value + n <= I64_MAX
    ensures var silent := b.metric.AudioMilliseconds? && e.workload.CharacterDetection?;
            var gain := if field in FieldsOf(b.metric) && !silent then n else 0;
            UsageAmount(b, e.(quantities := Raised(e.quantities, field, n))) == Some(UsageAmount(b, e).value + gain)
  {
  }

  /** Nothing used counts nothing, in every metric; a money budget does not look at quantities at all. */
  lemma NothingCountsNothing(b: Budget, e: UsageEvent, q: Quantities)
    ensures !b.metric.MoneyMicros? && e.quantities == NOTHING ==> UsageAmount(b, e) == Some(0)
    ensures b.metric.MoneyMicros? ==> UsageAmount(b, e) == UsageAmount(b, e.(quantities := q))
  {
  }

  /** A metric whose own quantity is missing is unknown; a token total needs its input only. */
  lemma MissingQuantityIsUnknown(b: Budget, e: UsageEvent)
    requires !b.metric.MoneyMicros?
    ensures UsageAmount(b, e).None? <==>
              match b.metric
              case Characters => e.quantities.characters.None? || e.quantities.characters.value > I64_MAX
              case AudioMilliseconds =>
                e.workload.Tts? && (e.quantities.audioMilliseconds.None?
                                    || e.quantities.audioMilliseconds.value > I64_MAX)
              case InputTokens => e.quantities.inputTokens.None? || e.quantities.inputTokens.value > I64_MAX
              case OutputTokens => e.quantities.outputTokens.None? || e.quantities.outputTokens.value > I64_MAX
              case TotalTokens =>
                e.quantities.inputTokens.None?
                || e.quantities.inputTokens.value + e.quantities.outputTokens.GetOr(0)
                   + e.quantities.reasoningTokens.GetOr(0) > I64_MAX
              case ProviderCredits => e.quantities.providerCredits.None?
  {
  }

  // ---- Unknown money fails closed ----

  /** A cost that a money budget cannot count. */
  predicate Uncountable(b: Budget, cost: Option<Money>) {
    b.currency.None? || !CostsIn(cost, b.currency.value)
  }

  lemma UncountableIsUnknown(b: Budget, estimate: Estimate, e: UsageEvent)
    requires b.metric.MoneyMicros?
    ensures Uncountable(b, e.cost) ==> UsageAmount(b, e).None?
    ensures Uncountable(b, estimate.cost) || estimate.rateCard.None? ==> EstimateAmount(b, estimate).None?
  {
    if b.currency.Some? {
      MoneyIsKnownIff(b, b.currency.value, estimate, e);
    }
  }

  /** One estimate in another currency, without a cost or without a rate card keeps the whole job out of a
      hard money budget that it touches. */
  lemma UncountableEstimateIsNotAdmitted(s: State, job: JobId, estimates: seq<Estimate>, k: nat, i: nat)
    requires k < |s.budgets| && i < |estimates|
    requires s.budgets[k].metric.MoneyMicros? && GuardsDispatch(s.budgets[k], estimates[i])
    requires Uncountable(s.budgets[k], estimates[i].cost) || estimates[i].rateCard.None?
    ensures Admit(s, job, false, estimates) == s
  {
    var e := UsageEvent(None, 0, Tts, NOTHING, None);
    UncountableIsUnknown(s.budgets[k], estimates[i], e);
    assert Touches(s.budgets[k], estimates) && UnknownEstimate(s.budgets[k], estimates);
    assert Unestimable(s.budgets[k], false, estimates);
  }

  /** One recorded row in another currency or without a cost stops every further request that the budget
      guards; so does the request's own estimate. */
  lemma UncountableUsageStopsDispatch(s: State, job: JobId, estimate: Estimate, k: nat, n: nat)
    requires job in s.jobs && !s.jobs[job].allowOverride && s.jobs[job].reservation.Some?
    requires s.jobs[job].reservation.value < |s.reservations|
    requires k < |s.budgets| && s.budgets[k].metric.MoneyMicros? && GuardsDispatch(s.budgets[k], estimate)
    requires s.reservations[s.jobs[job].reservation.value].start <= n < |s.ledger| && s.ledger[n].job == Some(job)
    requires AppliesTo(s.budgets[k], s.ledger[n].provider) && Uncountable(s.budgets[k], s.ledger[n].cost)
    ensures !DispatchAllowed(s, job, estimate)
  {
    var r := s.reservations[s.jobs[job].reservation.value];
    var rows := CycleEvents(s.ledger, job, r.start);
    LedgerRowIsListed(s.ledger, job, r.start, n);
    var i :| 0 <= i < |rows| && rows[i] == s.ledger[n];
    UncountableIsUnknown(s.budgets[k], estimate, rows[i]);
    assert UnknownUsage(s.budgets[k], rows);
    assert !DispatchCovered(s, s.jobs[job].reservation, job, k, estimate);
  }

  lemma UncountableRequestIsRefused(s: State, job: JobId, estimate: Estimate, k: nat)
    requires job in s.jobs && !s.jobs[job].allowOverride
    requires k < |s.budgets| && s.budgets[k].metric.MoneyMicros? && GuardsDispatch(s.budgets[k], estimate)
    requires Uncountable(s.budgets[k], estimate.cost) || estimate.rateCard.None?
    ensures !DispatchAllowed(s, job, estimate)
  {
    UncountableIsUnknown(s.budgets[k], estimate, UsageEvent(None, 0, Tts, NOTHING, None));
    assert !DispatchCovered(s, s.jobs[job].reservation, job, k, estimate);
  }
}

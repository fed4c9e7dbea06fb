/** Facts about the sums and event lists of Accounting that every later proof uses. */
module LedgerLemmas {
  import opened Bounded
  import opened Wrappers
  import opened Accounting

  lemma {:induction false} TotalAppend(rs: seq<Reservation>, r: Reservation, weight: Reservation -> int)
    ensures Total(rs + [r], weight) == Total(rs, weight) + weight(r)
  {
  }

  lemma {:induction false} TotalUpdate(rs: seq<Reservation>, i: nat, r: Reservation, weight: Reservation -> int)
    requires i < |rs|
    ensures Total(rs[i := r], weight) == Total(rs, weight) - weight(rs[i]) + weight(r)
  {
    var last := |rs| - 1;
    if i == last {
      assert rs[i := r][..last] == rs[..last];
    } else {
      assert rs[i := r][..last] == rs[..last][i := r];
      TotalUpdate(rs[..last], i, r, weight);
    }
  }

  lemma {:induction false} TotalNonNegative(rs: seq<Reservation>, weight: Reservation -> int)
    requires forall k :: 0 <= k < |rs| ==> weight(rs[k]) >= 0
    ensures Total(rs, weight) >= 0
  {
    if rs == [] {
    } else {
      TotalNonNegative(rs[..|rs| - 1], weight);
    }
  }

  /** Two weights that agree on every stored reservation have the same total. */
  lemma {:induction false} TotalSame(rs: seq<Reservation>, qs: seq<Reservation>, weight: Reservation -> int)
    requires |rs| == |qs|
    requires forall k :: 0 <= k < |rs| ==> weight(rs[k]) == weight(qs[k])
    ensures Total(rs, weight) == Total(qs, weight)
  {
    if rs == [] {
    } else {
      TotalSame(rs[..|rs| - 1], qs[..|qs| - 1], weight);
    }
  }

  lemma {:induction false} TotalEqual(rs: seq<Reservation>, v: Reservation -> int, w: Reservation -> int)
    requires forall i :: 0 <= i < |rs| ==> v(rs[i]) == w(rs[i])
    ensures Total(rs, v) == Total(rs, w)
  {
    if rs == [] {
    } else {
      TotalEqual(rs[..|rs| - 1], v, w);
    }
  }

  lemma {:induction false} TotalSplits(rs: seq<Reservation>, u: Reservation -> int, v: Reservation -> int,
                                       w: Reservation -> int)
    requires forall i :: 0 <= i < |rs| ==> u(rs[i]) == v(rs[i]) + w(rs[i])
    ensures Total(rs, u) == Total(rs, v) + Total(rs, w)
  {
    if rs == [] {
    } else {
      TotalSplits(rs[..|rs| - 1], u, v, w);
    }
  }

  lemma {:induction false} CycleEventsAppend(ledger: seq<UsageEvent>, e: UsageEvent, job: JobId, start: nat)
    requires start <= |ledger|
    ensures CycleEvents(ledger + [e], job, start)
         == (if e.job == Some(job) then [e] else []) + CycleEvents(ledger, job, start)
  {
  }

  lemma {:induction false} ExactUsageConcat(b: Budget, left: seq<UsageEvent>, right: seq<UsageEvent>)
    ensures ExactUsage(b, left + right) == ExactUsage(b, left) + ExactUsage(b, right)
  {
    if left == [] {
      assert left + right == right;
    } else {
      assert (left + right)[1..] == left[1..] + right;
      ExactUsageConcat(b, left[1..], right);
    }
  }

  lemma {:induction false} ExactEstimateConcat(b: Budget, left: seq<Estimate>, right: seq<Estimate>)
    ensures ExactEstimate(b, left + right) == ExactEstimate(b, left) + ExactEstimate(b, right)
  {
    if left == [] {
      assert left + right == right;
    } else {
      assert (left + right)[1..] == left[1..] + right;
      ExactEstimateConcat(b, left[1..], right);
    }
  }

  /** Every row that CycleEvents lists is a ledger row of the job at or after the boundary. */
  lemma {:induction false} CycleEventsFromLedger(ledger: seq<UsageEvent>, job: JobId, start: nat)
    ensures forall e :: e in CycleEvents(ledger, job, start) <==>
              exists n :: start <= n < |ledger| && ledger[n] == e && e.job == Some(job)
  {
    forall e | e in CycleEvents(ledger, job, start)
      ensures exists n :: start <= n < |ledger| && ledger[n] == e && e.job == Some(job)
    {
      var n := ListedRowIsInLedger(ledger, job, start, e);
    }
    forall n | start <= n < |ledger| && ledger[n].job == Some(job)
      ensures ledger[n] in CycleEvents(ledger, job, start)
    {
      LedgerRowIsListed(ledger, job, start, n);
    }
  }

  lemma {:induction false} ListedRowIsInLedger(ledger: seq<UsageEvent>, job: JobId, start: nat, e: UsageEvent)
    returns (n: nat)
    requires e in CycleEvents(ledger, job, start)
    ensures start <= n < |ledger| && ledger[n] == e && e.job == Some(job)
  {
    var last := |ledger| - 1;
    if e in CycleEvents(ledger[..last], job, start) {
      n := ListedRowIsInLedger(ledger[..last], job, start, e);
    } else {
      n := last;
    }
  }

  lemma {:induction false} LedgerRowIsListed(ledger: seq<UsageEvent>, job: JobId, start: nat, n: nat)
    requires start <= n < |ledger| && ledger[n].job == Some(job)
    ensures ledger[n] in CycleEvents(ledger, job, start)
  {
    var last := |ledger| - 1;
    if n < last {
      LedgerRowIsListed(ledger[..last], job, start, n);
    }
  }

  /** Saturation never yields a wrong token total: the total is the exact sum, or unknown when that
      does not fit in an i64. */
  lemma TotalTokensAreExact(q: Quantities, cost: Option<Money>)
    requires q.inputTokens.Some?
    ensures var total := q.inputTokens.value + q.outputTokens.GetOr(0) + q.reasoningTokens.GetOr(0);
            AmountFor(q, TotalTokens, cost) == if total <= I64_MAX then Some(total) else None
  {
  }

  /** Reservation and charge use one yardstick: a request that uses exactly what was estimated counts
      the same in both, unless a money estimate came from no rate card, and then it was unknown. */
  lemma EstimateAndUsageAgree(b: Budget, estimate: Estimate, e: UsageEvent)
    requires e.workload == estimate.workload && e.quantities == estimate.quantities && e.cost == estimate.cost
    ensures EstimateAmount(b, estimate).Some? ==> UsageAmount(b, e) == EstimateAmount(b, estimate)
    ensures UsageAmount(b, e) == EstimateAmount(b, estimate)
       <==> !(b.metric.MoneyMicros? && estimate.rateCard.None? && UsageAmount(b, e).Some?)
  {
  }

  /** Capping a running sum after every addition loses nothing against capping it once. */
  lemma CapThenAdd(x: nat, y: nat, w: I64)
    requires y <= w
    ensures Cap(x + y) <= SaturatingAdd(Cap(x), w)
    ensures y <= I64_MAX ==> Cap(x + y) == SaturatingAdd(Cap(x), y)
  {
  }

  lemma {:induction false} ChargeWithinReservation(b: Budget, events: seq<UsageEvent>, reserved: I64)
    requires Cap(ExactUsage(b, events)) <= reserved
    ensures 0 <= Charge(b, events, reserved) <= reserved
  {
  }
}

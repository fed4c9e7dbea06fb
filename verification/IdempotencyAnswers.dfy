/** Which answers the idempotency middleware keeps, by the number of their status: a request answered below 500
    is replayed for a day, one answered from 500 to 599 can be tried again at once. */
module IdempotencyAnswers {
  import opened Bounded
  import opened Wrappers
  import opened Text
  import opened SecretRoutes
  import opened Splitting
  import opened Idempotency

  predicate ServerFailure(status: nat) {
    500 <= status <= 599
  }

  /** An answer that is worth keeping: not a server failure, and at most 16 MiB. */
  predicate Keepable(r: Response) {
    !ServerFailure(r.status) && |r.body| <= 16_777_216
  }

  // ---- One request after another ----

  /** The key is unknown to the store or its record has expired. */
  predicate FreeKey(records: Records, key: Key, now: nat) {
    key in records ==> records[key].expiresAt <= now
  }

  /** After a request that found its key free, the next one of that key within a day replays the answer, and
      leaves the record alone, if the answer is to be kept; another request's content is refused. After a
      server failure or an oversized answer the key is gone and the next request runs its own handler. */
  lemma NextRequest(before: Records, mid: Records, after: Records, first: Request, second: Request,
                    answer: Response, again: Response, now: nat, later: nat, outcome: Outcome, next: Outcome)
    requires first.idempotencyKey.Some? && second.idempotencyKey.Some? && second.StoreKey() == first.StoreKey()
    requires FreeKey(before, first.StoreKey(), now) && now <= later < now + 86_400
    requires EnforcedRight(before, mid, first, answer, now, outcome)
    requires EnforcedRight(mid, after, second, again, later, next)
    ensures var key := first.StoreKey();
            if Keepable(answer) then
              && outcome == Answered(answer) && key in after && after[key] == mid[key]
              && next == if second.hash != first.hash then Refused(DifferentRequest)
                         else Replayed(Stored(answer.status, answer.body,
                                              answer.contentType.GetOr("application/octet-stream")))
            else
              && key !in mid
              && next == if |again.body| > 16_777_216 then Refused(ReplayLimit) else Answered(again)
  {
    assert ClaimOutcome(before, first.StoreKey(), first.hash, now) == Acquired;
  }

  /** A day after its claim the key is free again, whatever was answered. */
  lemma KeyIsFreeAfterADay(before: Records, mid: Records, after: Records, first: Request, second: Request,
                           answer: Response, again: Response, now: nat, later: nat, outcome: Outcome, next: Outcome)
    requires first.idempotencyKey.Some? && second.idempotencyKey.Some? && second.StoreKey() == first.StoreKey()
    requires FreeKey(before, first.StoreKey(), now) && now + 86_400 <= later
    requires EnforcedRight(before, mid, first, answer, now, outcome)
    requires EnforcedRight(mid, after, second, again, later, next)
    ensures next == if |again.body| > 16_777_216 then Refused(ReplayLimit) else Answered(again)
  {
    assert ClaimOutcome(before, first.StoreKey(), first.hash, now) == Acquired;
  }

  predicate NoBlank(verb: string) {
    ' ' !in verb
  }

  /** The same key text on another route, or under another verb, is another key. */
  lemma RoutesDoNotShareKeys(a: Request, b: Request)
    requires a.idempotencyKey.Some? && b.idempotencyKey.Some? && NoBlank(a.verb) && NoBlank(b.verb)
    ensures a.StoreKey() == b.StoreKey() <==>
              a.verb == b.verb && a.path == b.path && a.idempotencyKey == b.idempotencyKey
  {
    var s, t := a.verb + " " + a.path, b.verb + " " + b.path;
    BlankEndsVerb(a.verb, a.path);
    BlankEndsVerb(b.verb, b.path);
    assert s[..|a.verb|] == a.verb && t[..|b.verb|] == b.verb;
    assert s[|a.verb| + 1..] == a.path && t[|b.verb| + 1..] == b.path;
  }

  lemma {:induction false} BlankEndsVerb(verb: string, path: string)
    requires NoBlank(verb)
    ensures IndexOf(verb + " " + path, ' ') == |verb|
  {
    var s := verb + " " + path;
    assert s[|verb|] == ' ';
    assert forall j :: 0 <= j < |verb| ==> s[j] == verb[j];
  }

  /** Which requests the middleware lets pass, refuses and claims. */
  lemma GateIsExact(isUuid: UuidParser, r: Request)
    ensures Gate(isUuid, r).Bypass? <==>
              || IsSecretBearing(isUuid, r.verb, r.path)
              || r.verb == "GET" || r.verb == "HEAD" || r.verb == "OPTIONS"
              || r.path == "/api/v1/auth/bootstrap"
              || !("application/json" <= r.contentType)
    ensures Gate(isUuid, r).Claimed? <==>
              && !Gate(isUuid, r).Bypass?
              && r.idempotencyKey.Some? && 1 <= |Utf8(r.idempotencyKey.value)| <= 200
              && (forall i :: 0 <= i < |r.idempotencyKey.value| ==> !IsWhitespace(r.idempotencyKey.value[i]))
              && r.bodyLength <= 2_097_152 && r.hash != ""
  {
    if r.idempotencyKey.Some? {
      Utf8Grows(r.idempotencyKey.value);
    }
  }

  // ---- A request alone ----

  /** One request of the concurrent protocol, not interleaved with any other. */
  function Alone(records: Records, r: Request, response: Response, now: nat): System
    requires r.idempotencyKey.Some?
  {
    var arrived := System(records, [Process(r.StoreKey(), r.hash, Arrived, 0, None, false)], now);
    Apply(Apply(Apply(Apply(arrived, ClaimKey(0)), Handle(0, response)), Settle(0)), Answer(0))
  }

  /** The protocol refines the middleware: a request alone leaves the store and answers as Enforce does. */
  lemma AloneIsEnforce(records: Records, r: Request, response: Response, now: nat)
    requires r.idempotencyKey.Some?
    ensures var t := Alone(records, r, response, now);
            && |t.processes| == 1 && t.processes[0].phase.Finished?
            && EnforcedRight(records, t.records, r, response, now, t.processes[0].phase.outcome)
  {
    var p := Process(r.StoreKey(), r.hash, Arrived, 0, None, false);
    var arrived := System(records, [p], now);
    if ClaimOutcome(records, r.StoreKey(), r.hash, now) == Acquired {
      AloneSettles(records, r, response, now);
    } else {
      var claimed := Apply(arrived, ClaimKey(0));
      assert claimed.processes[0].phase.Settled?;
      assert Apply(Apply(claimed, Handle(0, response)), Settle(0)) == claimed;
    }
  }

  lemma AloneSettles(records: Records, r: Request, response: Response, now: nat)
    requires r.idempotencyKey.Some? && ClaimOutcome(records, r.StoreKey(), r.hash, now) == Acquired
    ensures var t := Alone(records, r, response, now);
            && |t.processes| == 1 && t.processes[0].phase.Finished?
            && EnforcedRight(records, t.records, r, response, now, t.processes[0].phase.outcome)
  {
    var key, live := r.StoreKey(), Unexpired(records, now);
    var p := Process(key, r.hash, Arrived, 0, None, false);
    var open := live[key := Record(r.hash, None, now + DAY)];
    var handling := System(open, [p.(phase := Handling, claimedAt := now)], now);
    assert Apply(System(records, [p], now), ClaimKey(0)) == handling;
    var responded := System(open, [p.(phase := Responded, claimedAt := now, response := Some(response))], now);
    assert Apply(handling, Handle(0, response)) == responded;
    assert CanComplete(open, key, r.hash);
    assert open - {key} == live - {key} + map[];
    assert open[key := Record(r.hash, Some(StoredOf(response)), now + DAY)]
        == live - {key} + map[key := Record(r.hash, Some(StoredOf(response)), now + DAY)];
  }

  // ---- In every run ----

  /** What a request has stored and answered fits the status and size of its handler's response. */
  predicate AnswerOk(p: Process) {
    && (p.phase.Arrived? || p.phase.Handling? ==> p.response.None? && !p.stored)
    && (p.phase.Responded? ==> p.response.Some? && !p.stored)
    && (p.phase.Settled? || p.phase.Finished? ==>
          match p.phase.outcome
          case Answered(r) =>
            p.response == Some(r) && |r.body| <= 16_777_216 && (p.stored <==> !ServerFailure(r.status))
          case Refused(ReplayLimit) => p.response.Some? && |p.response.value.body| > 16_777_216 && !p.stored
          case Refused(CompletionFailed) => p.response.Some? && Keepable(p.response.value) && !p.stored
          case _ => p.response.None? && !p.stored)
  }

  predicate AnswersOk(s: System) {
    forall i :: 0 <= i < |s.processes| ==> AnswerOk(s.processes[i])
  }

  lemma StepKeepsAnswers(s: System, step: Step)
    requires AnswersOk(s)
    ensures AnswersOk(Apply(s, step))
  {
    match step
    case ClaimKey(p) =>
      if At(s, p, Arrived) {
        assert AnswerOk(s.processes[p]);
      }
    case _ =>
  }

  /** In every run whatsoever a request that was answered by its handler is stored for replays if and only if
      the status is not from 500 to 599, and an oversized answer is refused and never stored. */
  lemma {:induction false} StoredIffNotServerFailure(s0: System, steps: seq<Step>)
    requires Initial(s0)
    ensures AnswersOk(Run(s0, steps))
  {
    if steps == [] {
    } else {
      StoredIffNotServerFailure(s0, steps[..|steps| - 1]);
      StepKeepsAnswers(Run(s0, steps[..|steps| - 1]), steps[|steps| - 1]);
    }
  }

  /** From the moment a request settles with such an answer, every request of the same key and content that
      claims before the record expires is answered with it, whatever else happens. */
  lemma {:induction false} AnsweredIsReplayed(s0: System, steps: seq<Step>, p: nat, more: seq<Step>, later: nat)
    requires Initial(s0) && At(Run(s0, steps), p, Responded)
    requires TimelyRun(s0, steps, Run(s0, steps).processes[p].key) && SparedRun(s0, steps, p)
    requires Run(s0, steps).processes[p].response.Some? && Keepable(Run(s0, steps).processes[p].response.value)
    requires var t := Run(Apply(Run(s0, steps), Settle(p)), more);
             && t.clock < Run(s0, steps).processes[p].claimedAt + 86_400 && At(t, later, Arrived)
             && t.processes[later].key == Run(s0, steps).processes[p].key
             && t.processes[later].hash == Run(s0, steps).processes[p].hash
    ensures var r := Run(s0, steps).processes[p].response.value;
            var t := Run(Apply(Run(s0, steps), Settle(p)), more);
            var stored := Stored(r.status, r.body, r.contentType.GetOr("application/octet-stream"));
            ClaimStep(t, later).processes[later].phase == Settled(Replayed(stored))
  {
    var s := Run(s0, steps);
    var q := s.processes[p];
    RunsKeepKey(s0, steps, q.key);
    CompletionNeverFails(s0, steps, p);
    var record := Record(q.hash, Some(StoredOf(q.response.value)), q.claimedAt + DAY);
    SettledIsCompleted(s, p);
    CompletedHasNoHolder(Apply(s, Settle(p)), q.key, record);
    CompletedStays(Apply(s, Settle(p)), more, q.key, record);
  }

  lemma SettledIsCompleted(s: System, p: nat)
    requires At(s, p, Responded) && KeyOk(s, s.processes[p].key) && CompletionOk(s, s.processes[p])
    requires s.processes[p].response.Some? && Keepable(s.processes[p].response.value)
    ensures var q, t := s.processes[p], Apply(s, Settle(p));
            && KeyOk(t, q.key)
            && CompletedAs(t, q.key, Record(q.hash, Some(StoredOf(q.response.value)), q.claimedAt + DAY))
  {
    SettleKeepsKey(s, p, s.processes[p].key);
    assert ProcessOk(s, s.processes[p]);
  }

  /** A request may die at any point before its end, and does nothing from then on. */
  lemma DyingIsFinal(s: System, p: nat, step: Step)
    requires p < |s.processes|
    ensures var t := Apply(s, Die(p));
            && t.records == s.records
            && (if s.processes[p].phase.Finished? then t == s else t.processes[p].phase == Dead)
    ensures s.processes[p].phase == Dead ==> Apply(s, step).processes[p] == s.processes[p]
  {
  }

  /** After a server failure or an oversized answer the key is free: the next request to claim it, whatever its
      content, runs its own handler. */
  lemma FailureFreesTheKey(s: System, p: nat, next: nat)
    requires At(s, p, Responded) && s.processes[p].response.Some? && !Keepable(s.processes[p].response.value)
    ensures var t := Apply(s, Settle(p));
            && s.processes[p].key !in t.records
            && (At(t, next, Arrived) && t.processes[next].key == s.processes[p].key ==>
                  ClaimStep(t, next).processes[next].phase == Handling)
  {
  }
}

/** The idempotency middleware over its shared store: one atomic claim per request, then the handler,
    then completion or removal of the claim. */
module Idempotency {
  import opened Bounded
  import opened SecretRoutes
  import opened Text
  import opened Wrappers

  const MAX_KEY_LENGTH := 200
  const MAX_JSON_BODY_BYTES := 2 * 1024 * 1024
  const MAX_REPLAY_BODY_BYTES := 16 * 1024 * 1024
  const DEFAULT_CONTENT_TYPE := "application/octet-stream"
  const DAY := 24 * 60 * 60

  datatype Key = Key(scope: string, key: string)

  /** A handler's response; the content type is absent when the header is missing or unreadable. */
  datatype Response = Response(status: nat, body: seq<Byte>, contentType: Option<string>) {
    predicate IsServerError() {
      500 <= status < 600
    }
  }

  /** What is kept for a replay. */
  datatype Stored = Stored(status: nat, body: seq<Byte>, contentType: string)

  datatype Record = Record(hash: string, response: Option<Stored>, expiresAt: nat)

  type Records = map<Key, Record>

  datatype Claim = Acquired | InProgress | Replay(stored: Stored) | Mismatch

  function StoredOf(r: Response): Stored {
    Stored(r.status, r.body, r.contentType.GetOr(DEFAULT_CONTENT_TYPE))
  }

  // ---- The store's atomic steps ----

  function Unexpired(records: Records, now: nat): Records {
    map k | k in records && records[k].expiresAt > now :: records[k]
  }

  function ClaimOutcome(records: Records, key: Key, hash: string, now: nat): Claim {
    var live := Unexpired(records, now);
    if key !in live then Acquired
    else if live[key].hash != hash then Mismatch
    else if live[key].response.None? then InProgress
    else Replay(live[key].response.value)
  }

  /** A failed claim rolls its transaction back, so a mismatch does not even purge. */
  function AfterClaim(records: Records, key: Key, hash: string, now: nat): Records {
    match ClaimOutcome(records, key, hash, now)
    case Acquired => Unexpired(records, now)[key := Record(hash, None, now + DAY)]
    case Mismatch => records
    case _ => Unexpired(records, now)
  }

  predicate CanComplete(records: Records, key: Key, hash: string) {
    key in records && records[key].hash == hash && records[key].response.None?
  }

  function AfterComplete(records: Records, key: Key, hash: string, stored: Stored): Records {
    if CanComplete(records, key, hash) then records[key := records[key].(response := Some(stored))] else records
  }

  class Repository {
    var records: Records

    constructor ()
      ensures records == map[]
    {
      records := map[];
    }

    method TryClaim(key: Key, hash: string, now: nat) returns (claim: Claim)
      modifies this
      ensures claim == ClaimOutcome(old(records), key, hash, now)
      ensures records == AfterClaim(old(records), key, hash, now)
    {
      var live := Unexpired(records, now);
      if key !in live {
        records := live[key := Record(hash, None, now + DAY)];
        return Acquired;
      }
      if live[key].hash != hash {
        return Mismatch;
      }
      records := live;
      if live[key].response.None? {
        return InProgress;
      }
      return Replay(live[key].response.value);
    }

    method Complete(key: Key, hash: string, stored: Stored) returns (ok: bool)
      modifies this
      ensures ok == CanComplete(old(records), key, hash)
      ensures records == AfterComplete(old(records), key, hash, stored)
    {
      ok := key in records && records[key].hash == hash && records[key].response.None?;
      if ok {
        records := records[key := records[key].(response := Some(stored))];
      }
    }

    method Forget(key: Key) returns (existed: bool)
      modifies this
      ensures existed == (key in old(records))
      ensures records == old(records) - {key}
    {
      existed := key in records;
      records := records - {key};
    }

    /** The middleware for one request that nothing interleaves with. */
    method Enforce(isUuid: UuidParser, request: Request, handler: Request -> Response, now: nat)
      returns (outcome: Outcome)
      modifies this
      ensures match Gate(isUuid, request)
              case Bypass => outcome == Answered(handler(request)) && records == old(records)
              case Reject(reason) => outcome == Refused(reason) && records == old(records)
              case Claimed => EnforcedRight(old(records), records, request, handler(request), now, outcome)
    {
      match Gate(isUuid, request)
      case Bypass =>
        return Answered(handler(request));
      case Reject(reason) =>
        return Refused(reason);
      case Claimed =>
        var key := request.StoreKey();
        var claim := TryClaim(key, request.hash, now);
        match claim
        case Replay(stored) =>
          return Replayed(stored);
        case InProgress =>
          return Refused(StillRunning);
        case Mismatch =>
          return Refused(DifferentRequest);
        case Acquired =>
          var response := handler(request);
          if |response.body| > MAX_REPLAY_BODY_BYTES {
            var _ := Forget(key);
            return Refused(ReplayLimit);
          }
          if response.IsServerError() {
            var _ := Forget(key);
          } else {
            var _ := Complete(key, request.hash, StoredOf(response));
          }
          return Answered(response);
    }
  }

  // ---- One request ----

  /** A request as the middleware sees it. `hash` is the fingerprint of its method, URI and body. */
  datatype Request = Request(
    verb: string,
    path: string,
    contentType: string,
    idempotencyKey: Option<string>,
    bodyLength: nat,
    hash: string)
  {
    function StoreKey(): Key
      requires idempotencyKey.Some?
    {
      Key(verb + " " + path, idempotencyKey.value)
    }
  }

  datatype GateResult = Bypass | Reject(reason: Refusal) | Claimed

  predicate IsAcceptableKey(key: string) {
    |Utf8(key)| <= MAX_KEY_LENGTH && forall i :: 0 <= i < |key| ==> !IsWhitespace(key[i])
  }

  function Gate(isUuid: UuidParser, r: Request): (g: GateResult)
    ensures g == Claimed ==> r.idempotencyKey.Some?
  {
    if IsSecretBearing(isUuid, r.verb, r.path) then Bypass
    else if r.verb in {"GET", "HEAD", "OPTIONS"} || r.path == "/api/v1/auth/bootstrap" then Bypass
    else if !("application/json" <= r.contentType) then Bypass
    else if r.idempotencyKey.None? then Reject(KeyMissing)
    else if !IsAcceptableKey(r.idempotencyKey.value) then Reject(KeyUnacceptable)
    else if r.bodyLength > MAX_JSON_BODY_BYTES then Reject(BodyTooLarge)
    else if r.idempotencyKey.value == "" || r.hash == "" then Reject(StoreRefused)
    else Claimed
  }

  predicate Replayable(r: Response) {
    |r.body| <= MAX_REPLAY_BODY_BYTES && !r.IsServerError()
  }

  datatype Refusal =
    | KeyMissing
    | KeyUnacceptable
    | BodyTooLarge
    | StoreRefused
    | StillRunning
    | DifferentRequest
    | ReplayLimit
    | CompletionFailed

  datatype Outcome = Answered(response: Response) | Replayed(stored: Stored) | Refused(reason: Refusal)

  /** What a request that reaches the store leaves there and answers. */
  predicate EnforcedRight(before: Records, after: Records, r: Request, response: Response, now: nat, outcome: Outcome)
    requires r.idempotencyKey.Some?
  {
    var key, live := r.StoreKey(), Unexpired(before, now);
    match ClaimOutcome(before, key, r.hash, now)
    case Acquired =>
      && after == live - {key}
                + (if Replayable(response)
                   then map[key := Record(r.hash, Some(StoredOf(response)), now + DAY)] else map[])
      && outcome == if |response.body| > MAX_REPLAY_BODY_BYTES then Refused(ReplayLimit) else Answered(response)
    case Replay(stored) => outcome == Replayed(stored) && after == live
    case InProgress => outcome == Refused(StillRunning) && after == live
    case Mismatch => outcome == Refused(DifferentRequest) && after == before
  }

  // ---- Concurrent requests ----

  datatype Phase =
    | Arrived
    | Handling
    | Responded
    | Settled(outcome: Outcome)
    | Finished(outcome: Outcome)
    | Dead

  /** `claimedAt` is when the request acquired its key, `response` what its handler answered, and
      `stored` whether that was stored for replays. */
  datatype Process = Process(
    key: Key,
    hash: string,
    phase: Phase,
    claimedAt: nat,
    response: Option<Response>,
    stored: bool)

  datatype System = System(records: Records, processes: seq<Process>, clock: nat)

  datatype Step =
    | Arrive(key: Key, hash: string)
    | ClaimKey(p: nat)
    | Handle(p: nat, response: Response)
    | Settle(p: nat)
    | Answer(p: nat)
    | Die(p: nat)
    | Pass(seconds: nat)

  function Set(s: System, p: nat, q: Process): System
    requires p < |s.processes|
  {
    s.(processes := s.processes[p := q])
  }

  function AfterClaimed(q: Process, claim: Claim, now: nat): Process {
    match claim
    case Acquired => q.(phase := Handling, claimedAt := now)
    case InProgress => q.(phase := Settled(Refused(StillRunning)))
    case Mismatch => q.(phase := Settled(Refused(DifferentRequest)))
    case Replay(stored) => q.(phase := Settled(Replayed(stored)))
  }

  predicate At(s: System, p: nat, phase: Phase) {
    p < |s.processes| && s.processes[p].phase == phase
  }

  function ClaimStep(s: System, p: nat): System
    requires p < |s.processes|
  {
    var q := s.processes[p];
    Set(s, p, AfterClaimed(q, ClaimOutcome(s.records, q.key, q.hash, s.clock), s.clock))
    .(records := AfterClaim(s.records, q.key, q.hash, s.clock))
  }

  /** What the store does for a response, and what will be answered. */
  function SettleStep(s: System, p: nat): System
    requires p < |s.processes| && s.processes[p].response.Some?
  {
    var q := s.processes[p];
    var response := q.response.value;
    if |response.body| > MAX_REPLAY_BODY_BYTES then
      Set(s, p, q.(phase := Settled(Refused(ReplayLimit)))).(records := s.records - {q.key})
    else if response.IsServerError() then
      Set(s, p, q.(phase := Settled(Answered(response)))).(records := s.records - {q.key})
    else if CanComplete(s.records, q.key, q.hash) then
      Set(s, p, q.(phase := Settled(Answered(response)), stored := true))
      .(records := AfterComplete(s.records, q.key, q.hash, StoredOf(response)))
    else Set(s, p, q.(phase := Settled(Refused(CompletionFailed))))
  }

  function Apply(s: System, step: Step): System {
    match step
    case Arrive(key, hash) => s.(processes := s.processes + [Process(key, hash, Arrived, 0, None, false)])
    case ClaimKey(p) => if At(s, p, Arrived) then ClaimStep(s, p) else s
    case Handle(p, response) =>
      if At(s, p, Handling) then Set(s, p, s.processes[p].(phase := Responded, response := Some(response))) else s
    case Settle(p) => if At(s, p, Responded) && s.processes[p].response.Some? then SettleStep(s, p) else s
    case Answer(p) =>
      if p < |s.processes| && s.processes[p].phase.Settled?
      then Set(s, p, s.processes[p].(phase := Finished(s.processes[p].phase.outcome))) else s
    case Die(p) =>
      if p < |s.processes| && !s.processes[p].phase.Finished? then Set(s, p, s.processes[p].(phase := Dead)) else s
    case Pass(seconds) => s.(clock := s.clock + seconds)
  }

  function Run(s: System, steps: seq<Step>): System {
    if steps == [] then s else Apply(Run(s, steps[..|steps| - 1]), steps[|steps| - 1])
  }

  predicate Initial(s: System) {
    s.records == map[] && s.processes == []
  }

  /** Between its claim and its completion or removal. */
  predicate Holds(p: Process) {
    p.phase.Handling? || p.phase.Responded?
  }

  predicate Replaying(p: Process) {
    (p.phase.Settled? || p.phase.Finished?) && p.phase.outcome.Replayed?
  }

  // ---- Every replay has an origin, in every run ----

  /** Some request of this key and hash ran its handler, and what it answered was stored. */
  ghost predicate HasOrigin(s: System, key: Key, hash: string, stored: Stored) {
    exists i :: 0 <= i < |s.processes| && IsOrigin(s.processes[i], key, hash, stored)
  }

  predicate IsOrigin(p: Process, key: Key, hash: string, stored: Stored) {
    p.key == key && p.hash == hash && p.stored && p.response.Some? && StoredOf(p.response.value) == stored
  }

  ghost predicate Origins(s: System) {
    && (forall k :: k in s.records && s.records[k].response.Some? ==>
          HasOrigin(s, k, s.records[k].hash, s.records[k].response.value))
    && (forall i :: 0 <= i < |s.processes| && Replaying(s.processes[i]) ==>
          HasOrigin(s, s.processes[i].key, s.processes[i].hash, s.processes[i].phase.outcome.stored))
    && (forall i :: 0 <= i < |s.processes| && (s.processes[i].phase.Arrived? || s.processes[i].phase.Handling?) ==>
          !s.processes[i].stored)
  }

  /** A request that stored its response keeps being the origin of it. */
  predicate KeepsStored(s: System, t: System) {
    && |s.processes| <= |t.processes|
    && forall i :: 0 <= i < |s.processes| && s.processes[i].stored ==>
         t.processes[i] == s.processes[i].(phase := t.processes[i].phase)
  }

  lemma OriginStays(s: System, t: System, key: Key, hash: string, stored: Stored)
    requires HasOrigin(s, key, hash, stored) && KeepsStored(s, t)
    ensures HasOrigin(t, key, hash, stored)
  {
  }

  /** A step that adds no stored response to the records, and no replay to the processes, that was not
      there before. */
  lemma OriginsStay(s: System, t: System)
    requires Origins(s) && KeepsStored(s, t)
    requires forall k :: k in t.records && t.records[k].response.Some? ==>
        k in s.records && t.records[k] == s.records[k]
    requires forall i :: 0 <= i < |t.processes| && Replaying(t.processes[i]) ==>
               HasOrigin(s, t.processes[i].key, t.processes[i].hash, t.processes[i].phase.outcome.stored)
    requires forall i :: 0 <= i < |t.processes| && (t.processes[i].phase.Arrived? || t.processes[i].phase.Handling?) ==>
               !t.processes[i].stored
    ensures Origins(t)
  {
    forall k | k in t.records && t.records[k].response.Some?
      ensures HasOrigin(t, k, t.records[k].hash, t.records[k].response.value)
    {
      OriginStays(s, t, k, s.records[k].hash, s.records[k].response.value);
    }
    forall i | 0 <= i < |t.processes| && Replaying(t.processes[i])
      ensures HasOrigin(t, t.processes[i].key, t.processes[i].hash, t.processes[i].phase.outcome.stored)
    {
      OriginStays(s, t, t.processes[i].key, t.processes[i].hash, t.processes[i].phase.outcome.stored);
    }
  }

  lemma ClaimKeepsOrigins(s: System, p: nat)
    requires Origins(s) && At(s, p, Arrived)
    ensures Origins(ClaimStep(s, p))
  {
    var t, q := ClaimStep(s, p), s.processes[p];
    if ClaimOutcome(s.records, q.key, q.hash, s.clock).Replay? {
      assert HasOrigin(s, q.key, q.hash, s.records[q.key].response.value);
    }
    OriginsStay(s, t);
  }

  lemma CompletionKeepsOrigins(s: System, p: nat)
    requires Origins(s) && At(s, p, Responded) && s.processes[p].response.Some?
    requires Replayable(s.processes[p].response.value)
    requires CanComplete(s.records, s.processes[p].key, s.processes[p].hash)
    ensures Origins(SettleStep(s, p))
  {
    var t, q := SettleStep(s, p), s.processes[p];
    assert IsOrigin(t.processes[p], q.key, q.hash, StoredOf(q.response.value));
    forall k | k in t.records && t.records[k].response.Some?
      ensures HasOrigin(t, k, t.records[k].hash, t.records[k].response.value)
    {
      if k != q.key {
        OriginStays(s, t, k, s.records[k].hash, s.records[k].response.value);
      }
    }
    forall i | 0 <= i < |t.processes| && Replaying(t.processes[i])
      ensures HasOrigin(t, t.processes[i].key, t.processes[i].hash, t.processes[i].phase.outcome.stored)
    {
      OriginStays(s, t, t.processes[i].key, t.processes[i].hash, t.processes[i].phase.outcome.stored);
    }
  }

  lemma SettleKeepsOrigins(s: System, p: nat)
    requires Origins(s) && At(s, p, Responded) && s.processes[p].response.Some?
    ensures Origins(SettleStep(s, p))
  {
    var q := s.processes[p];
    if Replayable(q.response.value) && CanComplete(s.records, q.key, q.hash) {
      CompletionKeepsOrigins(s, p);
    } else {
      OriginsStay(s, SettleStep(s, p));
    }
  }

  lemma StepKeepsOrigins(s: System, step: Step)
    requires Origins(s)
    ensures Origins(Apply(s, step))
  {
    var t := Apply(s, step);
    if t != s {
      match step
      case ClaimKey(p) => ClaimKeepsOrigins(s, p);
      case Settle(p) => SettleKeepsOrigins(s, p);
      case _ => OriginsStay(s, t);
    }
  }

  lemma {:induction false} RunsKeepOrigins(s: System, steps: seq<Step>)
    requires Initial(s)
    ensures Origins(Run(s, steps))
  {
    if steps == [] {
    } else {
      RunsKeepOrigins(s, steps[..|steps| - 1]);
      StepKeepsOrigins(Run(s, steps[..|steps| - 1]), steps[|steps| - 1]);
    }
  }

  /** In every run, however long and whatever expires or dies in it, every replay is what the handler of
      some request with the same key and content answered: same status, same body, and its content type,
      or the default when it had none. */
  lemma {:induction false} ReplaysAreFaithful(s0: System, steps: seq<Step>, i: nat)
    requires Initial(s0) && i < |Run(s0, steps).processes| && Replaying(Run(s0, steps).processes[i])
    ensures var s := Run(s0, steps);
            var p := s.processes[i];
            exists k :: 0 <= k < |s.processes| && s.processes[k].key == p.key && s.processes[k].hash == p.hash
                        && s.processes[k].stored && s.processes[k].response.Some?
                        && var r := s.processes[k].response.value;
                           p.phase.outcome.stored == Stored(r.status, r.body, r.contentType.GetOr(DEFAULT_CONTENT_TYPE))
  {
    RunsKeepOrigins(s0, steps);
    var s := Run(s0, steps);
    var p := s.processes[i];
    var k :| 0 <= k < |s.processes| && IsOrigin(s.processes[k], p.key, p.hash, p.phase.outcome.stored);
    assert s.processes[k].key == p.key;
  }

  // ---- One holder per key, as long as no held claim of that key expires before its next claim ----

  predicate Fresh(s: System, p: Process) {
    s.clock < p.claimedAt + DAY
  }

  /** A holder's record is its own open claim, or gone once the claim has expired; what a request stored is
      in the records for a day. */
  predicate ProcessOk(s: System, p: Process) {
    && (Holds(p) ==>
          && p.claimedAt <= s.clock
          && (Fresh(s, p) ==> p.key in s.records)
          && (p.key in s.records ==> s.records[p.key] == Record(p.hash, None, p.claimedAt + DAY)))
    && (p.phase.Responded? || p.stored ==> p.response.Some?)
    && (p.phase.Arrived? || Holds(p) ==> !p.stored)
    && (p.stored ==>
          && p.claimedAt <= s.clock
          && (Fresh(s, p) ==>
                p.key in s.records
                && s.records[p.key] == Record(p.hash, Some(StoredOf(p.response.value)), p.claimedAt + DAY)))
  }

  /** Two requests of one key never hold it together, and acquired it at least a day apart when the
      first one's response was stored. */
  predicate PairOk(p: Process, q: Process) {
    && !(Holds(p) && Holds(q))
    && (p.stored && Holds(q) ==> q.claimedAt >= p.claimedAt + DAY)
    && (Holds(p) && q.stored ==> p.claimedAt >= q.claimedAt + DAY)
    && (p.stored && q.stored ==> p.claimedAt >= q.claimedAt + DAY || q.claimedAt >= p.claimedAt + DAY)
  }

  predicate KeyOk(s: System, key: Key) {
    && (forall i :: 0 <= i < |s.processes| && s.processes[i].key == key ==> ProcessOk(s, s.processes[i]))
    && (forall i, k :: 0 <= i < k < |s.processes| && s.processes[i].key == key && s.processes[k].key == key ==>
          PairOk(s.processes[i], s.processes[k]))
  }

  /** Some holder of the key has outlived its claim. */
  predicate StaleHolder(s: System, key: Key) {
    exists i :: 0 <= i < |s.processes| && s.processes[i].key == key && Holds(s.processes[i])
                && !Fresh(s, s.processes[i])
  }

  predicate Claims(s: System, step: Step) {
    step.ClaimKey? && At(s, step.p, Arrived)
  }

  /** The key is not claimed while a holder of it has outlived its own claim. */
  predicate Timely(s: System, step: Step, key: Key) {
    Claims(s, step) && s.processes[step.p].key == key ==> !StaleHolder(s, key)
  }

  predicate TimelyRun(s: System, steps: seq<Step>, key: Key) {
    steps == []
    || (TimelyRun(s, steps[..|steps| - 1], key) && Timely(Run(s, steps[..|steps| - 1]), steps[|steps| - 1], key))
  }

  /** One process changes, and the records of the key change only as that process and time allow. */
  lemma ChangeKeepsKey(s: System, t: System, p: nat, key: Key)
    requires KeyOk(s, key) && p < |s.processes| && |t.processes| == |s.processes| && t.clock == s.clock
    requires t.processes == s.processes[p := t.processes[p]] && t.processes[p].key == s.processes[p].key
    requires s.processes[p].key == key ==> ProcessOk(t, t.processes[p])
    requires forall i :: 0 <= i < |s.processes| && i != p && s.processes[i].key == key ==>
        && ProcessOk(t, s.processes[i])
        && (s.processes[p].key == key ==> PairOk(s.processes[i], t.processes[p]))
    ensures KeyOk(t, key)
  {
  }

  /** A process that only moves on, without touching the records. */
  lemma MoveKeepsKey(s: System, p: nat, q: Process, key: Key)
    requires KeyOk(s, key) && p < |s.processes|
    requires q == s.processes[p].(phase := q.phase, response := q.response)
    requires !q.phase.Arrived? && (Holds(q) ==> Holds(s.processes[p]))
    requires q.phase.Responded? ==> q.response.Some?
    requires q.response == s.processes[p].response || (q.response.Some? && s.processes[p].phase.Handling?)
    ensures KeyOk(Set(s, p, q), key)
  {
    var t := Set(s, p, q);
    assert s.processes[p].key == key ==> ProcessOk(s, s.processes[p]);
    forall i | 0 <= i < |s.processes| && i != p && s.processes[i].key == key
      ensures ProcessOk(t, s.processes[i])
      ensures s.processes[p].key == key ==> PairOk(s.processes[i], q)
    {
      assert ProcessOk(s, s.processes[i]);
      PairEitherWay(s, key, i, p);
    }
    ChangeKeepsKey(s, t, p, key);
  }

  lemma PairEitherWay(s: System, key: Key, i: nat, k: nat)
    requires KeyOk(s, key) && i < |s.processes| && k < |s.processes| && i != k
    ensures s.processes[i].key == key && s.processes[k].key == key ==> PairOk(s.processes[i], s.processes[k])
  {
    if i < k {
      assert s.processes[i].key == key && s.processes[k].key == key ==> PairOk(s.processes[i], s.processes[k]);
    } else {
      assert s.processes[i].key == key && s.processes[k].key == key ==> PairOk(s.processes[k], s.processes[i]);
    }
  }

  /** A claim of any key takes away expired records only, and changes no live one. */
  lemma ClaimPurgesNoLiveRecord(records: Records, key: Key, hash: string, now: nat, k: Key)
    ensures k in Unexpired(records, now) ==>
              k in AfterClaim(records, key, hash, now) && AfterClaim(records, key, hash, now)[k] == records[k]
    ensures k != key && k in AfterClaim(records, key, hash, now) ==>
              k in records && AfterClaim(records, key, hash, now)[k] == records[k]
  {
  }

  lemma ClaimKeepsProcess(s: System, p: nat, i: nat)
    requires At(s, p, Arrived) && i < |s.processes| && i != p && ProcessOk(s, s.processes[i])
    requires s.processes[i].key == s.processes[p].key && Holds(s.processes[i]) ==> Fresh(s, s.processes[i])
    ensures ProcessOk(ClaimStep(s, p), s.processes[i])
  {
    var q, other := s.processes[p], s.processes[i];
    ClaimPurgesNoLiveRecord(s.records, q.key, q.hash, s.clock, other.key);
    assert other.key in s.records ==>
        (s.clock < s.records[other.key].expiresAt <==> other.key in Unexpired(s.records, s.clock));
  }

  lemma ClaimKeepsKey(s: System, p: nat, key: Key)
    requires KeyOk(s, key) && At(s, p, Arrived) && Timely(s, ClaimKey(p), key)
    ensures KeyOk(ClaimStep(s, p), key)
  {
    var t, q := ClaimStep(s, p), s.processes[p];
    forall i | 0 <= i < |s.processes| && i != p && s.processes[i].key == key
      ensures ProcessOk(t, s.processes[i])
      ensures q.key == key ==> PairOk(s.processes[i], t.processes[p])
    {
      assert ProcessOk(s, s.processes[i]);
      ClaimKeepsProcess(s, p, i);
      PairEitherWay(s, key, i, p);
    }
    ChangeKeepsKey(s, t, p, key);
  }

  lemma SettleKeepsKey(s: System, p: nat, key: Key)
    requires KeyOk(s, key) && At(s, p, Responded) && s.processes[p].response.Some?
    ensures KeyOk(SettleStep(s, p), key)
  {
    var t := SettleStep(s, p);
    forall i | 0 <= i < |s.processes| && i != p && s.processes[i].key == key
      ensures ProcessOk(t, s.processes[i])
      ensures s.processes[p].key == key ==> PairOk(s.processes[i], t.processes[p])
    {
      assert ProcessOk(s, s.processes[i]);
      PairEitherWay(s, key, i, p);
    }
    ChangeKeepsKey(s, t, p, key);
  }

  lemma ArriveKeepsKey(s: System, other: Key, hash: string, key: Key)
    requires KeyOk(s, key)
    ensures KeyOk(Apply(s, Arrive(other, hash)), key)
  {
    var t := Apply(s, Arrive(other, hash));
    forall i | 0 <= i < |t.processes| && t.processes[i].key == key
      ensures ProcessOk(t, t.processes[i])
    {
      if i < |s.processes| {
        assert ProcessOk(s, s.processes[i]);
      }
    }
    forall i, k | 0 <= i < k < |t.processes| && t.processes[i].key == key && t.processes[k].key == key
      ensures PairOk(t.processes[i], t.processes[k])
    {
      assert ProcessOk(s, s.processes[i]);
      if k < |s.processes| {
        assert PairOk(s.processes[i], s.processes[k]);
      }
    }
  }

  lemma PassKeepsKey(s: System, seconds: nat, key: Key)
    requires KeyOk(s, key)
    ensures KeyOk(Apply(s, Pass(seconds)), key)
  {
    var t := Apply(s, Pass(seconds));
    forall i | 0 <= i < |t.processes| && t.processes[i].key == key
      ensures ProcessOk(t, t.processes[i])
    {
      assert ProcessOk(s, s.processes[i]);
    }
  }

  lemma StepKeepsKey(s: System, step: Step, key: Key)
    requires KeyOk(s, key) && Timely(s, step, key)
    ensures KeyOk(Apply(s, step), key)
  {
    if Apply(s, step) != s {
      match step
      case Arrive(other, hash) => ArriveKeepsKey(s, other, hash, key);
      case ClaimKey(p) => ClaimKeepsKey(s, p, key);
      case Handle(p, response) =>
        MoveKeepsKey(s, p, s.processes[p].(phase := Responded, response := Some(response)), key);
      case Settle(p) => SettleKeepsKey(s, p, key);
      case Answer(p) => MoveKeepsKey(s, p, s.processes[p].(phase := Finished(s.processes[p].phase.outcome)), key);
      case Die(p) => MoveKeepsKey(s, p, s.processes[p].(phase := Dead), key);
      case Pass(seconds) => PassKeepsKey(s, seconds, key);
    }
  }

  lemma {:induction false} RunsKeepKey(s: System, steps: seq<Step>, key: Key)
    requires Initial(s) && TimelyRun(s, steps, key)
    ensures KeyOk(Run(s, steps), key)
  {
    if steps == [] {
    } else {
      RunsKeepKey(s, steps[..|steps| - 1], key);
      StepKeepsKey(Run(s, steps[..|steps| - 1]), steps[|steps| - 1], key);
    }
  }

  // ---- What it means ----

  /** Under any interleaving at most one request of a key is between claim and completion, and two requests
      that both completed it acquired it at least a day apart. */
  lemma {:induction false} OneHolderPerKey(s0: System, steps: seq<Step>, i: nat, k: nat)
    requires Initial(s0) && i < |Run(s0, steps).processes| && k < |Run(s0, steps).processes| && i != k
    requires Run(s0, steps).processes[i].key == Run(s0, steps).processes[k].key
    requires TimelyRun(s0, steps, Run(s0, steps).processes[i].key)
    ensures var p, q := Run(s0, steps).processes[i], Run(s0, steps).processes[k];
            && !(Holds(p) && Holds(q))
            && (p.stored && Holds(q) ==> q.claimedAt >= p.claimedAt + DAY)
            && (p.stored && q.stored ==> p.claimedAt >= q.claimedAt + DAY || q.claimedAt >= p.claimedAt + DAY)
  {
    var s := Run(s0, steps);
    RunsKeepKey(s0, steps, s.processes[i].key);
    PairEitherWay(s, s.processes[i].key, i, k);
  }

  /** Some other request holds the key. */
  predicate HeldByAnother(s: System, p: nat, key: Key) {
    exists i :: 0 <= i < |s.processes| && i != p && s.processes[i].key == key && Holds(s.processes[i])
  }

  /** A claim creates a second holder if and only if some holder of the key has outlived its own claim. */
  lemma SecondHolderIff(s: System, p: nat)
    requires At(s, p, Arrived) && KeyOk(s, s.processes[p].key)
    ensures var t, key := ClaimStep(s, p), s.processes[p].key;
            Holds(t.processes[p]) && HeldByAnother(t, p, key) <==> StaleHolder(s, key)
  {
    var t, q := ClaimStep(s, p), s.processes[p];
    if Holds(t.processes[p]) && HeldByAnother(t, p, q.key) {
      var i :| 0 <= i < |t.processes| && i != p && t.processes[i].key == q.key && Holds(t.processes[i]);
      assert s.processes[i] == t.processes[i] && ProcessOk(s, s.processes[i]);
    }
    if StaleHolder(s, q.key) {
      var i :| 0 <= i < |s.processes| && s.processes[i].key == q.key && Holds(s.processes[i])
               && !Fresh(s, s.processes[i]);
      assert ProcessOk(s, s.processes[i]) && q.key !in Unexpired(s.records, s.clock);
      assert t.processes[i] == s.processes[i];
    }
  }

  predicate OneHolder(s: System, key: Key) {
    forall i, k :: 0 <= i < k < |s.processes| && s.processes[i].key == key && s.processes[k].key == key ==>
      !(Holds(s.processes[i]) && Holds(s.processes[k]))
  }

  lemma KeyOkHasOneHolder(s: System, key: Key)
    requires KeyOk(s, key)
    ensures OneHolder(s, key)
  {
    forall i, k | 0 <= i < k < |s.processes| && s.processes[i].key == key && s.processes[k].key == key
      ensures !(Holds(s.processes[i]) && Holds(s.processes[k]))
    {
      assert PairOk(s.processes[i], s.processes[k]);
    }
  }

  lemma LateClaimAddsHolder(s: System, step: Step, key: Key)
    requires KeyOk(s, key) && !Timely(s, step, key)
    ensures !OneHolder(Apply(s, step), key)
  {
    var t, p := Apply(s, step), step.p;
    SecondHolderIff(s, p);
    var i :| 0 <= i < |t.processes| && i != p && t.processes[i].key == key && Holds(t.processes[i]);
    if i < p {
      assert Holds(t.processes[i]) && Holds(t.processes[p]);
    } else {
      assert Holds(t.processes[p]) && Holds(t.processes[i]);
    }
  }

  /** At every moment of the run the key has at most one holder. */
  predicate OneHolderThroughout(s0: System, steps: seq<Step>, key: Key) {
    OneHolder(Run(s0, steps), key) && (steps != [] ==> OneHolderThroughout(s0, steps[..|steps| - 1], key))
  }

  /** The condition is exact: a key has at most one holder throughout a run if and only if it is never claimed
      while a holder of it has outlived its own claim. */
  lemma {:induction false} OneHolderIffTimely(s0: System, steps: seq<Step>, key: Key)
    requires Initial(s0)
    ensures OneHolderThroughout(s0, steps, key) <==> TimelyRun(s0, steps, key)
  {
    if steps == [] {
    } else {
      var before, step := steps[..|steps| - 1], steps[|steps| - 1];
      OneHolderIffTimely(s0, before, key);
      if TimelyRun(s0, before, key) {
        RunsKeepKey(s0, before, key);
        if Timely(Run(s0, before), step, key) {
          StepKeepsKey(Run(s0, before), step, key);
          KeyOkHasOneHolder(Run(s0, steps), key);
        } else {
          LateClaimAddsHolder(Run(s0, before), step, key);
        }
      }
    }
  }

  // ---- Completion ----

  /** No claim but one that is rolled back is made while this request has outlived its own. */
  predicate Spared(s: System, step: Step, i: nat) {
    Claims(s, step) && i < |s.processes| && Holds(s.processes[i]) && !Fresh(s, s.processes[i]) ==>
      ClaimOutcome(s.records, s.processes[step.p].key, s.processes[step.p].hash, s.clock).Mismatch?
  }

  predicate SparedRun(s: System, steps: seq<Step>, i: nat) {
    steps == []
    || (SparedRun(s, steps[..|steps| - 1], i) && Spared(Run(s, steps[..|steps| - 1]), steps[|steps| - 1], i))
  }

  predicate CompletionOk(s: System, p: Process) {
    && (Holds(p) ==> CanComplete(s.records, p.key, p.hash))
    && (p.phase.Settled? || p.phase.Finished? ==> p.phase.outcome != Refused(CompletionFailed))
  }

  lemma ClaimKeepsCompletion(s: System, p: nat, i: nat)
    requires At(s, p, Arrived) && i < |s.processes| && Spared(s, ClaimKey(p), i)
    requires ProcessOk(s, s.processes[i]) && CompletionOk(s, s.processes[i])
    ensures CompletionOk(ClaimStep(s, p), ClaimStep(s, p).processes[i])
  {
    var q := s.processes[p];
    if i != p && Holds(s.processes[i]) && Fresh(s, s.processes[i]) {
      ClaimPurgesNoLiveRecord(s.records, q.key, q.hash, s.clock, s.processes[i].key);
      assert s.processes[i].key in Unexpired(s.records, s.clock);
    }
  }

  lemma SettleKeepsCompletion(s: System, p: nat, i: nat)
    requires At(s, p, Responded) && s.processes[p].response.Some? && i < |s.processes|
    requires KeyOk(s, s.processes[i].key) && CompletionOk(s, s.processes[i])
    ensures CompletionOk(SettleStep(s, p), SettleStep(s, p).processes[i])
  {
    if i != p {
      PairEitherWay(s, s.processes[i].key, i, p);
    }
  }

  lemma StepKeepsCompletion(s: System, step: Step, i: nat)
    requires i < |s.processes| && KeyOk(s, s.processes[i].key) && CompletionOk(s, s.processes[i])
    requires Spared(s, step, i)
    ensures i < |Apply(s, step).processes| && Apply(s, step).processes[i].key == s.processes[i].key
    ensures CompletionOk(Apply(s, step), Apply(s, step).processes[i])
  {
    assert ProcessOk(s, s.processes[i]);
    if Apply(s, step) != s {
      match step
      case ClaimKey(p) => ClaimKeepsCompletion(s, p, i);
      case Settle(p) => SettleKeepsCompletion(s, p, i);
      case _ =>
    }
  }

  /** A request that acquired its key completes it, even after its claim has expired, unless its key was
      claimed under a stale holder or some claim was made while it was stale itself. */
  lemma {:induction false} CompletionNeverFails(s0: System, steps: seq<Step>, i: nat)
    requires Initial(s0) && i < |Run(s0, steps).processes|
    requires TimelyRun(s0, steps, Run(s0, steps).processes[i].key) && SparedRun(s0, steps, i)
    ensures CompletionOk(Run(s0, steps), Run(s0, steps).processes[i])
  {
    if steps == [] {
    } else {
      var before, step := Run(s0, steps[..|steps| - 1]), steps[|steps| - 1];
      if i < |before.processes| {
        assert Run(s0, steps).processes[i].key == before.processes[i].key;
        RunsKeepKey(s0, steps[..|steps| - 1], before.processes[i].key);
        CompletionNeverFails(s0, steps[..|steps| - 1], i);
        StepKeepsCompletion(before, step, i);
      }
    }
  }

  /** The second condition is exact too: a claim leaves a holder its record, and its key no other holder, if
      and only if the holder's claim has not expired or the new one is rolled back. */
  lemma ClaimIsSafeIff(s: System, p: nat, i: nat)
    requires At(s, p, Arrived) && i < |s.processes| && KeyOk(s, s.processes[i].key)
    requires Holds(s.processes[i]) && CompletionOk(s, s.processes[i])
    ensures var t := ClaimStep(s, p);
            CompletionOk(t, t.processes[i]) && !(Holds(t.processes[p]) && t.processes[p].key == t.processes[i].key) <==>
                Spared(s, ClaimKey(p), i)
  {
    var q := s.processes[p];
    assert ProcessOk(s, s.processes[i]);
    ClaimPurgesNoLiveRecord(s.records, q.key, q.hash, s.clock, s.processes[i].key);
    assert s.processes[i].key in Unexpired(s.records, s.clock) <==> Fresh(s, s.processes[i]);
  }

  // ---- A completed key ----

  predicate CompletedAs(s: System, key: Key, record: Record) {
    key in s.records && s.records[key] == record && record.response.Some?
  }

  predicate NoHolder(s: System, key: Key) {
    forall i :: 0 <= i < |s.processes| && s.processes[i].key == key ==> !Holds(s.processes[i])
  }

  lemma StepStaysCompleted(s: System, step: Step, key: Key, record: Record)
    requires CompletedAs(s, key, record) && NoHolder(s, key) && s.clock < record.expiresAt
    ensures CompletedAs(Apply(s, step), key, record) && NoHolder(Apply(s, step), key)
  {
    match step
    case ClaimKey(p) =>
      if At(s, p, Arrived) {
        ClaimPurgesNoLiveRecord(s.records, s.processes[p].key, s.processes[p].hash, s.clock, key);
        assert key in Unexpired(s.records, s.clock);
      }
    case _ =>
  }

  lemma {:induction false} CompletedStays(s: System, more: seq<Step>, key: Key, record: Record)
    requires CompletedAs(s, key, record) && NoHolder(s, key) && Run(s, more).clock < record.expiresAt
    ensures CompletedAs(Run(s, more), key, record) && NoHolder(Run(s, more), key)
  {
    if more == [] {
    } else {
      var n := |more| - 1;
      var before := Run(s, more[..n]);
      assert before.clock <= Apply(before, more[n]).clock;
      CompletedStays(s, more[..n], key, record);
      StepStaysCompleted(before, more[n], key, record);
    }
  }

  /** Once a key is completed and until its record expires, the record never changes and no request of the
      key runs its handler again, whatever happens to other keys and whoever claims this one. */
  lemma {:induction false} CompletedKeyIsNeverHandledAgain(s0: System, steps: seq<Step>, more: seq<Step>, key: Key,
                                                           record: Record)
    requires Initial(s0) && TimelyRun(s0, steps, key) && CompletedAs(Run(s0, steps), key, record)
    requires Run(Run(s0, steps), more).clock < record.expiresAt
    ensures var t := Run(Run(s0, steps), more);
            CompletedAs(t, key, record) && NoHolder(t, key)
  {
    RunsKeepKey(s0, steps, key);
    CompletedHasNoHolder(Run(s0, steps), key, record);
    CompletedStays(Run(s0, steps), more, key, record);
  }

  lemma CompletedHasNoHolder(s: System, key: Key, record: Record)
    requires KeyOk(s, key) && CompletedAs(s, key, record)
    ensures NoHolder(s, key)
  {
  }

  // ---- What happens past an expiry ----

  function Overlap(key: Key, hash: string): seq<Step> {
    [Arrive(key, hash), Arrive(key, hash), ClaimKey(0), Pass(DAY), ClaimKey(1)]
  }

  /** Such a run: a handler that outlives its claim shares its key with the next request, and its late
      removal then deletes that request's claim. */
  lemma ExpiryAdmitsASecondHandler(key: Key, hash: string, failure: Response)
    requires |failure.body| <= MAX_REPLAY_BODY_BYTES && failure.IsServerError()
    ensures var s := Run(System(map[], [], 0), Overlap(key, hash));
            && |s.processes| == 2 && s.processes[0].key == s.processes[1].key == key
            && Holds(s.processes[0]) && Holds(s.processes[1])
            && var t := Apply(Apply(s, Handle(0, failure)), Settle(0));
               Holds(t.processes[1]) && key !in t.records
  {
    OverlapRuns(key, hash);
    LateRemoval(key, hash, failure);
  }

  /** The two requests of that run: the first one's claim has expired, the second one's is new. */
  function Overlapping(key: Key, hash: string): System {
    var held := Process(key, hash, Handling, 0, None, false);
    System(map[key := Record(hash, None, DAY + DAY)], [held, held.(claimedAt := DAY)], DAY)
  }

  lemma LateRemoval(key: Key, hash: string, failure: Response)
    requires |failure.body| <= MAX_REPLAY_BODY_BYTES && failure.IsServerError()
    ensures var t := Apply(Apply(Overlapping(key, hash), Handle(0, failure)), Settle(0));
            |t.processes| == 2 && Holds(t.processes[1]) && key !in t.records
  {
  }

  /** Both have arrived; the first one holds the key once `first` says so. */
  function Waiting(key: Key, hash: string, records: Records, first: Phase, clock: nat): System {
    var p := Process(key, hash, Arrived, 0, None, false);
    System(records, [p.(phase := first), p], clock)
  }

  lemma FirstClaim(key: Key, hash: string)
    ensures Apply(Waiting(key, hash, map[], Arrived, 0), ClaimKey(0))
         == Waiting(key, hash, map[key := Record(hash, None, DAY)], Handling, 0)
  {
  }

  lemma SecondClaim(key: Key, hash: string)
    ensures Apply(Waiting(key, hash, map[key := Record(hash, None, DAY)], Handling, DAY), ClaimKey(1))
         == Overlapping(key, hash)
  {
    assert Unexpired(map[key := Record(hash, None, DAY)], DAY) == map[];
  }

  lemma OverlapRuns(key: Key, hash: string)
    ensures Run(System(map[], [], 0), Overlap(key, hash)) == Overlapping(key, hash)
  {
    var s0, p := System(map[], [], 0), Process(key, hash, Arrived, 0, None, false);
    var arrive, open := Arrive(key, hash), map[key := Record(hash, None, DAY)];
    RunNext(s0, [], s0, arrive, System(map[], [p], 0));
    RunNext(s0, [] + [arrive], System(map[], [p], 0), arrive, Waiting(key, hash, map[], Arrived, 0));
    var steps := [] + [arrive] + [arrive];
    FirstClaim(key, hash);
    RunNext(s0, steps, Waiting(key, hash, map[], Arrived, 0), ClaimKey(0), Waiting(key, hash, open, Handling, 0));
    steps := steps + [ClaimKey(0)];
    RunNext(s0, steps, Waiting(key, hash, open, Handling, 0), Pass(DAY), Waiting(key, hash, open, Handling, DAY));
    steps := steps + [Pass(DAY)];
    SecondClaim(key, hash);
    RunNext(s0, steps, Waiting(key, hash, open, Handling, DAY), ClaimKey(1), Overlapping(key, hash));
    assert steps + [ClaimKey(1)] == Overlap(key, hash);
  }

  lemma {:induction false} RunNext(s0: System, steps: seq<Step>, s: System, step: Step, t: System)
    requires Run(s0, steps) == s && Apply(s, step) == t
    ensures Run(s0, steps + [step]) == t
  {
  }
}

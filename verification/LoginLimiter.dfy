/**
 * The throttle in front of the LAN password (crates/service/src/auth.rs). Times are clock ticks since
 * an arbitrary origin. A login reads the clock when it starts and, if its password is wrong, once more
 * when it records the failure.
 */
module LoginLimiter {
  const MINUTE: int := 60_000_000_000
  const MAX_FAILURES := 5

  /** What the part between the two clock readings found. */
  datatype Verdict = Unreadable | Wrong | Right

  datatype Login = Login(start: int, decided: int, verdict: Verdict)

  datatype Reply = RateLimited | Unavailable | Unauthorized | Accepted

  // ---------- the limiter's rule ----------

  /** How many leading failures are older than the cutoff. */
  function Leading(failures: seq<int>, cutoff: int): (k: nat)
    ensures k <= |failures|
    ensures forall i :: 0 <= i < k ==> failures[i] < cutoff
    ensures k < |failures| ==> failures[k] >= cutoff
  {
    if failures != [] && failures[0] < cutoff then 1 + Leading(failures[1..], cutoff) else 0
  }

  /** The queue without its leading failures older than the cutoff. */
  function Expire(failures: seq<int>, cutoff: int): seq<int> {
    failures[Leading(failures, cutoff)..]
  }

  /** What follows once the throttle has answered. */
  function Decide(throttled: bool, failures: seq<int>, login: Login): (Reply, seq<int>) {
    if throttled then (RateLimited, failures)
    else match login.verdict
      case Unreadable => (Unavailable, failures)
      case Wrong => (Unauthorized, failures + [login.decided])
      case Right => (Accepted, [])
  }

  /** One login against the queue the service keeps. */
  function Attempt(queue: seq<int>, login: Login): (Reply, seq<int>) {
    var left := Expire(queue, login.start - MINUTE);
    Decide(|left| >= MAX_FAILURES, left, login)
  }

  class Limiter {
    /** Oldest first, as a double-ended queue. */
    var failures: seq<int>

    constructor ()
      ensures failures == []
    {
      failures := [];
    }

    method EnforceThrottle(now: int) returns (throttled: bool)
      modifies this
      ensures failures == Expire(old(failures), now - MINUTE)
      ensures throttled == (|failures| >= MAX_FAILURES)
    {
      var cutoff := now - MINUTE;
      ghost var popped: nat := 0;
      while failures != [] && failures[0] < cutoff
        invariant popped <= Leading(old(failures), cutoff) && failures == old(failures)[popped..]
        decreases |failures|
      {
        failures := failures[1..];
        popped := popped + 1;
      }
      throttled := |failures| >= MAX_FAILURES;
    }

    method LoginWithPassword(login: Login) returns (reply: Reply)
      modifies this
      ensures (reply, failures) == Attempt(old(failures), login)
    {
      var throttled := EnforceThrottle(login.start);
      if throttled {
        return RateLimited;
      }
      match login.verdict {
        case Unreadable =>
          return Unavailable;
        case Wrong =>
          failures := failures + [login.decided];
          return Unauthorized;
        case Right =>
          failures := [];
          return Accepted;
      }
    }
  }

  // ---------- a reference that forgets nothing ----------

  /** How many of the failures are no older than the cutoff. */
  function CountSince(failures: seq<int>, cutoff: int): nat {
    if failures == [] then 0
    else (if failures[0] >= cutoff then 1 else 0) + CountSince(failures[1..], cutoff)
  }

  /** One login against every failure since the last success. */
  function ReferenceAttempt(history: seq<int>, login: Login): (Reply, seq<int>) {
    Decide(CountSince(history, login.start - MINUTE) >= MAX_FAILURES, history, login)
  }

  // ---------- runs ----------

  type Machine = (seq<int>, Login) -> (Reply, seq<int>)

  function Replies(machine: Machine, failures: seq<int>, logins: seq<Login>): (r: seq<Reply>)
    ensures |r| == |logins|
    decreases |logins|
  {
    if logins == [] then []
    else
      var (reply, next) := machine(failures, logins[0]);
      [reply] + Replies(machine, next, logins[1..])
  }

  function After(machine: Machine, failures: seq<int>, logins: seq<Login>): seq<int>
    decreases |logins|
  {
    if logins == [] then failures else After(machine, machine(failures, logins[0]).1, logins[1..])
  }

  /** What the clock read when the last login was decided. */
  function Clock(now: int, logins: seq<Login>): int {
    if logins == [] then now else logins[|logins| - 1].decided
  }

  /** One login at a time, under a clock that reads at least `now` and never runs backwards. */
  predicate Serial(now: int, logins: seq<Login>)
    decreases |logins|
  {
    logins == [] || (now <= logins[0].start <= logins[0].decided && Serial(logins[0].decided, logins[1..]))
  }

  predicate Sorted(failures: seq<int>) {
    forall i, j :: 0 <= i < j < |failures| ==> failures[i] <= failures[j]
  }

  /** In order, none later than `now`. */
  predicate UpTo(failures: seq<int>, now: int) {
    Sorted(failures) && forall i :: 0 <= i < |failures| ==> failures[i] <= now
  }

  /** Any six in a row span more than a minute. */
  predicate Spread(failures: seq<int>) {
    forall i :: 0 <= i && i + 5 < |failures| ==> failures[i + 5] - failures[i] > 60_000_000_000
  }

  /** The queue is the history without some failures that no later login can count. */
  predicate Forgets(queue: seq<int>, history: seq<int>, now: int) {
    && |queue| <= |history|
    && queue == history[|history| - |queue|..]
    && forall i :: 0 <= i < |history| - |queue| ==> history[i] < now - MINUTE
  }

  /** The times of the failures recorded in a stretch of a run. */
  function Recorded(logins: seq<Login>, replies: seq<Reply>): seq<int>
    requires |logins| == |replies|
  {
    if logins == [] then []
    else
      (if replies[0].Unauthorized? then [logins[0].decided] else []) + Recorded(logins[1..], replies[1..])
  }

  // ---------- the queue answers like the reference ----------

  lemma {:induction false} AllCounted(failures: seq<int>, cutoff: int)
    requires forall i :: 0 <= i < |failures| ==> failures[i] >= cutoff
    ensures CountSince(failures, cutoff) == |failures|
  {
    if failures == [] {
    } else {
      AllCounted(failures[1..], cutoff);
    }
  }

  lemma {:induction false} LeadingIsUncounted(failures: seq<int>, cutoff: int)
    requires Sorted(failures)
    ensures CountSince(failures, cutoff) == |failures| - Leading(failures, cutoff)
  {
    if failures == [] {
    } else {
      if failures[0] >= cutoff {
        AllCounted(failures, cutoff);
      } else {
        LeadingIsUncounted(failures[1..], cutoff);
      }
    }
  }

  lemma {:induction false} OldOnesDoNotCount(failures: seq<int>, dropped: nat, cutoff: int)
    requires dropped <= |failures|
    requires forall i :: 0 <= i < dropped ==> failures[i] < cutoff
    ensures CountSince(failures[dropped..], cutoff) == CountSince(failures, cutoff)
  {
    if dropped == 0 {
      assert failures[dropped..] == failures;
    } else {
      OldOnesDoNotCount(failures[1..], dropped - 1, cutoff);
      assert failures[1..][dropped - 1..] == failures[dropped..];
    }
  }

  lemma ExpiringForgets(queue: seq<int>, history: seq<int>, now: int, start: int)
    requires UpTo(history, now) && Forgets(queue, history, now) && now <= start
    ensures Forgets(Expire(queue, start - MINUTE), history, start)
    ensures |Expire(queue, start - MINUTE)| == CountSince(history, start - MINUTE)
  {
    var cutoff := start - MINUTE;
    var dropped := |history| - |queue|;
    OldOnesDoNotCount(history, dropped, cutoff);
    LeadingIsUncounted(queue, cutoff);
    assert Expire(queue, cutoff) == history[dropped + Leading(queue, cutoff)..];
    forall i | dropped <= i < dropped + Leading(queue, cutoff)
      ensures history[i] < cutoff
    {
      assert history[i] == queue[i - dropped];
    }
  }

  lemma DecidingForgets(throttled: bool, queue: seq<int>, history: seq<int>, login: Login)
    requires UpTo(history, login.start) && Forgets(queue, history, login.start)
    requires login.start <= login.decided
    ensures UpTo(Decide(throttled, history, login).1, login.decided)
    ensures Forgets(Decide(throttled, queue, login).1, Decide(throttled, history, login).1, login.decided)
  {
  }

  lemma {:induction false} AttemptsDecideAlike(queue: seq<int>, history: seq<int>, login: Login, left: seq<int>,
                                               throttled: bool)
    requires left == Expire(queue, login.start - MINUTE)
    requires throttled == (|left| >= MAX_FAILURES) && |left| == CountSince(history, login.start - MINUTE)
    ensures Attempt(queue, login) == Decide(throttled, left, login)
    ensures ReferenceAttempt(history, login) == Decide(throttled, history, login)
  {
  }

  lemma SameReply(throttled: bool, queue: seq<int>, history: seq<int>, login: Login)
    ensures Decide(throttled, queue, login).0 == Decide(throttled, history, login).0
  {
  }

  lemma StepAgrees(queue: seq<int>, history: seq<int>, now: int, login: Login)
    requires UpTo(history, now) && Forgets(queue, history, now)
    requires now <= login.start <= login.decided
    ensures Attempt(queue, login).0 == ReferenceAttempt(history, login).0
    ensures UpTo(ReferenceAttempt(history, login).1, login.decided)
    ensures Forgets(Attempt(queue, login).1, ReferenceAttempt(history, login).1, login.decided)
  {
    ExpiringForgets(queue, history, now, login.start);
    var left := Expire(queue, login.start - MINUTE);
    var throttled := |left| >= MAX_FAILURES;
    AttemptsDecideAlike(queue, history, login, left, throttled);
    SameReply(throttled, left, history, login);
    DecidingForgets(throttled, left, history, login);
  }

  lemma {:induction false} RepliesAgree(queue: seq<int>, history: seq<int>, now: int, logins: seq<Login>)
    requires UpTo(history, now) && Forgets(queue, history, now)
    requires Serial(now, logins)
    ensures Replies(Attempt, queue, logins) == Replies(ReferenceAttempt, history, logins)
    decreases |logins|
  {
    if logins == [] {
    } else {
      StepAgrees(queue, history, now, logins[0]);
      RepliesAgree(Attempt(queue, logins[0]).1, ReferenceAttempt(history, logins[0]).1, logins[0].decided, logins[1..]);
    }
  }

  /** Dropping old failures changes no answer: over every serial run from a fresh service the queue
      replies exactly as if every failure since the last success were kept and counted. */
  lemma {:induction false} QueueAnswersLikeFullHistory(now: int, logins: seq<Login>)
    requires Serial(now, logins)
    ensures Replies(Attempt, [], logins) == Replies(ReferenceAttempt, [], logins)
  {
    RepliesAgree([], [], now, logins);
  }

  // ---------- six failures take more than a minute ----------

  /** Refused exactly when the fifth newest failure is no more than a minute old. */
  lemma RefusedIffFifthNewestIsRecent(history: seq<int>, login: Login)
    requires Sorted(history)
    ensures ReferenceAttempt(history, login).0.RateLimited?
         <==> |history| >= 5 && history[|history| - 5] >= login.start - 60_000_000_000
  {
    LeadingIsUncounted(history, login.start - MINUTE);
  }

  lemma StepKeepsSpread(history: seq<int>, now: int, login: Login)
    requires UpTo(history, now) && Spread(history)
    requires now <= login.start <= login.decided
    ensures UpTo(ReferenceAttempt(history, login).1, login.decided)
    ensures Spread(ReferenceAttempt(history, login).1)
  {
    RefusedIffFifthNewestIsRecent(history, login);
  }

  lemma {:induction false} RecordedStep(history: seq<int>, logins: seq<Login>, replies: seq<Reply>)
    requires |logins| == |replies| > 0
    requires replies[0] == ReferenceAttempt(history, logins[0]).0 && !replies[0].Accepted?
    ensures history + Recorded(logins, replies)
         == ReferenceAttempt(history, logins[0]).1 + Recorded(logins[1..], replies[1..])
  {
    var recorded := if replies[0].Unauthorized? then [logins[0].decided] else [];
    assert ReferenceAttempt(history, logins[0]).1 == history + recorded;
    Regroup(history, recorded, Recorded(logins[1..], replies[1..]));
  }

  /** While no login succeeds the limiter's memory grows by exactly the recorded failures. */
  lemma {:induction false} MemoryIsRecorded(history: seq<int>, logins: seq<Login>)
    requires Accepted !in Replies(ReferenceAttempt, history, logins)
    ensures After(ReferenceAttempt, history, logins)
         == history + Recorded(logins, Replies(ReferenceAttempt, history, logins))
    decreases |logins|
  {
    if logins == [] {
      assert history + [] == history;
    } else {
      var (reply, next) := ReferenceAttempt(history, logins[0]);
      var rest, replies := Replies(ReferenceAttempt, next, logins[1..]), Replies(ReferenceAttempt, history, logins);
      assert replies == [reply] + rest;
      assert replies[0] in replies && forall r :: r in rest ==> r in replies;
      MemoryIsRecorded(next, logins[1..]);
      RecordedStep(history, logins, replies);
    }
  }

  lemma Regroup(a: seq<int>, b: seq<int>, c: seq<int>)
    ensures a + (b + c) == a + b + c
  {
  }

  lemma {:induction false} OpeningIsSpread(history: seq<int>, now: int, logins: seq<Login>)
    requires UpTo(history, now) && Spread(history)
    requires Serial(now, logins)
    requires Accepted !in Replies(ReferenceAttempt, history, logins)
    ensures Spread(history + Recorded(logins, Replies(ReferenceAttempt, history, logins)))
    decreases |logins|
  {
    if logins == [] {
      assert history + [] == history;
    } else {
      var (reply, next) := ReferenceAttempt(history, logins[0]);
      var rest := Replies(ReferenceAttempt, next, logins[1..]);
      var replies := Replies(ReferenceAttempt, history, logins);
      assert replies == [reply] + rest;
      assert replies[0] in replies && forall r :: r in rest ==> r in replies;
      StepKeepsSpread(history, now, logins[0]);
      OpeningIsSpread(next, logins[0].decided, logins[1..]);
      RecordedStep(history, logins, replies);
    }
  }

  lemma {:induction false} PrefixReplies(machine: Machine, failures: seq<int>, logins: seq<Login>, j: nat)
    requires j <= |logins|
    ensures Replies(machine, failures, logins)[..j] == Replies(machine, failures, logins[..j])
    decreases j
  {
    if j == 0 {
    } else {
      var (reply, next) := machine(failures, logins[0]);
      PrefixReplies(machine, next, logins[1..], j - 1);
      assert logins[..j][1..] == logins[1..][..j - 1];
      assert Replies(machine, failures, logins) == [reply] + Replies(machine, next, logins[1..]);
    }
  }

  lemma {:induction false} PrefixIsSerial(now: int, logins: seq<Login>, j: nat)
    requires Serial(now, logins) && j <= |logins|
    ensures Serial(now, logins[..j])
    decreases j
  {
    if j == 0 {
    } else {
      PrefixIsSerial(logins[0].decided, logins[1..], j - 1);
      assert logins[..j][1..] == logins[1..][..j - 1];
    }
  }

  lemma {:induction false} StretchIsSpread(history: seq<int>, now: int, logins: seq<Login>, i: nat)
    requires UpTo(history, now) && Spread(history)
    requires Serial(now, logins) && i <= |logins|
    requires Accepted !in Replies(ReferenceAttempt, history, logins)[i..]
    ensures Spread(Recorded(logins[i..], Replies(ReferenceAttempt, history, logins)[i..]))
    decreases |logins|
  {
    var replies := Replies(ReferenceAttempt, history, logins);
    if i == 0 {
      assert replies[0..] == replies && logins[0..] == logins;
      OpeningIsSpread(history, now, logins);
      SpreadSuffix(history, Recorded(logins, replies));
    } else {
      var (reply, next) := ReferenceAttempt(history, logins[0]);
      StepKeepsSpread(history, now, logins[0]);
      assert replies[i..] == Replies(ReferenceAttempt, next, logins[1..])[i - 1..];
      assert logins[i..] == logins[1..][i - 1..];
      StretchIsSpread(next, logins[0].decided, logins[1..], i - 1);
    }
  }

  lemma SpreadSuffix(before: seq<int>, after: seq<int>)
    requires Spread(before + after)
    ensures Spread(after)
  {
    forall i | 0 <= i && i + 5 < |after|
      ensures after[i + 5] - after[i] > 60_000_000_000
    {
      var all := before + after;
      assert all[|before| + i + 5] - all[|before| + i] > 60_000_000_000;
    }
  }

  /** In any stretch of a serial run in which no login succeeds, any six recorded failures span more
      than a minute. */
  lemma {:induction false} SixFailuresSpanAMinute(now: int, logins: seq<Login>, i: nat, j: nat)
    requires Serial(now, logins) && i <= j <= |logins|
    requires Accepted !in Replies(Attempt, [], logins)[i..j]
    ensures Spread(Recorded(logins[i..j], Replies(Attempt, [], logins)[i..j]))
  {
    QueueAnswersLikeFullHistory(now, logins);
    PrefixReplies(ReferenceAttempt, [], logins, j);
    PrefixIsSerial(now, logins, j);
    assert logins[..j][i..] == logins[i..j];
    var replies := Replies(ReferenceAttempt, [], logins);
    assert replies[..j][i..] == replies[i..j];
    StretchIsSpread([], now, logins[..j], i);
  }

  // ---------- and a refusal lasts no longer than the reply says ----------

  lemma {:induction false} QueueStaysInOrder(queue: seq<int>, now: int, logins: seq<Login>)
    requires UpTo(queue, now) && Serial(now, logins)
    ensures UpTo(After(Attempt, queue, logins), Clock(now, logins))
    ensures Clock(now, logins) >= now
    decreases |logins|
  {
    if logins == [] {
    } else {
      QueueStaysInOrder(Attempt(queue, logins[0]).1, logins[0].decided, logins[1..]);
    }
  }

  /** After any serial run, a login that starts more than a minute after the last one is let through to
      the password check. */
  lemma {:induction false} RetryAfterAMinute(now: int, logins: seq<Login>, login: Login)
    requires Serial(now, logins)
    requires login.start - Clock(now, logins) > 60_000_000_000
    ensures !Attempt(After(Attempt, [], logins), login).0.RateLimited?
  {
    QueueStaysInOrder([], now, logins);
  }

  // ---------- several logins at once ----------

  /** The limiter between its two locks: `inFlight` logins have passed the throttle and are not yet decided.
      `history` is every failure since the last success. */
  datatype Shared = Shared(queue: seq<int>, history: seq<int>, inFlight: nat, clock: int)

  datatype Event = Begin(now: int) | Finish(now: int, verdict: Verdict)

  function Next(s: Shared, e: Event): Shared {
    match e
    case Begin(now) =>
      var left := Expire(s.queue, now - MINUTE);
      s.(queue := left, clock := now, inFlight := if |left| >= MAX_FAILURES then s.inFlight else s.inFlight + 1)
    case Finish(now, verdict) =>
      if s.inFlight == 0 then s.(clock := now)
      else
        var decided := s.(clock := now, inFlight := s.inFlight - 1);
        match verdict
        case Unreadable => decided
        case Wrong => decided.(queue := s.queue + [now], history := s.history + [now])
        case Right => decided.(queue := [], history := [])
  }

  /** A login that nothing interleaves with is one throttle and one decision. */
  lemma AloneIsOneAttempt(s: Shared, login: Login)
    requires s.inFlight == 0
    ensures var begun := Next(s, Begin(login.start));
            var (reply, queue) := Attempt(s.queue, login);
            if begun.inFlight == 0 then reply.RateLimited? && begun.queue == queue && begun.history == s.history
            else
              var done := Next(begun, Finish(login.decided, login.verdict));
              && !reply.RateLimited? && done.queue == queue && done.inFlight == 0
              && done.history == Decide(false, s.history, login).1
  {
  }

  function AfterEvents(s: Shared, events: seq<Event>): Shared {
    if events == [] then s else Next(AfterEvents(s, events[..|events| - 1]), events[|events| - 1])
  }

  /** The clock does not run backwards, and never more than `n` logins are in flight. */
  predicate AtMost(n: nat, s: Shared, events: seq<Event>) {
    events == []
    || (&& AtMost(n, s, events[..|events| - 1])
        && AfterEvents(s, events[..|events| - 1]).clock <= events[|events| - 1].now
        && AfterEvents(s, events).inFlight <= n)
  }

  /** Recorded failures of the last minute and logins in flight are never more than `4 + n` together. */
  predicate FewRecent(n: nat, history: seq<int>, inFlight: nat, clock: int) {
    forall i :: 0 <= i < |history| && history[i] >= clock - MINUTE ==> |history| - i + inFlight <= MAX_FAILURES - 1 + n
  }

  /** Any `5 + n` in a row span more than a minute. */
  predicate SpreadBy(n: nat, history: seq<int>) {
    forall i :: 0 <= i && i + MAX_FAILURES - 1 + n < |history| ==>
        history[i + MAX_FAILURES - 1 + n] - history[i] > MINUTE
  }

  predicate Bounded(n: nat, s: Shared) {
    && UpTo(s.history, s.clock) && Forgets(s.queue, s.history, s.clock)
    && FewRecent(n, s.history, s.inFlight, s.clock)
    && SpreadBy(n, s.history)
  }

  lemma BeginStaysBounded(n: nat, s: Shared, now: int)
    requires Bounded(n, s) && s.clock <= now && Next(s, Begin(now)).inFlight <= n
    ensures Bounded(n, Next(s, Begin(now)))
  {
  }

  lemma FailureStaysBounded(n: nat, s: Shared, now: int)
    requires Bounded(n, s) && s.clock <= now && 0 < s.inFlight <= n
    ensures Bounded(n, Next(s, Finish(now, Wrong)))
  {
    var longer := s.history + [now];
    forall i | 0 <= i && i + MAX_FAILURES - 1 + n < |longer|
      ensures longer[i + MAX_FAILURES - 1 + n] - longer[i] > MINUTE
    {
      if i + MAX_FAILURES - 1 + n == |s.history| {
        assert s.history[i] < s.clock - MINUTE || |s.history| - i + s.inFlight <= MAX_FAILURES - 1 + n;
      }
    }
  }

  lemma FinishStaysBounded(n: nat, s: Shared, now: int, verdict: Verdict)
    requires Bounded(n, s) && s.clock <= now && s.inFlight <= n
    ensures Bounded(n, Next(s, Finish(now, verdict)))
  {
    if s.inFlight > 0 && verdict.Wrong? {
      FailureStaysBounded(n, s, now);
    }
  }

  lemma {:induction false} RunsStayBounded(n: nat, s: Shared, events: seq<Event>)
    requires Bounded(n, s) && s.inFlight <= n && AtMost(n, s, events)
    ensures Bounded(n, AfterEvents(s, events)) && AfterEvents(s, events).inFlight <= n
  {
    if events == [] {
    } else {
      var before, e := AfterEvents(s, events[..|events| - 1]), events[|events| - 1];
      RunsStayBounded(n, s, events[..|events| - 1]);
      match e
      case Begin(now) => BeginStaysBounded(n, before, now);
      case Finish(now, verdict) => FinishStaysBounded(n, before, now, verdict);
    }
  }

  /** With at most `n` logins between throttle and decision at once, any `5 + n` failures without a success
      among them span more than a minute. */
  lemma {:induction false} ConcurrentFailuresSpanAMinute(n: nat, start: int, events: seq<Event>, i: nat)
    requires AtMost(n, Shared([], [], 0, start), events)
    requires i + 4 + n < |AfterEvents(Shared([], [], 0, start), events).history|
    ensures var failures := AfterEvents(Shared([], [], 0, start), events).history;
            failures[i + 4 + n] - failures[i] > 60_000_000_000
  {
    RunsStayBounded(n, Shared([], [], 0, start), events);
  }
}

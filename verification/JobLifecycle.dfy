/** The lifecycle record of a job: its state and the three time stamps that a transition sets. */
module JobLifecycle {
  import opened Wrappers
  import opened Accounting

  datatype Record = Record(state: JobState, startedAt: Option<nat>, finishedAt: Option<nat>, updatedAt: nat)

  /** One requested move. A retry clears the finish stamp after its move back to the queue. */
  datatype Move = Move(next: JobState, now: nat, clearsFinish: bool)

  function Moved(r: Record, m: Move): Record {
    if !r.state.CanTransitionTo(m.next) then r
    else Record(m.next,
                if m.next.Running? && r.startedAt.None? then Some(m.now) else r.startedAt,
                if m.clearsFinish then None else if m.next.IsTerminal() then Some(m.now) else r.finishedAt,
                m.now)
  }

  /** The moves a job may make, one by one. */
  const EDGES: set<(JobState, JobState)> := {
    (Queued, Running), (Queued, Cancelling), (Queued, Cancelled), (Queued, Failed),
    (Running, Pausing), (Running, Cancelling), (Running, Failed), (Running, Completed),
    (Pausing, Paused), (Pausing, Cancelling), (Pausing, Failed),
    (Paused, Queued), (Paused, Running), (Paused, Cancelling), (Paused, Cancelled),
    (Cancelling, Cancelled), (Cancelling, Failed),
    (Failed, Queued)}

  lemma EdgesAreExact(state: JobState, next: JobState)
    ensures state.CanTransitionTo(next) <==> (state, next) in EDGES
    ensures state.IsTerminal() <==> forall other :: (state, other) in EDGES ==> state == Failed && other == Queued
  {
    assert (Queued, Running) in EDGES && (Running, Completed) in EDGES && (Pausing, Paused) in EDGES;
    assert (Paused, Queued) in EDGES && (Cancelling, Cancelled) in EDGES;
  }

  class LifecycleJob {
    var state: JobState
    var startedAt: Option<nat>
    var finishedAt: Option<nat>
    var updatedAt: nat

    function Snapshot(): Record
      reads this
    {
      Record(state, startedAt, finishedAt, updatedAt)
    }

    constructor (now: nat)
      ensures Snapshot() == Created(now)
    {
      state := Queued;
      startedAt := None;
      finishedAt := None;
      updatedAt := now;
    }

    method Transition(next: JobState, now: nat) returns (ok: bool)
      modifies this
      ensures ok == old(state).CanTransitionTo(next)
      ensures Snapshot() == Moved(old(Snapshot()), Move(next, now, false))
    {
      if !state.CanTransitionTo(next) {
        return false;
      }
      if next.Running? && startedAt.None? {
        startedAt := Some(now);
      }
      if next.IsTerminal() {
        finishedAt := Some(now);
      }
      state := next;
      updatedAt := now;
      return true;
    }

    /** What retry admission does to the record of a failed job. */
    method Requeue(now: nat) returns (ok: bool)
      modifies this
      ensures ok == old(state).CanTransitionTo(Queued)
      ensures Snapshot() == Moved(old(Snapshot()), Move(Queued, now, true))
    {
      ok := Transition(Queued, now);
      if ok {
        finishedAt := None;
      }
    }
  }

  function Created(now: nat): Record {
    Record(Queued, None, None, now)
  }

  function Replay(r: Record, moves: seq<Move>): Record {
    if moves == [] then r else Moved(Replay(r, moves[..|moves| - 1]), moves[|moves| - 1])
  }

  // ---- The stamps, read off the history instead ----

  /** The moves of a history that took effect, in order. */
  function Effective(r: Record, moves: seq<Move>): seq<Move> {
    if moves == [] then []
    else
      var earlier, last := moves[..|moves| - 1], moves[|moves| - 1];
      Effective(r, earlier) + (if Replay(r, earlier).state.CanTransitionTo(last.next) then [last] else [])
  }

  function FirstRun(moves: seq<Move>): Option<nat> {
    if moves == [] then None else if moves[0].next.Running? then Some(moves[0].now) else FirstRun(moves[1..])
  }

  /** The time of the last terminal move, unless a later move cleared it. */
  function LastFinish(moves: seq<Move>): Option<nat> {
    if moves == [] then None
    else
      var last := moves[|moves| - 1];
      if last.clearsFinish then None
      else if last.next.IsTerminal() then Some(last.now)
      else LastFinish(moves[..|moves| - 1])
  }

  lemma {:induction false} FirstRunAppend(moves: seq<Move>, m: Move)
    ensures FirstRun(moves + [m]) == if FirstRun(moves).Some? then FirstRun(moves)
                                     else if m.next.Running? then Some(m.now) else None
  {
    if moves == [] {
      assert [m][1..] == [];
    } else {
      assert (moves + [m])[1..] == moves[1..] + [m];
      FirstRunAppend(moves[1..], m);
    }
  }

  /** In every history of a new job the start stamp is the first effective start, the finish stamp the
      last effective finish not cleared since, and the state and update stamp those of the last
      effective move. */
  lemma {:induction false} StampsFollowHistory(created: nat, moves: seq<Move>)
    ensures var r := Replay(Created(created), moves);
            var effective := Effective(Created(created), moves);
            && r.startedAt == FirstRun(effective)
            && r.finishedAt == LastFinish(effective)
            && r.state == (if effective == [] then Queued else effective[|effective| - 1].next)
            && r.updatedAt == (if effective == [] then created else effective[|effective| - 1].now)
  {
    if moves == [] {
    } else {
      var earlier, last := moves[..|moves| - 1], moves[|moves| - 1];
      StampsFollowHistory(created, earlier);
      var effective := Effective(Created(created), earlier);
      FirstRunAppend(effective, last);
      assert (effective + [last])[..|effective|] == effective;
      if !Replay(Created(created), earlier).state.CanTransitionTo(last.next) {
        assert Effective(Created(created), moves) == effective;
      }
    }
  }

  // ---- What every history keeps ----

  /** A failed job returns to the queue by a retry, which clears the finish stamp; nothing but a return
      to the queue clears it. */
  predicate RetriesClear(created: nat, moves: seq<Move>) {
    moves == []
    || (&& RetriesClear(created, moves[..|moves| - 1])
        && (moves[|moves| - 1].clearsFinish ==> moves[|moves| - 1].next.Queued?)
        && (Replay(Created(created), moves[..|moves| - 1]).state.Failed? && moves[|moves| - 1].next.Queued? ==>
              moves[|moves| - 1].clearsFinish))
  }

  predicate ClockRuns(created: nat, moves: seq<Move>) {
    moves == []
    || (&& ClockRuns(created, moves[..|moves| - 1])
        && moves[|moves| - 1].now >= if |moves| == 1 then created else moves[|moves| - 2].now)
  }

  predicate RecordOk(r: Record) {
    && (r.finishedAt.Some? <==> r.state.IsTerminal())
    && (r.state.Running? || r.state.Pausing? || r.state.Paused? || r.state.Completed? ==> r.startedAt.Some?)
    && (r.startedAt.Some? ==> r.startedAt.value <= r.updatedAt)
    && (r.finishedAt.Some? ==> r.finishedAt.value == r.updatedAt)
  }

  lemma {:induction false} UpdatesFollowClock(created: nat, moves: seq<Move>)
    requires ClockRuns(created, moves)
    ensures Replay(Created(created), moves).updatedAt <= if moves == [] then created else moves[|moves| - 1].now
  {
    if moves == [] {
    } else {
      UpdatesFollowClock(created, moves[..|moves| - 1]);
    }
  }

  /** When every return to the queue clears the finish stamp, a record carries one exactly in a
      terminal state; a job that works or has completed was started, and never after it finished. */
  lemma {:induction false} HistoriesKeepRecordOk(created: nat, moves: seq<Move>)
    requires RetriesClear(created, moves) && ClockRuns(created, moves)
    ensures RecordOk(Replay(Created(created), moves))
  {
    if moves == [] {
    } else {
      HistoriesKeepRecordOk(created, moves[..|moves| - 1]);
      UpdatesFollowClock(created, moves[..|moves| - 1]);
    }
  }

  /** No history skips the work: a completed job was started, at or before its finish. */
  lemma {:induction false} CompletedWasStarted(created: nat, moves: seq<Move>)
    requires RetriesClear(created, moves) && ClockRuns(created, moves)
    requires Replay(Created(created), moves).state.Completed?
    ensures var r := Replay(Created(created), moves);
            r.startedAt.Some? && r.finishedAt.Some? && r.startedAt.value <= r.finishedAt.value
  {
    HistoriesKeepRecordOk(created, moves);
  }

  /** A retried job's record agrees with its state again if and only if the retry clears the stamp. */
  lemma RequeueAgreesIffCleared(r: Record, now: nat, clears: bool)
    requires RecordOk(r) && r.state.Failed?
    ensures var queued := Moved(r, Move(Queued, now, clears));
            queued.state.Queued? && ((queued.finishedAt.Some? <==> queued.state.IsTerminal()) <==> clears)
  {
  }

  /** Completed and cancelled jobs never change again; a failed job leaves that state only through a
      retry. */
  lemma {:induction false} FinalRecordsStay(r: Record, moves: seq<Move>)
    requires r.state.Completed? || r.state.Cancelled?
           || (r.state.Failed? && forall i :: 0 <= i < |moves| ==> !moves[i].next.Queued?)
    ensures Replay(r, moves) == r
  {
    if moves == [] {
    } else {
      FinalRecordsStay(r, moves[..|moves| - 1]);
    }
  }
}

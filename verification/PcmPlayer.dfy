/** The PCM playback worklet: a queue of sample chunks with an offset into the first one, proved to
    be a first-in first-out queue of samples. */
module PcmPlayer {
  import opened Bounded
  import opened Splitting

  /** Samples are only copied, never computed with. */
  type Sample = real

  const SILENCE: Sample := 0.0

  /** What the port delivers: samples, a clear request, or anything else. */
  datatype Message = Samples(chunk: seq<Sample>) | Clear | Other

  /** What a frame plays when `pending` is waiting: its next sample, or silence. */
  function Played(pending: seq<Sample>, frame: nat): Sample {
    if frame < |pending| then pending[frame] else SILENCE
  }

  /** What some frames in a row play. */
  function Sounds(pending: seq<Sample>, frames: nat): (s: seq<Sample>)
    ensures |s| == frames && forall f :: 0 <= f < frames ==> s[f] == Played(pending, f)
  {
    seq(frames, f requires 0 <= f < frames => Played(pending, f))
  }

  function Drop(pending: seq<Sample>, frames: nat): seq<Sample> {
    pending[Min(frames, |pending|)..]
  }

  class Player {
    var queue: seq<seq<Sample>>
    var offset: nat

    predicate Valid()
      reads this
    {
      if queue == [] then offset == 0 else offset <= |queue[0]|
    }

    /** The samples still to be played. */
    function Pending(): seq<Sample>
      requires Valid()
      reads this
    {
      Concat(queue)[offset..]
    }

    constructor ()
      ensures Valid() && Pending() == []
    {
      queue := [];
      offset := 0;
    }

    method OnMessage(message: Message)
      requires Valid()
      modifies this
      ensures Valid()
      ensures Pending() == match message
                           case Samples(chunk) => old(Pending()) + chunk
                           case Clear => []
                           case Other => old(Pending())
    {
      match message
      case Samples(chunk) =>
        ConcatConcat(queue, [chunk]);
        ConcatSingle(chunk);
        queue := queue + [chunk];
      case Clear =>
        queue := [];
        offset := 0;
      case Other =>
    }

    /** Drops the chunks at the front that are played out. */
    method SkipFinished()
      requires Valid()
      modifies this
      ensures Valid() && Pending() == old(Pending())
      ensures queue == [] || offset < |queue[0]|
    {
      while queue != [] && offset >= |queue[0]|
        invariant Valid() && Pending() == old(Pending())
        decreases |queue|
      {
        assert Concat(queue) == queue[0] + Concat(queue[1..]);
        queue := queue[1..];
        offset := 0;
      }
    }

    method NextSample() returns (sample: Sample)
      requires Valid()
      modifies this
      ensures Valid()
      ensures sample == Played(old(Pending()), 0) && Pending() == Drop(old(Pending()), 1)
    {
      SkipFinished();
      sample := SILENCE;
      if queue != [] {
        assert Concat(queue) == queue[0] + Concat(queue[1..]);
        sample := queue[0][offset];
        offset := offset + 1;
      }
    }

    /** Fills one frame after the other, as many as the first channel has; every channel gets the same
        sample. A shorter channel drops what lies beyond its end, a longer one keeps its rest. */
    method Process(channels: seq<array<Sample>>)
      requires Valid()
      modifies this, set c | 0 <= c < |channels| :: channels[c]
      ensures Valid()
      ensures channels == [] ==> Pending() == old(Pending())
      ensures channels != [] ==> Pending() == Drop(old(Pending()), channels[0].Length)
      ensures forall c, f :: 0 <= c < |channels| && 0 <= f < channels[c].Length && f < channels[0].Length ==>
                channels[c][f] == Played(old(Pending()), f)
      ensures forall c, f :: 0 <= c < |channels| && channels[0].Length <= f < channels[c].Length ==>
                channels[c][f] == old(channels[c][f])
    {
      if channels == [] {
        return;
      }
      var frames := channels[0].Length;
      ghost var before := Pending();
      for frame := 0 to frames
        invariant Valid() && Pending() == Drop(before, frame)
        invariant forall c, f :: 0 <= c < |channels| && 0 <= f < channels[c].Length && f < frame ==>
                    channels[c][f] == Played(before, f)
        invariant forall c, f :: 0 <= c < |channels| && frame <= f < channels[c].Length ==>
                    channels[c][f] == old(channels[c][f])
      {
        FillFrame(channels, frame);
        DropOneMore(before, frame);
      }
    }

    /** One frame: the next sample, or silence, to every channel. */
    method FillFrame(channels: seq<array<Sample>>, frame: nat)
      requires Valid()
      modifies this, set c | 0 <= c < |channels| :: channels[c]
      ensures Valid() && Pending() == Drop(old(Pending()), 1)
      ensures forall c :: 0 <= c < |channels| && frame < channels[c].Length ==>
                channels[c][frame] == Played(old(Pending()), 0)
      ensures forall c, f :: 0 <= c < |channels| && 0 <= f < channels[c].Length && f != frame ==>
                channels[c][f] == old(channels[c][f])
    {
      var sample := NextSample();
      WriteFrame(channels, frame, sample);
    }

    method WriteFrame(channels: seq<array<Sample>>, frame: nat, sample: Sample)
      modifies set c | 0 <= c < |channels| :: channels[c]
      ensures forall c :: 0 <= c < |channels| && frame < channels[c].Length ==> channels[c][frame] == sample
      ensures forall c, f :: 0 <= c < |channels| && 0 <= f < channels[c].Length && f != frame ==>
                channels[c][f] == old(channels[c][f])
    {
      for i := 0 to |channels|
        invariant forall c :: 0 <= c < i && frame < channels[c].Length ==> channels[c][frame] == sample
        invariant forall c, f :: 0 <= c < |channels| && 0 <= f < channels[c].Length && f != frame ==>
                    channels[c][f] == old(channels[c][f])
      {
        if frame < channels[i].Length {
          channels[i][frame] := sample;
        }
      }
    }
  }

  lemma DropOneMore(pending: seq<Sample>, frame: nat)
    ensures Drop(Drop(pending, frame), 1) == Drop(pending, frame + 1)
    ensures Played(Drop(pending, frame), 0) == Played(pending, frame)
  {
  }

  lemma ConcatSingle<T>(piece: seq<T>)
    ensures Concat([piece]) == piece
  {
  }

  // ---- Whole runs ----

  /** What happens to a player, one event at a time. */
  datatype Event = Arrives(chunk: seq<Sample>) | Clears | Plays(frames: nat)

  /** `pending` is what a Player's Pending() is; the rest records what went in and out of it. */
  datatype Playback = Playback(
    pending: seq<Sample>,
    output: seq<Sample>,
    pushed: seq<Sample>,
    played: nat,
    pushedEver: nat,
    playedEver: nat,
    clearedEver: nat)

  const START := Playback([], [], [], 0, 0, 0, 0)

  /** One event, in the terms of the contracts of OnMessage and Process. */
  function Happen(s: Playback, e: Event): Playback {
    match e
    case Arrives(chunk) =>
      s.(pending := s.pending + chunk, pushed := s.pushed + chunk, pushedEver := s.pushedEver + |chunk|)
    case Clears =>
      s.(pending := [], output := [], pushed := [], played := 0, clearedEver := s.clearedEver + |s.pending|)
    case Plays(frames) =>
      var n := Min(frames, |s.pending|);
      s.(pending := Drop(s.pending, frames),
         output := s.output + Sounds(s.pending, frames),
         played := s.played + n,
         playedEver := s.playedEver + n)
  }

  function Run(events: seq<Event>): Playback {
    if events == [] then START else Happen(Run(events[..|events| - 1]), events[|events| - 1])
  }

  /** The samples pushed since the last clear, straight from the events. */
  function PushedSinceClear(events: seq<Event>): seq<Sample> {
    if events == [] then []
    else
      var before := PushedSinceClear(events[..|events| - 1]);
      match events[|events| - 1]
      case Arrives(chunk) => before + chunk
      case Clears => []
      case Plays(_) => before
  }

  /** Where output and silence lie: `at` output positions carry the first `played` samples in order,
      every other position is silence. */
  predicate PlaysInOrder(output: seq<Sample>, at: seq<nat>, pushed: seq<Sample>, played: nat) {
    && |at| == played && played <= |pushed|
    && (forall i :: 0 <= i < played ==> at[i] < |output| && output[at[i]] == pushed[i])
    && (forall i, k :: 0 <= i < k < played ==> at[i] < at[k])
    && (forall f :: 0 <= f < |output| && f !in at ==> output[f] == SILENCE)
  }

  lemma PlayMore(s: Playback, at: seq<nat>, frames: nat) returns (at': seq<nat>)
    requires PlaysInOrder(s.output, at, s.pushed, s.played) && s.pushed == s.pushed[..s.played] + s.pending
    ensures var t := Happen(s, Plays(frames));
            && PlaysInOrder(t.output, at', t.pushed, t.played)
            && t.pushed == t.pushed[..t.played] + t.pending
  {
    var n := Min(frames, |s.pending|);
    var added := Sounds(s.pending, frames);
    at' := at + Positions(|s.output|, n);
    forall i | 0 <= i < n
      ensures added[i] == s.pushed[s.played + i]
    {
      assert s.pushed[s.played + i] == s.pending[i];
    }
    AppendPlayed(s.output, at, s.pushed, s.played, added, n);
    assert s.pushed[..s.played + n] + s.pending[n..] == s.pushed;
  }

  function Positions(from: nat, n: nat): seq<nat> {
    seq(n, i requires 0 <= i < n => from + i)
  }

  lemma {:induction false} AppendPlayed(output: seq<Sample>, at: seq<nat>, pushed: seq<Sample>, played: nat,
                                        added: seq<Sample>, n: nat)
    requires PlaysInOrder(output, at, pushed, played)
    requires played + n <= |pushed| && n <= |added|
    requires forall i :: 0 <= i < n ==> added[i] == pushed[played + i]
    requires forall f :: n <= f < |added| ==> added[f] == SILENCE
    ensures PlaysInOrder(output + added, at + Positions(|output|, n), pushed, played + n)
  {
    var longer, at' := output + added, at + Positions(|output|, n);
    forall i | 0 <= i < played + n
      ensures at'[i] < |longer| && longer[at'[i]] == pushed[i]
    {
      if i >= played {
        assert at'[i] == |output| + (i - played);
      }
    }
    forall f | |output| <= f < |output| + n
      ensures f in at'
    {
      assert at'[played + (f - |output|)] == f;
    }
    forall f | 0 <= f < |longer| && f !in at'
      ensures longer[f] == SILENCE
    {
      if f < |output| {
        assert f !in at;
      }
    }
  }

  /** Over any interleaving of pushes, clears and frames: what was played since the last clear is, in
      order and with silence only in between, a prefix of what was pushed since then; what is pending
      is the rest; and every sample ever pushed was played, is pending, or was cleared. */
  lemma {:induction false} PlaybackIsFifo(events: seq<Event>) returns (at: seq<nat>)
    ensures var s := Run(events);
            && s.pushed == PushedSinceClear(events)
            && PlaysInOrder(s.output, at, s.pushed, s.played)
            && s.pushed == s.pushed[..s.played] + s.pending
            && s.pushedEver == s.playedEver + |s.pending| + s.clearedEver
  {
    if events == [] {
      at := [];
    } else {
      var n := |events| - 1;
      at := PlaybackIsFifo(events[..n]);
      var s := Run(events[..n]);
      match events[n]
      case Arrives(chunk) =>
        assert s.pushed + chunk == s.pushed[..s.played] + (s.pending + chunk);
      case Clears =>
        at := [];
      case Plays(frames) =>
        at := PlayMore(s, at, frames);
    }
  }

  // ---- When a frame is silent ----

  /** How many samples had been pushed since the last clear when each output frame was produced, straight
      from the events. */
  function Arrived(events: seq<Event>): seq<nat> {
    if events == [] then []
    else
      var earlier := events[..|events| - 1];
      match events[|events| - 1]
      case Arrives(_) => Arrived(earlier)
      case Clears => []
      case Plays(frames) =>
        Arrived(earlier) + Steady(|PushedSinceClear(earlier)|, frames)
  }

  /** How many samples the frames before `f` play: each plays one if there is one left. */
  function Consumed(arrived: seq<nat>, f: nat): nat
    requires f <= |arrived|
  {
    if f == 0 then 0
    else
      var k := Consumed(arrived, f - 1);
      if k < arrived[f - 1] then k + 1 else k
  }

  /** A stretch of frames before each of which the same number of samples had arrived. */
  function Steady(total: nat, frames: nat): (s: seq<nat>)
    ensures |s| == frames && forall f :: 0 <= f < frames ==> s[f] == total
  {
    seq(frames, f requires 0 <= f < frames => total)
  }

  lemma {:induction false} ConsumedOfPrefix(arrived: seq<nat>, more: seq<nat>, f: nat)
    requires f <= |arrived|
    ensures Consumed(arrived + more, f) == Consumed(arrived, f)
  {
    if f == 0 {
    } else {
      ConsumedOfPrefix(arrived, more, f - 1);
    }
  }

  /** Frames produced while nothing arrives play on until they have caught up. */
  lemma {:induction false} ConsumedWhilePlaying(arrived: seq<nat>, total: nat, frames: nat, g: nat)
    requires g <= frames && Consumed(arrived, |arrived|) <= total
    ensures Consumed(arrived + Steady(total, frames), |arrived| + g) == Min(Consumed(arrived, |arrived|) + g, total)
  {
    var more := Steady(total, frames);
    if g == 0 {
      ConsumedOfPrefix(arrived, more, |arrived|);
    } else {
      ConsumedWhilePlaying(arrived, total, frames, g - 1);
      assert (arrived + more)[|arrived| + g - 1] == total;
    }
  }

  /** Every output frame is what the events say: the next pushed sample if one had arrived that was not
      yet played, and silence if and only if everything that had arrived was played. */
  predicate FollowsArrivals(output: seq<Sample>, pushed: seq<Sample>, arrived: seq<nat>) {
    && |output| == |arrived|
    && forall f {:trigger output[f]} :: 0 <= f < |output| ==>
        FrameFollows(output[f], pushed, Consumed(arrived, f), arrived[f])
  }

  /** What a frame plays when `k` samples were consumed before it. */
  predicate FrameFollows(sample: Sample, pushed: seq<Sample>, k: nat, arrived: nat) {
    k <= arrived <= |pushed| && sample == if k < arrived then pushed[k] else SILENCE
  }

  lemma {:induction false} OldFrameFollows(output: seq<Sample>, pushed: seq<Sample>, arrived: seq<nat>,
                                           more: seq<nat>, f: nat)
    requires FollowsArrivals(output, pushed, arrived) && f < |output|
    ensures FrameFollows(output[f], pushed, Consumed(arrived + more, f), (arrived + more)[f])
  {
    ConsumedOfPrefix(arrived, more, f);
    assert FrameFollows(output[f], pushed, Consumed(arrived, f), arrived[f]);
  }

  lemma {:induction false} NewFrameFollows(pushed: seq<Sample>, arrived: seq<nat>, frames: nat, g: nat)
    requires Consumed(arrived, |arrived|) <= |pushed| && g < frames
    ensures FrameFollows(Played(pushed[Consumed(arrived, |arrived|)..], g), pushed,
                         Consumed(arrived + Steady(|pushed|, frames), |arrived| + g),
                         (arrived + Steady(|pushed|, frames))[|arrived| + g])
  {
    ConsumedWhilePlaying(arrived, |pushed|, frames, g);
  }

  lemma {:induction false} FollowsWhilePlayed(output: seq<Sample>, pushed: seq<Sample>, arrived: seq<nat>, frames: nat)
    requires FollowsArrivals(output, pushed, arrived) && Consumed(arrived, |arrived|) <= |pushed|
    ensures FollowsArrivals(output + Sounds(pushed[Consumed(arrived, |arrived|)..], frames), pushed,
                            arrived + Steady(|pushed|, frames))
  {
    var added, more := Sounds(pushed[Consumed(arrived, |arrived|)..], frames), Steady(|pushed|, frames);
    forall f | 0 <= f < |output + added|
      ensures FrameFollows((output + added)[f], pushed, Consumed(arrived + more, f), (arrived + more)[f])
    {
      if f < |output| {
        OldFrameFollows(output, pushed, arrived, more, f);
        assert (output + added)[f] == output[f];
      } else {
        NewFrameFollows(pushed, arrived, frames, f - |output|);
        assert (output + added)[f] == added[f - |output|];
      }
    }
  }

  /** The run's output follows the arrivals, and what is pending is what they left over. */
  predicate InStep(s: Playback, pushed: seq<Sample>, arrived: seq<nat>) {
    && FollowsArrivals(s.output, pushed, arrived)
    && s.played == Consumed(arrived, |arrived|) <= |pushed|
    && s.pending == pushed[s.played..]
  }

  lemma PlayingTakesTheNext(s: Playback, pushed: seq<Sample>, frames: nat)
    requires s.played <= |pushed| && s.pending == pushed[s.played..]
    ensures var t := Happen(s, Plays(frames));
            && t.output == s.output + Sounds(pushed[s.played..], frames)
            && t.played == Min(s.played + frames, |pushed|)
            && t.pending == pushed[t.played..]
  {
  }

  lemma PlayingStaysInStep(s: Playback, pushed: seq<Sample>, arrived: seq<nat>, frames: nat)
    requires InStep(s, pushed, arrived)
    ensures InStep(Happen(s, Plays(frames)), pushed, arrived + Steady(|pushed|, frames))
  {
    var t, all := Happen(s, Plays(frames)), arrived + Steady(|pushed|, frames);
    PlayingTakesTheNext(s, pushed, frames);
    assert FollowsArrivals(t.output, pushed, all) by {
      FollowsWhilePlayed(s.output, pushed, arrived, frames);
    }
    assert t.played == Consumed(all, |all|) by {
      ConsumedWhilePlaying(arrived, |pushed|, frames, frames);
    }
  }

  lemma PushingStaysInStep(s: Playback, pushed: seq<Sample>, arrived: seq<nat>, chunk: seq<Sample>)
    requires InStep(s, pushed, arrived)
    ensures InStep(Happen(s, Arrives(chunk)), pushed + chunk, arrived)
  {
  }

  /** Silence is played only when nothing is pending: over any interleaving of pushes, clears and frames
      each frame since the last clear is determined by what had arrived, and is silent exactly when the
      frames before it had played everything pushed so far. */
  lemma {:induction false} SilenceOnlyWhenEmpty(events: seq<Event>)
    ensures InStep(Run(events), PushedSinceClear(events), Arrived(events))
  {
    if events == [] {
    } else {
      var n := |events| - 1;
      var s := Run(events[..n]);
      var pushed, arrived := PushedSinceClear(events[..n]), Arrived(events[..n]);
      SilenceOnlyWhenEmpty(events[..n]);
      match events[n]
      case Arrives(chunk) => PushingStaysInStep(s, pushed, arrived, chunk);
      case Clears =>
      case Plays(frames) => PlayingStaysInStep(s, pushed, arrived, frames);
    }
  }
}

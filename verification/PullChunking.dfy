/** When the way a pull's stream is cut into chunks matters: the exact condition, and a stream for which it
    does. */
module PullChunking {
  import opened Wrappers
  import opened Bounded
  import opened Splitting
  import opened OllamaPull

  /** A line over the limit that the reader takes all the same, once it is complete. */
  predicate Tolerated(json: Json, line: seq<Byte>) {
    |line| > MAX_STREAM_EVENT_BYTES && ParseProgressLine(json, line) != Err(Oversized)
  }

  /** Only blank lines are tolerated, and lines that a final carriage return takes one byte over the limit. */
  lemma ToleratedIff(json: Json, line: seq<Byte>)
    requires NEWLINE !in line
    ensures Tolerated(json, line) <==>
              && |line| > MAX_STREAM_EVENT_BYTES
              && (Blank(line)
                  || (|line| == MAX_STREAM_EVENT_BYTES + 1 && line[|line| - 1] == CARRIAGE_RETURN))
  {
    var stripped := StripSuffix(line, CARRIAGE_RETURN);
    assert StripSuffix(line, NEWLINE) == line;
    assert Blank(line) <==> Blank(stripped) by {
      assert stripped == line || line == stripped + [CARRIAGE_RETURN];
    }
  }

  lemma BlankIff(json: Json, line: seq<Byte>)
    requires NEWLINE !in line
    ensures ParseProgressLine(json, line) == Ok(None) <==> Blank(line)
  {
    var stripped := StripSuffix(line, CARRIAGE_RETURN);
    assert StripSuffix(line, NEWLINE) == line;
    assert stripped == line || line == stripped + [CARRIAGE_RETURN];
  }

  /** The line is refused for its length even when nothing of it is seen before it is complete. */
  predicate RefusedAnyway(json: Json, lines: seq<seq<Byte>>, k: nat)
    requires k < |lines|
  {
    ParseProgressLine(json, lines[k]) == Err(Oversized)
    || (k == |lines| - 1 && |lines[k]| > MAX_STREAM_EVENT_BYTES)
  }

  /** Line `m` is the first one over the limit, and it is reached and tolerated; and it is not the case that
      from it on nothing but blank lines precede another that is refused anyway. */
  predicate MattersAt(json: Json, lines: seq<seq<Byte>>, m: nat)
    requires m < |lines| - 1
  {
    && Fit(lines[..m]) && ReadLines(json, lines[..m]).error.None?
    && Tolerated(json, lines[m])
    && !exists k :: m < k < |lines| && AllBlank(lines[m..k]) && RefusedAnyway(json, lines, k)
  }

  predicate AllBlank(lines: seq<seq<Byte>>) {
    forall i :: 0 <= i < |lines| ==> Blank(lines[i])
  }

  // ---- What follows a tolerated line ----

  lemma {:induction false} BlanksAddNothing(json: Json, before: seq<seq<Byte>>, blanks: seq<seq<Byte>>)
    requires AllBlank(blanks) && FreeOf(blanks, NEWLINE)
    ensures ReadLines(json, before + blanks) == ReadLines(json, before)
  {
    if blanks == [] {
      assert before + blanks == before;
    } else {
      var n := |blanks| - 1;
      BlanksAddNothing(json, before, blanks[..n]);
      AppendLast(before, blanks);
      ReadOneMore(json, before + blanks[..n], blanks[n]);
      BlankIff(json, blanks[n]);
    }
  }

  /** Lines that are read without error and add nothing are blank. */
  lemma {:induction false} SilentLinesAreBlank(json: Json, before: seq<seq<Byte>>, silent: seq<seq<Byte>>)
    requires FreeOf(silent, NEWLINE) && ReadLines(json, before + silent).error.None?
    requires ReadLines(json, before + silent).emitted == ReadLines(json, before).emitted
    ensures AllBlank(silent)
  {
    if silent == [] {
    } else {
      var n := |silent| - 1;
      AppendLast(before, silent);
      ReadOneMore(json, before + silent[..n], silent[n]);
      ReadingExtends(json, before, silent[..n]);
      SilentLinesAreBlank(json, before, silent[..n]);
      BlankIff(json, silent[n]);
    }
  }

  lemma AppendLast<T>(before: seq<T>, more: seq<T>)
    requires more != []
    ensures before + more == (before + more[..|more| - 1]) + [more[|more| - 1]]
  {
  }

  /** The line at which reading stops. */
  lemma {:induction false} StoppingLine(json: Json, lines: seq<seq<Byte>>) returns (k: nat)
    requires ReadLines(json, lines).error.Some?
    ensures k < |lines| && ReadLines(json, lines[..k]).error.None?
    ensures ReadLines(json, lines) == ReadLines(json, lines[..k]).(error := ReadLines(json, lines).error)
    ensures ParseProgressLine(json, lines[k]) == Err(ReadLines(json, lines).error.value)
  {
    var n := |lines| - 1;
    if ReadLines(json, lines[..n]).error.Some? {
      k := StoppingLine(json, lines[..n]);
      assert lines[..n][..k] == lines[..k];
    } else {
      k := n;
    }
  }

  lemma LenientStop(json: Json, lines: seq<seq<Byte>>) returns (k: nat)
    requires lines != [] && ReadLeniently(json, lines).error == Some(Oversized)
    ensures k < |lines| && ReadLines(json, lines[..k]).error.None? && RefusedAnyway(json, lines, k)
    ensures ReadLeniently(json, lines).emitted == ReadLines(json, lines[..k]).emitted
  {
    var n := |lines| - 1;
    if ReadLines(json, lines[..n]).error.Some? {
      k := StoppingLine(json, lines[..n]);
      assert lines[..n][..k] == lines[..k];
    } else {
      k := n;
    }
  }

  lemma CutBetween<T>(lines: seq<T>, m: nat, k: nat)
    requires m <= k <= |lines|
    ensures lines[..m] + lines[m..k] == lines[..k]
  {
  }

  lemma FreeBetween(lines: seq<seq<Byte>>, m: nat, k: nat)
    requires m <= k <= |lines| && FreeOf(lines, NEWLINE)
    ensures FreeOf(lines[m..k], NEWLINE)
  {
  }

  /** Lenient reading goes no further than a tolerated line if and only if a refused one follows in silence. */
  lemma {:induction false} StopsInSilenceIff(json: Json, lines: seq<seq<Byte>>, m: nat)
    requires m < |lines| - 1 && FreeOf(lines, NEWLINE)
    requires ReadLines(json, lines[..m]).error.None? && Tolerated(json, lines[m])
    ensures ReadLeniently(json, lines) == Outcome(ReadLines(json, lines[..m]).emitted, Some(Oversized)) <==>
              exists k :: m < k < |lines| && AllBlank(lines[m..k]) && RefusedAnyway(json, lines, k)
  {
    if ReadLeniently(json, lines) == Outcome(ReadLines(json, lines[..m]).emitted, Some(Oversized)) {
      var k := RefusedFollows(json, lines, m);
    }
    if k :| m < k < |lines| && AllBlank(lines[m..k]) && RefusedAnyway(json, lines, k) {
      RefusedInSilence(json, lines, m, k);
    }
  }

  lemma {:induction false} RefusedFollows(json: Json, lines: seq<seq<Byte>>, m: nat) returns (k: nat)
    requires m < |lines| - 1 && FreeOf(lines, NEWLINE)
    requires ReadLines(json, lines[..m]).error.None? && Tolerated(json, lines[m])
    requires ReadLeniently(json, lines) == Outcome(ReadLines(json, lines[..m]).emitted, Some(Oversized))
    ensures m < k < |lines| && AllBlank(lines[m..k]) && RefusedAnyway(json, lines, k)
  {
    k := LenientStop(json, lines);
    if k < m {
      EarlierIsRead(json, lines, k, m);
      assert false;
    }
    CutBetween(lines, m, k);
    FreeBetween(lines, m, k);
    SilentLinesAreBlank(json, lines[..m], lines[m..k]);
  }

  /** A line before which and at which reading goes on is not refused. */
  lemma {:induction false} EarlierIsRead(json: Json, lines: seq<seq<Byte>>, k: nat, m: nat)
    requires k < m < |lines| - 1 && ReadLines(json, lines[..m]).error.None?
    ensures !RefusedAnyway(json, lines, k)
  {
    CutAt(lines, k);
    ReadOneMore(json, lines[..k], lines[k]);
    CutBetween(lines, k + 1, m);
    ReadingExtends(json, lines[..k + 1], lines[k + 1..m]);
  }

  lemma {:induction false} RefusedInSilence(json: Json, lines: seq<seq<Byte>>, m: nat, k: nat)
    requires m < k < |lines| && FreeOf(lines, NEWLINE) && ReadLines(json, lines[..m]).error.None?
    requires AllBlank(lines[m..k]) && RefusedAnyway(json, lines, k)
    ensures ReadLeniently(json, lines) == Outcome(ReadLines(json, lines[..m]).emitted, Some(Oversized))
  {
    CutBetween(lines, m, k);
    FreeBetween(lines, m, k);
    BlanksAddNothing(json, lines[..m], lines[m..k]);
    var n := |lines| - 1;
    if k < n {
      CutAt(lines, k);
      ReadOneMore(json, lines[..k], lines[k]);
      LenientExtends(json, lines[..k + 1], lines[k + 1..]);
    }
  }

  // ---- The exact condition ----

  /** Strict reading stops at the first line over the limit, if it gets there. */
  lemma {:induction false} StrictStop(json: Json, lines: seq<seq<Byte>>, m: nat)
    requires m < |lines| && Fit(lines[..m]) && |lines[m]| > MAX_STREAM_EVENT_BYTES
    ensures var before := ReadLines(json, lines[..m]);
            ReadStrictly(json, lines) == if before.error.Some? then before else before.(error := Some(Oversized))
  {
    var shortest := lines[..m + 1];
    assert shortest[..m] == lines[..m];
    FitIsStrict(json, lines[..m]);
    StrictErrorStays(json, shortest, lines[m + 1..]);
    assert shortest + lines[m + 1..] == lines;
  }

  lemma {:induction false} FirstLong(lines: seq<seq<Byte>>) returns (m: nat)
    requires !Fit(lines)
    ensures m < |lines| && Fit(lines[..m]) && |lines[m]| > MAX_STREAM_EVENT_BYTES
  {
    var n := |lines| - 1;
    if Fit(lines[..n]) {
      m := n;
    } else {
      m := FirstLong(lines[..n]);
      assert lines[..n][..m] == lines[..m];
    }
  }

  lemma {:induction false} FitIsLenient(json: Json, lines: seq<seq<Byte>>)
    requires lines != [] && Fit(lines)
    ensures ReadStrictly(json, lines) == ReadLeniently(json, lines)
  {
    FitIsStrict(json, lines);
  }

  lemma CutAt<T>(lines: seq<T>, m: nat)
    requires m < |lines|
    ensures lines[..m + 1] == lines[..m] + [lines[m]]
    ensures lines[..m + 1] + lines[m + 1..] == lines == lines[..m] + lines[m..]
  {
  }

  /** One line over the limit decides. */
  lemma {:induction false} ReadingsAgreeIff(json: Json, lines: seq<seq<Byte>>, m: nat)
    requires FreeOf(lines, NEWLINE) && m < |lines| && Fit(lines[..m]) && |lines[m]| > MAX_STREAM_EVENT_BYTES
    ensures ReadStrictly(json, lines) == ReadLeniently(json, lines) <==> !(m < |lines| - 1 && MattersAt(json, lines, m))
  {
    StrictStop(json, lines, m);
    var before := ReadLines(json, lines[..m]);
    if before.error.Some? {
      CutAt(lines, m);
      LenientExtends(json, lines[..m], lines[m..]);
    } else if m < |lines| - 1 {
      if Tolerated(json, lines[m]) {
        StopsInSilenceIff(json, lines, m);
      } else {
        CutAt(lines, m);
        ReadOneMore(json, lines[..m], lines[m]);
        LenientExtends(json, lines[..m + 1], lines[m + 1..]);
      }
    }
  }

  /** The first line over the limit is unique. */
  lemma FirstLongIsUnique(lines: seq<seq<Byte>>, m: nat, k: nat)
    requires m < |lines| && Fit(lines[..m]) && |lines[m]| > MAX_STREAM_EVENT_BYTES
    requires k < |lines| && Fit(lines[..k]) && |lines[k]| > MAX_STREAM_EVENT_BYTES
    ensures m == k
  {
    if m < k {
      LongLineDoesNotFit(lines, m, k);
    } else if k < m {
      LongLineDoesNotFit(lines, k, m);
    }
  }

  lemma LongLineDoesNotFit(lines: seq<seq<Byte>>, m: nat, k: nat)
    requires m < k <= |lines| && |lines[m]| > MAX_STREAM_EVENT_BYTES
    ensures !Fit(lines[..k])
  {
    assert lines[..k][m] == lines[m];
  }

  /** The chunking of a stream matters to a pull if and only if its first segment over the limit is reached,
      tolerated, and not followed in silence by one that is refused anyway. One chunk is read leniently and
      single bytes strictly, and every other chunking lies between. */
  lemma {:induction false} ChunkingMattersIff(json: Json, stream: seq<Byte>)
    ensures var segments := Split(stream, NEWLINE);
            Strict(json, stream) != Lenient(json, stream) <==>
              exists m :: 0 <= m < |segments| - 1 && MattersAt(json, segments, m)
  {
    var segments := Split(stream, NEWLINE);
    SplitRoundTrip(stream, NEWLINE);
    if Fit(segments) {
      FitIsLenient(json, segments);
    } else {
      var first := FirstLong(segments);
      ReadingsAgreeIff(json, segments, first);
      forall m | 0 <= m < |segments| - 1 && MattersAt(json, segments, m)
        ensures m == first
      {
        FirstLongIsUnique(segments, first, m);
      }
    }
  }

  // ---- A stream for which it matters ----

  function Blanks(n: nat): (line: seq<Byte>)
    ensures |line| == n && Blank(line) && NEWLINE !in line
  {
    seq(n, i => 32)
  }

  /** Seventy thousand blanks and a newline, then the completion. */
  function BlankFirst(completion: seq<Byte>): seq<Byte> {
    Blanks(70_000) + [NEWLINE] + completion
  }

  /** In one chunk the pull succeeds, byte by byte it is refused. */
  lemma BlanksMatter(json: Json, completion: seq<Byte>, status: Status)
    requires NEWLINE !in completion && |completion| <= MAX_STREAM_EVENT_BYTES
    requires ParseProgressLine(json, completion) == Ok(Some(status)) && status.state.Completed?
    ensures Conclude(Lenient(json, BlankFirst(completion))) == Ok(status)
    ensures Conclude(Strict(json, BlankFirst(completion))) == Err(Oversized)
  {
    var blanks := Blanks(70_000);
    SplitFirst(blanks, completion, NEWLINE);
    SplitNone(completion, NEWLINE);
    var lines := [blanks] + [completion];
    assert lines[..1] == [blanks] && lines[..0] == [];
    BlankIff(json, blanks);
    assert ReadLines(json, []) == Outcome([], None);
    ReadOneMore(json, [], blanks);
    assert [] + [blanks] == [blanks];
    StrictStop(json, lines, 0);
  }
}

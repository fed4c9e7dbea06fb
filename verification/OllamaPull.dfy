/** The Ollama pull loop: newline-delimited progress events cut out of arbitrary byte chunks with a
    bounded buffer. It is proved against one split of the whole stream at its newlines. */
module OllamaPull {
  import opened Wrappers
  import opened Bounded
  import opened Splitting

  const NEWLINE: Byte := 10
  const CARRIAGE_RETURN: Byte := 13
  const MAX_STREAM_EVENT_BYTES := 64 * 1024

  datatype DownloadState = Downloading | Completed

  datatype Status = Status(state: DownloadState, downloaded: Option<U64>, total: Option<U64>)

  /** The fields of one JSON progress object. */
  datatype Progress = Progress(status: Option<string>, total: Option<U64>, completed: Option<U64>, failed: bool)

  datatype PullError = Oversized | Malformed | ProviderFailure | NoSuccessEvent | TransportFailure | Stopped

  /** What the transport delivers: bytes, a broken read, or a chunk that finds the pull cancelled. */
  datatype Item = Data(bytes: seq<Byte>) | Broken | Cancelled

  /** The JSON reader, which is not part of this model: any function from bytes to fields. */
  type Json = seq<Byte> -> Option<Progress>

  predicate IsAsciiWhitespace(b: Byte) {
    b == 32 || b == 9 || b == 10 || b == 12 || b == 13
  }

  predicate Blank(line: seq<Byte>) {
    forall i :: 0 <= i < |line| ==> IsAsciiWhitespace(line[i])
  }

  /** A line holds something if it has a byte other than a blank, tab, newline, form feed or carriage return. */
  lemma HoldsSomethingIff(line: seq<Byte>)
    ensures !Blank(line) <==>
              exists i :: 0 <= i < |line| && line[i] != ' ' as int && line[i] != '\t' as int && line[i] != '\n' as int
                          && line[i] != 0x0C && line[i] != '\r' as int
  {
  }

  function StripSuffix(line: seq<Byte>, b: Byte): seq<Byte> {
    if line != [] && line[|line| - 1] == b then line[..|line| - 1] else line
  }

  function ParseProgressLine(json: Json, raw: seq<Byte>): Result<Option<Status>, PullError> {
    var line := StripSuffix(StripSuffix(raw, NEWLINE), CARRIAGE_RETURN);
    if Blank(line) then Ok(None)
    else if |line| > MAX_STREAM_EVENT_BYTES then Err(Oversized)
    else
      var value := json(line);
      if value.None? then Err(Malformed)
      else if value.value.failed then Err(ProviderFailure)
      else
        var state := if value.value.status == Some("success") then Completed else Downloading;
        Ok(Some(Status(state, value.value.completed, value.value.total)))
  }

  // ---- The one-shot reference ----

  datatype Outcome = Outcome(emitted: seq<Status>, error: Option<PullError>)

  /** One more line, unless an earlier one did not parse. */
  function ReadOn(json: Json, before: Outcome, line: seq<Byte>): Outcome {
    if before.error.Some? then before
    else
      match ParseProgressLine(json, line)
      case Err(e) => before.(error := Some(e))
      case Ok(None) => before
      case Ok(Some(status)) => before.(emitted := before.emitted + [status])
  }

  /** Reads the lines in order and stops at the first one that does not parse. */
  function ReadLines(json: Json, lines: seq<seq<Byte>>): Outcome {
    if lines == [] then Outcome([], None)
    else ReadOn(json, ReadLines(json, lines[..|lines| - 1]), lines[|lines| - 1])
  }

  function LastStatus(emitted: seq<Status>): Option<Status> {
    if emitted == [] then None else Some(emitted[|emitted| - 1])
  }

  function Conclude(o: Outcome): Result<Status, PullError> {
    if o.error.Some? then Err(o.error.value)
    else
      var last := LastStatus(o.emitted);
      if last.Some? && last.value.state.Completed? then Ok(last.value) else Err(NoSuccessEvent)
  }

  /** Splits the whole stream at its newlines and reads every segment. */
  function OneShot(json: Json, stream: seq<Byte>): Outcome {
    ReadLines(json, Split(stream, NEWLINE))
  }

  predicate Fit(lines: seq<seq<Byte>>) {
    forall i :: 0 <= i < |lines| ==> |lines[i]| <= MAX_STREAM_EVENT_BYTES
  }

  /** No segment between newlines is longer than the event limit. */
  predicate SegmentsFit(stream: seq<Byte>) {
    Fit(Split(stream, NEWLINE))
  }

  /** Like ReadLines, but refusing every line longer than the event limit, whatever it holds. */
  function ReadStrictly(json: Json, lines: seq<seq<Byte>>): Outcome {
    if lines == [] then Outcome([], None)
    else
      var before, last := ReadStrictly(json, lines[..|lines| - 1]), lines[|lines| - 1];
      if before.error.None? && |last| > MAX_STREAM_EVENT_BYTES then before.(error := Some(Oversized))
      else ReadOn(json, before, last)
  }

  /** What the pull makes of the stream when every line is seen before it is complete. */
  function Strict(json: Json, stream: seq<Byte>): Outcome {
    ReadStrictly(json, Split(stream, NEWLINE))
  }

  /** What it makes of the stream when no line but the last, which has no newline, is seen incomplete. */
  function Lenient(json: Json, stream: seq<Byte>): Outcome {
    ReadLeniently(json, Split(stream, NEWLINE))
  }

  function ReadLeniently(json: Json, lines: seq<seq<Byte>>): Outcome
    requires lines != []
  {
    var before, last := ReadLines(json, lines[..|lines| - 1]), lines[|lines| - 1];
    if before.error.None? && |last| > MAX_STREAM_EVENT_BYTES then before.(error := Some(Oversized))
    else ReadOn(json, before, last)
  }

  predicate AllData(items: seq<Item>) {
    forall i :: 0 <= i < |items| ==> items[i].Data?
  }

  /** The bytes of the leading data items. */
  function StreamOf(items: seq<Item>): seq<Byte> {
    if items == [] || !items[0].Data? then [] else items[0].bytes + StreamOf(items[1..])
  }

  lemma {:induction false} ReadOneMore(json: Json, lines: seq<seq<Byte>>, line: seq<Byte>)
    ensures ReadLines(json, lines + [line]) == ReadOn(json, ReadLines(json, lines), line)
  {
  }

  /** Reading more lines only adds events, and nothing after an error. */
  lemma {:induction false} ReadingExtends(json: Json, lines: seq<seq<Byte>>, more: seq<seq<Byte>>)
    ensures ReadLines(json, lines).emitted <= ReadLines(json, lines + more).emitted
    ensures ReadLines(json, lines).error.Some? ==> ReadLines(json, lines + more) == ReadLines(json, lines)
  {
    if more == [] {
      assert lines + more == lines;
    } else {
      var n := |more| - 1;
      ReadingExtends(json, lines, more[..n]);
      assert lines + more == (lines + more[..n]) + [more[n]];
      ReadOneMore(json, lines + more[..n], more[n]);
    }
  }

  /** A line read with its newline is read like the segment before the newline. */
  lemma NewlineDoesNotMatter(json: Json, segment: seq<Byte>)
    requires NEWLINE !in segment
    ensures ParseProgressLine(json, segment + [NEWLINE]) == ParseProgressLine(json, segment)
  {
  }

  // ---- What the lines hold ----

  /** The lines that hold something, without a final carriage return. */
  function Contents(lines: seq<seq<Byte>>): seq<seq<Byte>> {
    if lines == [] then []
    else
      var before, line := Contents(lines[..|lines| - 1]), StripSuffix(lines[|lines| - 1], CARRIAGE_RETURN);
      if Blank(line) then before else before + [line]
  }

  predicate Good(json: Json, line: seq<Byte>) {
    json(line).Some? && !json(line).value.failed
  }

  /** The status says what the line says, and is the completion exactly when the line says success. */
  predicate Reports(json: Json, line: seq<Byte>, status: Status) {
    && Good(json, line)
    && status.downloaded == json(line).value.completed && status.total == json(line).value.total
    && (status.state == Completed <==> json(line).value.status == Some("success"))
  }

  /** Every line that holds something is a good one, and the last of them says success. */
  predicate Succeeds(json: Json, lines: seq<seq<Byte>>) {
    && lines != []
    && (forall i :: 0 <= i < |lines| ==> Good(json, lines[i]))
    && json(lines[|lines| - 1]).value.status == Some("success")
  }

  /** Why reading stopped after `n` lines that hold something. */
  predicate StopsBecause(json: Json, lines: seq<seq<Byte>>, n: nat, error: Option<PullError>) {
    match error
    case None => n == |lines|
    case Some(Malformed) => n < |lines| && json(lines[n]).None?
    case Some(ProviderFailure) => n < |lines| && json(lines[n]).Some? && json(lines[n]).value.failed
    case Some(e) => e == Oversized && n < |lines| && |lines[n]| > MAX_STREAM_EVENT_BYTES
  }

  /** The events report the first lines that hold something, one each and in order, up to the first that is
      not good. */
  lemma {:induction false} EventsReportLines(json: Json, lines: seq<seq<Byte>>)
    requires FreeOf(lines, NEWLINE)
    ensures var o := ReadLines(json, lines);
            && |o.emitted| <= |Contents(lines)|
            && (forall i :: 0 <= i < |o.emitted| ==> Reports(json, Contents(lines)[i], o.emitted[i]))
            && StopsBecause(json, Contents(lines), |o.emitted|, o.error)
  {
    if lines == [] {
    } else {
      var n := |lines| - 1;
      EventsReportLines(json, lines[..n]);
      assert StripSuffix(lines[n], NEWLINE) == lines[n];
    }
  }

  // ---- The invariant of the loop ----

  /** After `consumed` bytes: the finished lines have been read without error, and the buffer holds
      the rest. */
  ghost predicate Reading(json: Json, consumed: seq<Byte>, lines: seq<seq<Byte>>, pending: seq<Byte>,
                          emitted: seq<Status>)
  {
    && FreeOf(lines, NEWLINE)
    && consumed == Terminated(lines, NEWLINE) + pending
    && ReadLines(json, lines) == Outcome(emitted, None)
  }

  lemma {:induction false} TakeLine(json: Json, consumed: seq<Byte>, lines: seq<seq<Byte>>, pending: seq<Byte>,
                                    emitted: seq<Status>, newline: nat)
    requires Reading(json, consumed, lines, pending, emitted)
    requires newline < |pending| && pending[newline] == NEWLINE && NEWLINE !in pending[..newline]
    ensures FreeOf(lines + [pending[..newline]], NEWLINE)
    ensures consumed == Terminated(lines + [pending[..newline]], NEWLINE) + pending[newline + 1..]
    ensures ParseProgressLine(json, pending[..newline + 1]) == ParseProgressLine(json, pending[..newline])
  {
    var segment := pending[..newline];
    assert pending == segment + [NEWLINE] + pending[newline + 1..];
    assert pending[..newline + 1] == segment + [NEWLINE];
    NewlineDoesNotMatter(json, segment);
    TerminatedConcat(lines, [segment], NEWLINE);
    TerminatedSingle(segment, NEWLINE);
  }

  /** Where the lines read so far stand in the split of any longer stream. */
  lemma {:induction false} LinesAreLeadingSegments(json: Json, consumed: seq<Byte>, lines: seq<seq<Byte>>,
                                                   pending: seq<Byte>, rest: seq<Byte>)
    requires FreeOf(lines, NEWLINE) && consumed == Terminated(lines, NEWLINE) + pending
    ensures Split(consumed + rest, NEWLINE) == lines + Split(pending + rest, NEWLINE)
  {
    assert consumed + rest == Terminated(lines, NEWLINE) + (pending + rest);
    SplitTerminated(lines, pending + rest, NEWLINE);
  }

  /** A buffer without a newline begins the next segment of whatever stream follows. */
  lemma {:induction false} BufferBeginsSegment(json: Json, consumed: seq<Byte>, lines: seq<seq<Byte>>,
                                               pending: seq<Byte>, rest: seq<Byte>)
    requires FreeOf(lines, NEWLINE) && consumed == Terminated(lines, NEWLINE) + pending && NEWLINE !in pending
    requires |pending| > MAX_STREAM_EVENT_BYTES
    ensures var later := Split(pending + rest, NEWLINE);
            && Split(consumed + rest, NEWLINE) == lines + later && |later[0]| > MAX_STREAM_EVENT_BYTES
    ensures !SegmentsFit(consumed + rest)
  {
    LinesAreLeadingSegments(json, consumed, lines, pending, rest);
    var segments := Split(consumed + rest, NEWLINE);
    var later := Split(pending + rest, NEWLINE);
    assert segments[|lines|] == later[0];
    assert forall j :: 0 <= j < |pending| ==> (pending + rest)[j] == pending[j];
    assert |later[0]| == IndexOf(pending + rest, NEWLINE) >= |pending|;
  }

  /** The emitted events are those of the first lines of the stream, so a prefix of the reference. */
  lemma {:induction false} EmittedIsPrefix(json: Json, consumed: seq<Byte>, lines: seq<seq<Byte>>, pending: seq<Byte>,
                                           rest: seq<Byte>)
    requires FreeOf(lines, NEWLINE) && consumed == Terminated(lines, NEWLINE) + pending
    ensures var o := ReadLines(json, lines);
            && o.emitted <= Lenient(json, consumed + rest).emitted <= OneShot(json, consumed + rest).emitted
            && (o.error.Some? ==> OneShot(json, consumed + rest) == o == Lenient(json, consumed + rest))
  {
    LinesAreLeadingSegments(json, consumed, lines, pending, rest);
    ReadingExtends(json, lines, Split(pending + rest, NEWLINE));
    LenientExtends(json, lines, Split(pending + rest, NEWLINE));
  }

  lemma {:induction false} LenientExtends(json: Json, lines: seq<seq<Byte>>, more: seq<seq<Byte>>)
    requires more != []
    ensures ReadLines(json, lines).emitted <= ReadLeniently(json, lines + more).emitted
    ensures ReadLeniently(json, lines + more).emitted <= ReadLines(json, lines + more).emitted
    ensures ReadLines(json, lines).error.Some? ==> ReadLeniently(json, lines + more) == ReadLines(json, lines)
  {
    var all, n := lines + more, |more| - 1;
    assert all[..|all| - 1] == lines + more[..n];
    ReadingExtends(json, lines, more[..n]);
  }

  // ---- Lines longer than the limit ----

  lemma {:induction false} FitIsStrict(json: Json, lines: seq<seq<Byte>>)
    requires Fit(lines)
    ensures ReadStrictly(json, lines) == ReadLines(json, lines)
  {
    if lines == [] {
    } else {
      FitIsStrict(json, lines[..|lines| - 1]);
    }
  }

  /** Strict reading emits what some first lines hold, and no more of them than any reading without error. */
  lemma {:induction false} StrictStopsFirst(json: Json, lines: seq<seq<Byte>>)
    requires ReadLines(json, lines).error.None?
    ensures ReadStrictly(json, lines).emitted <= ReadLines(json, lines).emitted
    ensures ReadStrictly(json, lines).error.None? ==> ReadStrictly(json, lines) == ReadLines(json, lines)
    ensures ReadStrictly(json, lines).error in {None, Some(Oversized)}
  {
    if lines == [] {
    } else {
      StrictStopsFirst(json, lines[..|lines| - 1]);
    }
  }

  lemma {:induction false} StrictErrorStays(json: Json, lines: seq<seq<Byte>>, more: seq<seq<Byte>>)
    requires ReadStrictly(json, lines).error.Some?
    ensures ReadStrictly(json, lines + more) == ReadStrictly(json, lines)
  {
    if more == [] {
      assert lines + more == lines;
    } else {
      var n := |more| - 1;
      StrictErrorStays(json, lines, more[..n]);
      assert (lines + more)[..|lines + more| - 1] == lines + more[..n];
    }
  }

  /** Where a buffer is refused for its length strict reading has stopped too, there or earlier; lenient
      reading stops there if nothing follows. */
  lemma {:induction false} RefusedBuffer(json: Json, consumed: seq<Byte>, lines: seq<seq<Byte>>, pending: seq<Byte>,
                                         emitted: seq<Status>, rest: seq<Byte>)
    requires Reading(json, consumed, lines, pending, emitted) && NEWLINE !in pending
    requires |pending| > MAX_STREAM_EVENT_BYTES
    ensures !SegmentsFit(consumed + rest)
    ensures Strict(json, consumed + rest).error == Some(Oversized)
    ensures Strict(json, consumed + rest).emitted <= emitted
    ensures Fit(lines) ==> Strict(json, consumed + rest) == Outcome(emitted, Some(Oversized))
    ensures rest == [] ==> Lenient(json, consumed + rest) == Outcome(emitted, Some(Oversized))
  {
    BufferBeginsSegment(json, consumed, lines, pending, rest);
    var segments, later := Split(consumed + rest, NEWLINE), Split(pending + rest, NEWLINE);
    assert segments == lines + [later[0]] + later[1..];
    StrictStopsFirst(json, lines);
    assert (lines + [later[0]])[..|lines|] == lines;
    StrictErrorStays(json, lines + [later[0]], later[1..]);
    if Fit(lines) {
      FitIsStrict(json, lines);
    }
    if rest == [] {
      assert pending + rest == pending;
      SplitNone(pending, NEWLINE);
      assert segments[..|segments| - 1] == lines;
    }
  }

  /** Where a line does not parse, and all before it fit, strict reading stops with the same error. */
  lemma {:induction false} FailedLine(json: Json, consumed: seq<Byte>, lines: seq<seq<Byte>>, pending: seq<Byte>,
                                      rest: seq<Byte>)
    requires FreeOf(lines, NEWLINE) && consumed == Terminated(lines, NEWLINE) + pending
    requires ReadLines(json, lines).error.Some? && Fit(lines)
    ensures Strict(json, consumed + rest) == ReadLines(json, lines)
  {
    LinesAreLeadingSegments(json, consumed, lines, pending, rest);
    FitIsStrict(json, lines);
    StrictErrorStays(json, lines, Split(pending + rest, NEWLINE));
  }

  // ---- The loop ----

  /** Reads every complete line out of the buffer. */
  method DrainLines(json: Json, ghost consumed: seq<Byte>, ghost linesBefore: seq<seq<Byte>>,
                    buffer: seq<Byte>, emittedBefore: seq<Status>)
    returns (pending: seq<Byte>, emitted: seq<Status>, error: Option<PullError>, ghost lines: seq<seq<Byte>>)
    requires Reading(json, consumed, linesBefore, buffer, emittedBefore)
    ensures error.None? ==> NEWLINE !in pending
    ensures error.None? ==> Reading(json, consumed, lines, pending, emitted)
    ensures error.Some? ==> FreeOf(lines, NEWLINE) && consumed == Terminated(lines, NEWLINE) + pending
                            && ReadLines(json, lines) == Outcome(emitted, error)
    ensures linesBefore <= lines && forall i :: |linesBefore| <= i < |lines| ==> |lines[i]| < |buffer|
  {
    pending, emitted, lines := buffer, emittedBefore, linesBefore;
    while NEWLINE in pending
      invariant Reading(json, consumed, lines, pending, emitted)
      invariant |pending| <= |buffer| && linesBefore <= lines
      invariant forall i :: |linesBefore| <= i < |lines| ==> |lines[i]| < |buffer|
      decreases |pending|
    {
      var newline := IndexOf(pending, NEWLINE);
      var line := pending[..newline + 1];
      TakeLine(json, consumed, lines, pending, emitted, newline);
      ReadOneMore(json, lines, pending[..newline]);
      lines := lines + [pending[..newline]];
      pending := pending[newline + 1..];
      match ParseProgressLine(json, line)
      case Err(e) =>
        return pending, emitted, Some(e), lines;
      case Ok(None) =>
      case Ok(Some(status)) =>
        emitted := emitted + [status];
    }
    error := None;
  }

  /** What a pull may come to: the lenient outcome, or a refused buffer where strict reading is refused too,
      there or earlier. */
  predicate Between(json: Json, stream: seq<Byte>, emitted: seq<Status>, error: Option<PullError>) {
    || Lenient(json, stream) == Outcome(emitted, error)
    || (&& error == Some(Oversized) && Strict(json, stream).error == error
        && Strict(json, stream).emitted <= emitted <= Lenient(json, stream).emitted)
  }

  /** How a pull may stop before the end of its input. */
  ghost predicate StoppedRightly(json: Json, items: seq<Item>, emitted: seq<Status>, error: PullError) {
    && emitted <= OneShot(json, StreamOf(items)).emitted
    && match error
       case Stopped => !AllData(items)
       case TransportFailure => !AllData(items)
       case _ =>
         && Between(json, StreamOf(items), emitted, Some(error))
         && (OneShot(json, StreamOf(items)) == Outcome(emitted, Some(error))
             || (error == Oversized && !SegmentsFit(StreamOf(items))))
         && (|items| == 1 ==> Lenient(json, StreamOf(items)) == Outcome(emitted, Some(error)))
         && (Bytewise(items) ==> Strict(json, StreamOf(items)) == Outcome(emitted, Some(error)))
  }

  /** No item holds more than one byte. */
  predicate Bytewise(items: seq<Item>) {
    forall i :: 0 <= i < |items| && items[i].Data? ==> |items[i].bytes| <= 1
  }

  /** One chunk: extends the buffer, bounds it, and reads its complete lines. */
  method ReadChunk(json: Json, chunk: seq<Byte>, buffer: seq<Byte>, emittedBefore: seq<Status>,
                   ghost consumed: seq<Byte>, ghost linesBefore: seq<seq<Byte>>, ghost rest: seq<Byte>)
    returns (pending: seq<Byte>, emitted: seq<Status>, error: Option<PullError>, ghost lines: seq<seq<Byte>>)
    requires Reading(json, consumed, linesBefore, buffer, emittedBefore)
    requires |buffer| <= MAX_STREAM_EVENT_BYTES
    ensures error.None? ==>
              && NEWLINE !in pending && |pending| <= MAX_STREAM_EVENT_BYTES
              && Reading(json, consumed + chunk, lines, pending, emitted)
              && (|chunk| <= 1 && Fit(linesBefore) ==> Fit(lines))
    ensures var stream := consumed + chunk + rest;
            error.Some? ==>
              && emitted <= OneShot(json, stream).emitted
              && !error.value.Stopped? && !error.value.TransportFailure?
              && Between(json, stream, emitted, error)
              && (OneShot(json, stream) == Outcome(emitted, error)
                  || (error == Some(Oversized) && !SegmentsFit(stream)))
              && (rest == [] ==> Lenient(json, stream) == Outcome(emitted, error))
              && (|chunk| <= 1 && Fit(linesBefore) ==> Strict(json, stream) == Outcome(emitted, error))
  {
    ghost var now := consumed + chunk;
    pending, emitted, lines := buffer + chunk, emittedBefore, linesBefore;
    assert now == Terminated(lines, NEWLINE) + pending;
    EmittedIsPrefix(json, now, lines, pending, rest);
    if |pending| > MAX_STREAM_EVENT_BYTES && NEWLINE !in pending {
      RefusedBuffer(json, now, lines, pending, emitted, rest);
      error := Some(Oversized);
      return;
    }
    pending, emitted, error, lines := DrainLines(json, now, lines, pending, emitted);
    EmittedIsPrefix(json, now, lines, pending, rest);
    if error.Some? {
      DrainNeverStops(json, lines);
      if Fit(lines) {
        FailedLine(json, now, lines, pending, rest);
      }
    } else if |pending| > MAX_STREAM_EVENT_BYTES {
      RefusedBuffer(json, now, lines, pending, emitted, rest);
      error := Some(Oversized);
    }
  }

  lemma {:induction false} NextItem(items: seq<Item>, k: nat, consumed: seq<Byte>)
    requires k < |items| && StreamOf(items) == consumed + StreamOf(items[k..])
    ensures items[k].Data? ==> StreamOf(items) == consumed + items[k].bytes + StreamOf(items[k + 1..])
    ensures !items[k].Data? ==> StreamOf(items) == consumed
  {
  }

  /** The chunk loop. Between chunks the buffer is within the event limit. */
  method ReadChunks(json: Json, items: seq<Item>)
    returns (pending: seq<Byte>, emitted: seq<Status>, error: Option<PullError>, ghost lines: seq<seq<Byte>>)
    ensures error.None? ==> AllData(items) && NEWLINE !in pending && |pending| <= MAX_STREAM_EVENT_BYTES
    ensures error.None? ==> Reading(json, StreamOf(items), lines, pending, emitted)
    ensures error.None? && Bytewise(items) ==> Fit(lines)
    ensures error.Some? ==> StoppedRightly(json, items, emitted, error.value)
  {
    pending, emitted, lines, error := [], [], [], None;
    ghost var consumed: seq<Byte> := [];
    for k := 0 to |items|
      invariant error.None?
      invariant forall i :: 0 <= i < k ==> items[i].Data?
      invariant StreamOf(items) == consumed + StreamOf(items[k..])
      invariant NEWLINE !in pending && |pending| <= MAX_STREAM_EVENT_BYTES
      invariant Reading(json, consumed, lines, pending, emitted)
      invariant Bytewise(items) ==> Fit(lines)
    {
      NextItem(items, k, consumed);
      if !items[k].Data? {
        EmittedIsPrefix(json, consumed, lines, pending, []);
        assert consumed + [] == consumed;
        error := Some(if items[k].Cancelled? then Stopped else TransportFailure);
        return;
      }
      pending, emitted, error, lines :=
        ReadChunk(json, items[k].bytes, pending, emitted, consumed, lines, StreamOf(items[k + 1..]));
      if error.Some? {
        return;
      }
      consumed := consumed + items[k].bytes;
    }
    assert items[|items|..] == [] && consumed + [] == consumed;
  }

  /** Reading lines fails only for what is in a line. */
  lemma {:induction false} DrainNeverStops(json: Json, lines: seq<seq<Byte>>)
    ensures ReadLines(json, lines).error != Some(Stopped) && ReadLines(json, lines).error != Some(TransportFailure)
  {
    if lines == [] {
    } else {
      DrainNeverStops(json, lines[..|lines| - 1]);
    }
  }

  /** Whatever a buffer without a newline holds is the last segment of the stream. */
  lemma {:induction false} TailIsLastSegment(json: Json, stream: seq<Byte>, lines: seq<seq<Byte>>, pending: seq<Byte>,
                          emitted: seq<Status>)
    requires Reading(json, stream, lines, pending, emitted) && NEWLINE !in pending
    ensures Split(stream, NEWLINE) == lines + [pending]
    ensures OneShot(json, stream) == ReadOn(json, Outcome(emitted, None), pending)
    ensures |pending| <= MAX_STREAM_EVENT_BYTES ==> Lenient(json, stream) == OneShot(json, stream)
    ensures |pending| <= MAX_STREAM_EVENT_BYTES && Fit(lines) ==> Strict(json, stream) == OneShot(json, stream)
  {
    LinesAreLeadingSegments(json, stream, lines, pending, []);
    assert stream + [] == stream && pending + [] == pending;
    SplitNone(pending, NEWLINE);
    ReadOneMore(json, lines, pending);
    assert (lines + [pending])[..|lines|] == lines;
    if Fit(lines) {
      FitIsStrict(json, lines);
    }
  }

  predicate ComesTo(result: Result<Status, PullError>, emitted: seq<Status>, o: Outcome) {
    emitted == o.emitted && result == Conclude(o)
  }

  /** What the one-shot reading says of the lines of the stream that hold something. */
  lemma {:induction false} StreamReports(json: Json, stream: seq<Byte>)
    ensures var lines := Contents(Split(stream, NEWLINE));
            var o := OneShot(json, stream);
            && |o.emitted| <= |lines|
            && (forall i :: 0 <= i < |o.emitted| ==> Reports(json, lines[i], o.emitted[i]))
            && StopsBecause(json, lines, |o.emitted|, o.error)
            && (Conclude(o).Ok? <==> Succeeds(json, lines) && o.error != Some(Oversized))
    ensures SegmentsFit(stream) ==> OneShot(json, stream).error != Some(Oversized)
  {
    SplitRoundTrip(stream, NEWLINE);
    EventsReportLines(json, Split(stream, NEWLINE));
    if SegmentsFit(stream) {
      FitIsNotRefused(json, Split(stream, NEWLINE));
    }
  }

  lemma {:induction false} FitIsNotRefused(json: Json, lines: seq<seq<Byte>>)
    requires Fit(lines)
    ensures ReadLines(json, lines).error != Some(Oversized)
  {
    if lines == [] {
    } else {
      FitIsNotRefused(json, lines[..|lines| - 1]);
    }
  }

  /** Pulls a model. Its events report the lines that hold something, one each and in order; it succeeds if and
      only if everything arrived, each of those lines is good, the last one says success, and nothing was
      refused for its length, as nothing is when every segment fits. Whatever the chunking, the emitted events
      are a prefix of those of the whole stream; a success has emitted all of them; and when every segment
      fits the event limit the result is the one-shot result. With longer segments the result lies between two
      extremes: one chunk is read leniently, single bytes strictly. */
  method PullModel(json: Json, items: seq<Item>) returns (result: Result<Status, PullError>, emitted: seq<Status>)
    ensures emitted <= OneShot(json, StreamOf(items)).emitted
    ensures result.Ok? ==>
              && AllData(items) && OneShot(json, StreamOf(items)) == Outcome(emitted, None)
              && LastStatus(emitted) == Some(result.value) && result.value.state.Completed?
    ensures AllData(items) && (SegmentsFit(StreamOf(items)) || result != Err(Oversized)) ==>
              && emitted == OneShot(json, StreamOf(items)).emitted
              && result == Conclude(OneShot(json, StreamOf(items)))
    ensures result == Err(Stopped) || result == Err(TransportFailure) ==> !AllData(items)
    ensures var lines := Contents(Split(StreamOf(items), NEWLINE));
            && |emitted| <= |lines|
            && (forall i :: 0 <= i < |emitted| ==> Reports(json, lines[i], emitted[i]))
            && (result.Ok? <==> AllData(items) && Succeeds(json, lines) && result != Err(Oversized))
            && (result == Err(Malformed) && AllData(items) ==> |emitted| < |lines| && json(lines[|emitted|]).None?)
            && (result == Err(ProviderFailure) && AllData(items) ==>
                  |emitted| < |lines| && json(lines[|emitted|]).Some? && json(lines[|emitted|]).value.failed)
            && (result == Err(NoSuccessEvent) && AllData(items) ==> |emitted| == |lines| && !Succeeds(json, lines))
    ensures result == Err(Oversized) ==> !SegmentsFit(StreamOf(items))
    ensures var stream := StreamOf(items);
            AllData(items) ==>
              && (ComesTo(result, emitted, Lenient(json, stream))
                  || (&& result == Err(Oversized) && Strict(json, stream).error == Some(Oversized)
                      && Strict(json, stream).emitted <= emitted <= Lenient(json, stream).emitted))
              && (|items| == 1 ==> ComesTo(result, emitted, Lenient(json, stream)))
              && (Bytewise(items) ==> ComesTo(result, emitted, Strict(json, stream)))
              && (Strict(json, stream) == Lenient(json, stream) ==> ComesTo(result, emitted, Lenient(json, stream)))
  {
    StreamReports(json, StreamOf(items));
    var pending, error;
    ghost var lines;
    pending, emitted, error, lines := ReadChunks(json, items);
    if error.Some? {
      return Err(error.value), emitted;
    }
    TailIsLastSegment(json, StreamOf(items), lines, pending, emitted);
    if !Blank(pending) {
      match ParseProgressLine(json, pending)
      case Err(e) =>
        return Err(e), emitted;
      case Ok(None) =>
      case Ok(Some(status)) =>
        emitted := emitted + [status];
    }
    var last := LastStatus(emitted);
    if last.Some? && last.value.state.Completed? {
      return Ok(last.value), emitted;
    }
    return Err(NoSuccessEvent), emitted;
  }
}

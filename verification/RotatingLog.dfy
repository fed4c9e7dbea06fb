/** The rotating diagnostics log. Its set of files is proved to be a suffix of one plain append-only
    history, cut into bounded files. */
module RotatingLog {
  import opened Wrappers
  import opened Bounded
  import opened Sequences

  /** One serialized entry, without the newline that ends it in the file. */
  type Line = seq<Byte>

  /** One file of the log directory, absent until something is written to or moved into it. */
  type Slot = Option<seq<Line>>

  /** The log directory: slot 0 is the current file, slot `g` the one rotated `g` times. */
  type Files = seq<Slot>

  const MAX_LOADED_LINE := 32 * 1024

  function Bytes(lines: seq<Line>): nat {
    if lines == [] then 0 else Bytes(lines[..|lines| - 1]) + |lines[|lines| - 1]| + 1
  }

  function Lines(slot: Slot): seq<Line> {
    slot.GetOr([])
  }

  function NoFiles(generations: nat): Files {
    seq(generations + 1, _ => None)
  }

  /** Every file moves one generation on; the oldest one is lost. */
  function Rotated(files: Files): Files
    requires files != []
  {
    [None] + files[..|files| - 1]
  }

  predicate Overflows(files: Files, line: Line, maxBytes: nat)
    requires files != []
  {
    Bytes(Lines(files[0])) + |line| + 1 > maxBytes
  }

  function Appended(files: Files, line: Line, maxBytes: nat): (after: Files)
    requires files != []
    ensures |after| == |files|
  {
    var base := if Overflows(files, line, maxBytes) then Rotated(files) else files;
    base[0 := Some(Lines(base[0]) + [line])]
  }

  /** The log after appending all of `history` to an empty directory. */
  function AppendAll(history: seq<Line>, maxBytes: nat, generations: nat): (files: Files)
    ensures |files| == generations + 1
  {
    if history == [] then NoFiles(generations)
    else Appended(AppendAll(history[..|history| - 1], maxBytes, generations), history[|history| - 1], maxBytes)
  }

  /** The lines of the files from the oldest to the current one. */
  function Retained(files: Files): seq<Line> {
    if files == [] then [] else Retained(files[1..]) + Lines(files[0])
  }

  /** The reader gives up on a file at the first line that is not text. */
  function TextOf(file: seq<Line>, isText: Line -> bool): seq<Line> {
    if file == [] || !isText(file[0]) then [] else [file[0]] + TextOf(file[1..], isText)
  }

  /** The lines that loading gets to see, oldest file first. */
  function Readable(files: Files, isText: Line -> bool): seq<Line> {
    if files == [] then [] else Readable(files[1..], isText) + TextOf(Lines(files[0]), isText)
  }

  predicate AllText(lines: seq<Line>, isText: Line -> bool) {
    forall i :: 0 <= i < |lines| ==> isText(lines[i])
  }

  lemma {:induction false} TextIsWhole(file: seq<Line>, isText: Line -> bool)
    requires AllText(file, isText)
    ensures TextOf(file, isText) == file
  {
    if file == [] {
    } else {
      TextIsWhole(file[1..], isText);
    }
  }

  /** The reader gives up on nothing if every retained line is text. */
  lemma {:induction false} TextIsReadable(files: Files, isText: Line -> bool)
    requires AllText(Retained(files), isText)
    ensures Readable(files, isText) == Retained(files)
  {
    if files == [] {
    } else {
      var older, file := Retained(files[1..]), Lines(files[0]);
      assert forall i :: 0 <= i < |older| ==> older[i] == Retained(files)[i];
      assert forall i :: 0 <= i < |file| ==> file[i] == Retained(files)[|older| + i];
      TextIsReadable(files[1..], isText);
      TextIsWhole(file, isText);
    }
  }

  /** What loading makes of the lines it sees: over-long lines are skipped, unreadable ones too. */
  function Loaded<E>(lines: seq<Line>, decode: Line -> Option<E>, sanitize: E -> E): seq<E> {
    if lines == [] then []
    else
      var last := lines[|lines| - 1];
      var before := Loaded(lines[..|lines| - 1], decode, sanitize);
      if |last| > MAX_LOADED_LINE || decode(last).None? then before
      else before + [sanitize(decode(last).value)]
  }

  /** A line counts if it is at most 32 KiB long and can be read. */
  lemma {:induction false} LoadedOneMore<E>(lines: seq<Line>, line: Line, decode: Line -> Option<E>, sanitize: E -> E)
    ensures Loaded(lines + [line], decode, sanitize)
         == Loaded(lines, decode, sanitize)
            + if |line| <= 32_768 && decode(line).Some? then [sanitize(decode(line).value)] else []
  {
    assert (lines + [line])[..|lines|] == lines;
  }

  lemma {:induction false} LoadedConcat<E>(left: seq<Line>, right: seq<Line>, decode: Line -> Option<E>,
                                           sanitize: E -> E)
    ensures Loaded(left + right, decode, sanitize) == Loaded(left, decode, sanitize) + Loaded(right, decode, sanitize)
  {
    if right == [] {
      assert left + right == left;
    } else {
      assert (left + right)[..|left + right| - 1] == left + right[..|right| - 1];
      LoadedConcat(left, right[..|right| - 1], decode, sanitize);
    }
  }

  /** Lines that are all loadable load to one entry each. */
  lemma {:induction false} LoadedOfEncoded<E>(lines: seq<Line>, items: seq<E>, decode: Line -> Option<E>,
                                              sanitize: E -> E)
    requires |lines| == |items|
    requires forall i :: 0 <= i < |lines| ==> |lines[i]| <= MAX_LOADED_LINE && decode(lines[i]) == Some(items[i])
    ensures Loaded(lines, decode, sanitize) == Map(sanitize, items)
  {
    if lines == [] {
    } else {
      var n := |lines| - 1;
      LoadedOfEncoded(lines[..n], items[..n], decode, sanitize);
      MapAppend(sanitize, items[..n], items[n]);
      assert items[..n] + [items[n]] == items;
    }
  }

  class RotatingJsonl {
    const maxBytes: nat
    const generations: nat
    var files: Files

    ghost predicate Valid()
      reads this
    {
      generations >= 1 && |files| == generations + 1
    }

    constructor (maxBytes: nat, generations: nat, existing: Files)
      requires |existing| == Max(generations, 1) + 1
      ensures Valid() && files == existing
      ensures this.maxBytes == Max(maxBytes, 1024) && this.generations == Max(generations, 1)
    {
      this.maxBytes := Max(maxBytes, 1024);
      this.generations := Max(generations, 1);
      files := existing;
    }

    /** Deletes the oldest file, then renames each remaining one to the next generation. */
    method Rotate()
      requires Valid()
      modifies this
      ensures Valid()
      ensures files == Rotated(old(files))
    {
      files := files[generations := None];
      for g := generations downto 1
        invariant |files| == generations + 1
        invariant forall k :: 0 <= k < g ==> files[k] == old(files)[k]
        invariant files[g] == None
        invariant forall k :: g < k <= generations ==> files[k] == old(files)[k - 1]
      {
        if files[g].Some? {
          files := files[g + 1 := files[g]];
          files := files[g := None];
        }
      }
      if files[0].Some? {
        files := files[1 := files[0]];
        files := files[0 := None];
      }
    }

    method Append(line: Line)
      requires Valid()
      modifies this
      ensures Valid()
      ensures files == Appended(old(files), line, maxBytes)
    {
      var size := Bytes(Lines(files[0]));
      if size + (|line| + 1) > maxBytes {
        Rotate();
      }
      files := files[0 := Some(Lines(files[0]) + [line])];
    }

    /** Reads oldest generation to current file, line by line. */
    method LoadSanitized<E>(isText: Line -> bool, decode: Line -> Option<E>, sanitize: E -> E)
      returns (entries: seq<E>)
      requires Valid()
      ensures entries == Loaded(Readable(files, isText), decode, sanitize)
    {
      entries := [];
      for g := |files| downto 0
        invariant entries == Loaded(Readable(files[g..], isText), decode, sanitize)
      {
        assert files[g..][1..] == files[g + 1..];
        LoadedConcat(Readable(files[g + 1..], isText), TextOf(Lines(files[g]), isText), decode, sanitize);
        var loaded := LoadFile(Lines(files[g]), isText, decode, sanitize);
        entries := entries + loaded;
      }
      assert files[0..] == files;
    }

    method LoadFile<E>(file: seq<Line>, isText: Line -> bool, decode: Line -> Option<E>, sanitize: E -> E)
      returns (entries: seq<E>)
      ensures entries == Loaded(TextOf(file, isText), decode, sanitize)
    {
      entries := [];
      var i := 0;
      while i < |file| && isText(file[i])
        invariant 0 <= i <= |file|
        invariant TextOf(file, isText) == file[..i] + TextOf(file[i..], isText)
        invariant entries == Loaded(file[..i], decode, sanitize)
      {
        assert file[..i + 1][..i] == file[..i];
        assert file[i..][1..] == file[i + 1..] && file[..i] + [file[i]] == file[..i + 1];
        if |file[i]| <= MAX_LOADED_LINE {
          var entry := decode(file[i]);
          if entry.Some? {
            entries := entries + [sanitize(entry.value)];
          }
        }
        i := i + 1;
      }
      assert file[..i] + [] == file[..i];
    }
  }

  // ---- The history ----

  predicate FileOk(slot: Slot, maxBytes: nat) {
    slot.Some? ==> slot.value != [] && (Bytes(slot.value) <= maxBytes || |slot.value| == 1)
  }

  /** No file stands behind an absent one, and no two neighbours could have been one file. */
  predicate NeighboursOk(newer: Slot, older: Slot, maxBytes: nat) {
    older.Some? ==> newer.Some? && Bytes(older.value) + Bytes(newer.value) > maxBytes
  }

  predicate LogOk(files: Files, maxBytes: nat) {
    && (forall g :: 0 <= g < |files| ==> FileOk(files[g], maxBytes))
    && (forall g :: 0 <= g < |files| - 1 ==> NeighboursOk(files[g], files[g + 1], maxBytes))
  }

  lemma {:induction false} BytesConcat(left: seq<Line>, right: seq<Line>)
    ensures Bytes(left + right) == Bytes(left) + Bytes(right)
  {
    if right == [] {
      assert left + right == left;
    } else {
      assert (left + right)[..|left + right| - 1] == left + right[..|right| - 1];
      BytesConcat(left, right[..|right| - 1]);
    }
  }

  lemma BytesOfOne(line: Line)
    ensures Bytes([line]) == |line| + 1
  {
  }

  lemma RetainedOneMore(files: Files, line: Line)
    requires files != []
    ensures Retained(files[0 := Some(Lines(files[0]) + [line])]) == Retained(files) + [line]
  {
    var after := files[0 := Some(Lines(files[0]) + [line])];
    assert after[1..] == files[1..];
    assert Retained(files[1..]) + (Lines(files[0]) + [line]) == Retained(files[1..]) + Lines(files[0]) + [line];
  }

  lemma {:induction false} OldestComesFirst(files: Files)
    requires files != []
    ensures Retained(files) == Lines(files[|files| - 1]) + Retained(files[..|files| - 1])
  {
    var n := |files| - 1;
    if n == 0 {
      assert files[1..] == [] && files[..n] == [];
      assert Retained(files) == Lines(files[0]);
    } else {
      OldestComesFirst(files[1..]);
      assert files[1..][..n - 1] == files[..n][1..];
      assert Lines(files[n]) + Retained(files[1..][..n - 1]) + Lines(files[0])
          == Lines(files[n]) + (Retained(files[..n][1..]) + Lines(files[0]));
    }
  }

  lemma {:induction false} RotationDropsOldest(files: Files)
    requires files != []
    ensures Retained(files) == Lines(files[|files| - 1]) + Retained(Rotated(files))
  {
    OldestComesFirst(files);
    assert Rotated(files)[1..] == files[..|files| - 1];
    assert Retained(files[..|files| - 1]) + [] == Retained(files[..|files| - 1]);
  }

  lemma RotatedStaysOk(files: Files, maxBytes: nat)
    requires |files| >= 2 && LogOk(files, maxBytes)
    ensures forall g :: 0 <= g < |files| ==> FileOk(Rotated(files)[g], maxBytes)
    ensures forall g :: 1 <= g < |files| - 1 ==> NeighboursOk(Rotated(files)[g], Rotated(files)[g + 1], maxBytes)
  {
  }

  lemma AppendKeepsLogOk(files: Files, line: Line, maxBytes: nat)
    requires |files| >= 2 && LogOk(files, maxBytes)
    ensures LogOk(Appended(files, line, maxBytes), maxBytes)
  {
    var after := Appended(files, line, maxBytes);
    var current := Lines(files[0]);
    BytesOfOne(line);
    BytesConcat(current, [line]);
    if Overflows(files, line, maxBytes) {
      RotatedStaysOk(files, maxBytes);
      assert [] + [line] == [line];
      assert after[0] == Some([line]) && after[1] == files[0];
      assert NeighboursOk(after[0], after[0 + 1], maxBytes);
    } else {
      assert NeighboursOk(files[0], files[0 + 1], maxBytes);
    }
  }

  /** One append: a suffix of the history stays a suffix, and lines are only given up when every
      generation is in use. */
  lemma {:induction false} AppendExtendsSuffix(files: Files, history: seq<Line>, line: Line, maxBytes: nat, k: nat)
    returns (k': nat)
    requires |files| >= 2 && LogOk(files, maxBytes)
    requires k <= |history| && Retained(files) == history[k..]
    requires k > 0 ==> files[|files| - 1].Some?
    ensures k' <= |history| + 1
    ensures Retained(Appended(files, line, maxBytes)) == (history + [line])[k'..]
    ensures k' > 0 ==> Appended(files, line, maxBytes)[|files| - 1].Some?
  {
    if Overflows(files, line, maxBytes) {
      var oldest := Lines(files[|files| - 1]);
      RotationDropsOldest(files);
      RetainedOneMore(Rotated(files), line);
      k' := k + |oldest|;
      assert Retained(Rotated(files)) == Retained(files)[|oldest|..] == history[k'..];
      assert (history + [line])[k'..] == history[k'..] + [line];
      assert NeighboursOk(files[|files| - 2], files[|files| - 2 + 1], maxBytes);
    } else {
      RetainedOneMore(files, line);
      k' := k;
      assert (history + [line])[k..] == history[k..] + [line];
    }
  }

  lemma {:induction false} NothingRetained(files: Files)
    requires forall g :: 0 <= g < |files| ==> files[g] == None
    ensures Retained(files) == []
  {
    if files == [] {
    } else {
      NothingRetained(files[1..]);
    }
  }

  /** After any appends to an empty directory the files hold a contiguous suffix of them in order,
      cut into well-filled bounded files, and a line is missing only once every generation is in use. */
  lemma {:induction false} LogIsSuffixOfHistory(history: seq<Line>, maxBytes: nat, generations: nat) returns (k: nat)
    requires generations >= 1
    ensures LogOk(AppendAll(history, maxBytes, generations), maxBytes)
    ensures k <= |history| && Retained(AppendAll(history, maxBytes, generations)) == history[k..]
    ensures k > 0 ==> AppendAll(history, maxBytes, generations)[generations].Some?
  {
    if history == [] {
      NothingRetained(NoFiles(generations));
      k := 0;
    } else {
      var n := |history| - 1;
      var shorter, line := history[..n], history[n];
      assert history == shorter + [line];
      k := LogIsSuffixOfHistory(shorter, maxBytes, generations);
      var files := AppendAll(shorter, maxBytes, generations);
      AppendKeepsLogOk(files, line, maxBytes);
      k := AppendExtendsSuffix(files, shorter, line, maxBytes, k);
      assert AppendAll(history, maxBytes, generations) == Appended(files, line, maxBytes);
    }
  }

  lemma {:induction false} LoadedSplits<E>(history: seq<Line>, k: nat, decode: Line -> Option<E>, sanitize: E -> E)
    requires k <= |history|
    ensures Loaded(history, decode, sanitize)
         == Loaded(history[..k], decode, sanitize) + Loaded(history[k..], decode, sanitize)
  {
    LoadedConcat(history[..k], history[k..], decode, sanitize);
    assert history[..k] + history[k..] == history;
  }

  /** Loading a log of text lines gives exactly the readable entries of a suffix of the history. */
  lemma {:induction false} LoadingIsSuffixOfHistory<E>(history: seq<Line>, maxBytes: nat, generations: nat,
                                    isText: Line -> bool, decode: Line -> Option<E>, sanitize: E -> E)
    returns (k: nat)
    requires generations >= 1 && AllText(history, isText)
    ensures k <= |history|
    ensures Loaded(history, decode, sanitize)
         == Loaded(history[..k], decode, sanitize)
            + Loaded(Readable(AppendAll(history, maxBytes, generations), isText), decode, sanitize)
  {
    k := LogIsSuffixOfHistory(history, maxBytes, generations);
    TextIsReadable(AppendAll(history, maxBytes, generations), isText);
    LoadedSplits(history, k, decode, sanitize);
  }

  /** Files that are all present hold more than half of their joint space. */
  lemma {:induction false} RetainedBytes(files: Files, maxBytes: nat)
    requires LogOk(files, maxBytes) && forall g :: 0 <= g < |files| ==> files[g].Some?
    ensures Bytes(Retained(files)) >= |files| / 2 * maxBytes
    ensures |files| >= 2 ==> Bytes(Retained(files)) > |files| / 2 * maxBytes
  {
    if |files| >= 2 {
      var rest := files[2..];
      BytesConcat(Retained(files[1..]), Lines(files[0]));
      BytesConcat(Retained(rest), Lines(files[1]));
      assert files[1..][1..] == rest;
      assert NeighboursOk(files[0], files[0 + 1], maxBytes);
      TailIsOk(files, maxBytes);
      RetainedBytes(rest, maxBytes);
      HalfStep(|files|, maxBytes);
    }
  }

  lemma TailIsOk(files: Files, maxBytes: nat)
    requires |files| >= 2 && LogOk(files, maxBytes)
    ensures LogOk(files[2..], maxBytes)
  {
  }

  lemma {:induction false} HalfStep(n: nat, m: nat)
    requires n >= 2
    ensures n / 2 * m == (n - 2) / 2 * m + m
  {
    assert n / 2 == (n - 2) / 2 + 1;
  }

  lemma {:induction false} PresentUpTo(files: Files, maxBytes: nat, g: nat)
    requires LogOk(files, maxBytes) && g < |files| && files[g].Some?
    ensures forall i :: 0 <= i <= g ==> files[i].Some?
  {
    if g == 0 {
    } else {
      assert NeighboursOk(files[g - 1], files[g - 1 + 1], maxBytes);
      PresentUpTo(files, maxBytes, g - 1);
    }
  }

  /** The log never forgets early: as soon as one appended line is gone, what is left is more than
      half of the configured space. */
  lemma {:induction false} ForgettingLeavesMuch(history: seq<Line>, maxBytes: nat, generations: nat)
    requires generations >= 1
    requires Retained(AppendAll(history, maxBytes, generations)) != history
    ensures Bytes(Retained(AppendAll(history, maxBytes, generations))) > (generations + 1) / 2 * maxBytes
  {
    var k := LogIsSuffixOfHistory(history, maxBytes, generations);
    assert history[0..] == history;
    var files := AppendAll(history, maxBytes, generations);
    PresentUpTo(files, maxBytes, generations);
    RetainedBytes(files, maxBytes);
  }
}

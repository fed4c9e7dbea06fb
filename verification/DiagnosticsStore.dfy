/** The bounded diagnostics ring with its persistence and its queries. Ring, reloaded ring and query
    all agree with one plain append-only history of entries. */
module Diagnostics {
  import opened Bounded
  import opened Wrappers
  import opened Sanitizer
  import opened SanitizerForms
  import opened Sequences
  import opened Text
  import Log = RotatingLog

  const DEFAULT_QUERY_LIMIT := 250
  const MAX_QUERY_LIMIT := 1_000
  const MAX_EXPORT_ENTRIES := 10_000

  /** The JSON form of an entry and the UTF-8 test; writer and readers themselves are not part of this model. */
  datatype Codec = Codec(encode: Entry -> Log.Line, isText: Log.Line -> bool, decode: Log.Line -> Option<Entry>)

  /** The readers undo the writer on these entries, and none of their lines is too long to load. */
  predicate Faithful(rules: Rules, codec: Codec, entries: seq<Entry>) {
    forall i :: 0 <= i < |entries| ==>
      var line := codec.encode(SanitizeStoredEntry(rules, entries[i]));
      && codec.isText(line) && codec.decode(line) == Some(SanitizeStoredEntry(rules, entries[i]))
      && |line| <= Log.MAX_LOADED_LINE
  }

  datatype Query = Query(
    level: Option<Level>,
    target: Option<string>,
    search: Option<string>,
    after: Option<U64>,
    limit: Option<nat>)

  datatype Page = Page(items: seq<Entry>, total: nat, latestSequence: U64)

  // ---- The plain history ----

  /** Consecutive sequence numbers from `first` on; they stop counting at the largest u64. */
  function Numbered(entries: seq<Entry>, first: nat): seq<Entry> {
    seq(|entries|, i requires 0 <= i < |entries| => entries[i].(sequence := Min(first + i, U64_MAX)))
  }

  function SanitizeAll(rules: Rules, entries: seq<Entry>): seq<Entry> {
    Map(StoredSanitizer(rules), entries)
  }

  /** The log line of an entry: sanitized once more, then serialized. */
  function LineOf(rules: Rules, codec: Codec): Entry -> Log.Line {
    (e: Entry) => codec.encode(SanitizeStoredEntry(rules, e))
  }

  function EncodeAll(rules: Rules, codec: Codec, entries: seq<Entry>): seq<Log.Line> {
    Map(LineOf(rules, codec), entries)
  }

  function AppendEach(files: Log.Files, lines: seq<Log.Line>, maxBytes: nat): (after: Log.Files)
    requires files != []
    ensures |after| == |files|
  {
    if lines == [] then files
    else Log.Appended(AppendEach(files, lines[..|lines| - 1], maxBytes), lines[|lines| - 1], maxBytes)
  }

  function Push(entries: seq<Entry>, e: Entry, capacity: nat): seq<Entry> {
    LastN(entries + [e], capacity)
  }

  /** What the caller hands to `record`. */
  datatype Report = Report(timestamp: int, level: Level, target: string, message: string, fields: Fields)

  function Recorded(rules: Rules, r: Report, sequence: U64): Entry {
    Entry(sequence, r.timestamp, r.level, SanitizeTarget(r.target),
          if rules.isApproved(r.message) then r.message else FALLBACK_MESSAGE,
          SanitizedFields(rules, rules.order(r.fields)))
  }

  // ---- Queries ----

  function SafeValueDisplay(v: Value): string {
    match v
    case Str(text) => text
    case Boolean(b) => if b then "true" else "false"
    case Unsigned(n) => Digits(n)
    case _ => ""
  }

  predicate SearchHits(e: Entry, needle: string) {
    || Contains(Lower(e.message), needle)
    || Contains(Lower(e.target), needle)
    || exists name :: name in e.fields
        && (Contains(Lower(name), needle) || Contains(Lower(SafeValueDisplay(e.fields[name])), needle))
  }

  predicate Selected(e: Entry, q: Query) {
    && (q.after.Some? ==> e.sequence > q.after.value)
    && (q.level.Some? ==> e.level.Priority() >= q.level.value.Priority())
    && (q.target.Some? ==>
          var needle := Lower(Trimmed(q.target.value)); needle == "" || Contains(Lower(e.target), needle))
    && (q.search.Some? ==>
          var needle := Lower(q.search.value[..Min(|q.search.value|, 120)]); needle == "" || SearchHits(e, needle))
  }

  function Filtered(entries: seq<Entry>, q: Query): seq<Entry> {
    if entries == [] then []
    else
      var n := |entries| - 1;
      Filtered(entries[..n], q) + if Selected(entries[n], q) then [entries[n]] else []
  }

  function Clamp(limit: nat): nat {
    Min(Max(limit, 1), MAX_QUERY_LIMIT)
  }

  datatype Ring = Ring(entries: seq<Entry>, next: U64)

  /** The ring that replaying entries from scratch gives: sanitized, numbered from 1, newest kept. */
  function Replayed(rules: Rules, chain: seq<Entry>, capacity: nat): Ring {
    Ring(LastN(Numbered(SanitizeAll(rules, chain), 1), capacity), Min(1 + |chain|, U64_MAX))
  }

  /** The sanitized entries a log directory holds. */
  function Persisted(rules: Rules, codec: Codec, files: Log.Files): seq<Entry> {
    Log.Loaded(Log.Readable(files, codec.isText), codec.decode, StoredSanitizer(rules))
  }

  // ---- Nothing but clean entries ----

  ghost predicate AllClean(rules: Rules, entries: seq<Entry>) {
    forall i :: 0 <= i < |entries| ==> Clean(rules, entries[i])
  }

  lemma RecordedIsClean(rules: Rules, r: Report, n: U64)
    ensures Clean(rules, Recorded(rules, r, n))
  {
    SanitizedIsClean(rules, rules.order(r.fields));
    TargetIsText(r.target);
  }

  lemma PushIsClean(rules: Rules, entries: seq<Entry>, e: Entry, capacity: nat)
    requires AllClean(rules, entries) && Clean(rules, e)
    ensures AllClean(rules, Push(entries, e, capacity))
  {
  }

  lemma ReplayedIsClean(rules: Rules, chain: seq<Entry>, capacity: nat)
    ensures AllClean(rules, Replayed(rules, chain, capacity).entries)
  {
    forall i | 0 <= i < |chain|
      ensures Clean(rules, Numbered(SanitizeAll(rules, chain), 1)[i])
    {
      StoredIsClean(rules, chain[i]);
    }
  }

  /** The line is the JSON form of some clean entry. */
  ghost predicate CleanLine(rules: Rules, codec: Codec, line: Log.Line) {
    exists e :: Clean(rules, e) && codec.encode(e) == line
  }

  lemma LineIsClean(rules: Rules, codec: Codec, e: Entry)
    ensures CleanLine(rules, codec, LineOf(rules, codec)(e))
  {
    StoredIsClean(rules, e);
    assert codec.encode(SanitizeStoredEntry(rules, e)) == LineOf(rules, codec)(e);
  }

  class Store {
    const capacity: nat
    const rules: Rules
    const codec: Codec
    var entries: seq<Entry>
    var next: U64
    var sink: Log.RotatingJsonl?
    var directory: Option<string>

    ghost predicate Valid()
      reads this, sink
    {
      && capacity >= 1 && |entries| <= capacity && (sink != null ==> sink.Valid())
      && AllClean(rules, entries)
    }

    constructor (capacity: nat, rules: Rules, codec: Codec)
      ensures Valid() && fresh(this)
      ensures entries == [] && next == 1 && sink == null && directory == None
      ensures this.capacity == Max(capacity, 1) && this.rules == rules && this.codec == codec
    {
      this.capacity := Max(capacity, 1);
      this.rules := rules;
      this.codec := codec;
      entries := [];
      next := 1;
      sink := null;
      directory := None;
    }

    method PushBounded(e: Entry)
      requires capacity >= 1 && |entries| <= capacity
      modifies this`entries
      ensures |entries| <= capacity
      ensures entries == Push(old(entries), e, capacity)
    {
      if |entries| == capacity {
        entries := entries[1..];
      }
      entries := entries + [e];
    }

    method Record(report: Report)
      requires Valid()
      modifies this`entries, this`next, sink
      ensures Valid()
      ensures next == Min(old(next) + 1, U64_MAX)
      ensures entries == Push(old(entries), Recorded(rules, report, old(next)), capacity)
      ensures sink != null ==>
                sink.files == Log.Appended(old(sink.files), LineOf(rules, codec)(Recorded(rules, report, old(next))),
                                           sink.maxBytes)
      ensures CleanLine(rules, codec, LineOf(rules, codec)(Recorded(rules, report, old(next))))
    {
      LineIsClean(rules, codec, Recorded(rules, report, next));
      var e := Recorded(rules, report, next);
      RecordedIsClean(rules, report, next);
      PushIsClean(rules, entries, e, capacity);
      next := SaturatingAddU64(next, 1);
      PushBounded(e);
      if sink != null {
        sink.Append(codec.encode(SanitizeStoredEntry(rules, e)));
      }
    }

    /** Opens a log: the ring becomes the newest of the sanitized persisted and early entries, and
        the early ones are appended to the log. A log of the same directory changes nothing. */
    method ConfigurePersistence(where: string, log: Log.RotatingJsonl)
      requires Valid() && log.Valid() && sink != log
      modifies this, log
      ensures Valid()
      ensures if old(sink) != null && old(directory) == Some(where) then
                entries == old(entries) && next == old(next) && sink == old(sink) && log.files == old(log.files)
              else
                && Ring(entries, next)
                    == Replayed(rules, Persisted(rules, codec, old(log.files)) + old(entries), capacity)
                && sink == log && directory == Some(where)
                && log.files == AppendEach(old(log.files), EncodeAll(rules, codec, old(entries)), log.maxBytes)
    {
      var persisted := log.LoadSanitized(codec.isText, codec.decode, StoredSanitizer(rules));
      if sink != null && directory == Some(where) {
        return;
      }
      var early := entries;
      ReplayedIsClean(rules, persisted + early, capacity);
      Replay(persisted + early);
      AppendEarly(log, early);
      sink := log;
      directory := Some(where);
    }

    /** Refills the ring from scratch, renumbering as it goes. */
    method Replay(chain: seq<Entry>)
      requires capacity >= 1
      modifies this`entries, this`next
      ensures Ring(entries, next) == Replayed(rules, chain, capacity)
    {
      entries := [];
      next := 1;
      ghost var all := SanitizeAll(rules, chain);
      for i := 0 to |chain|
        invariant next == Min(1 + i, U64_MAX) && |entries| <= capacity
        invariant entries == LastN(Numbered(all[..i], 1), capacity)
      {
        var e := SanitizeStoredEntry(rules, chain[i]);
        ReplayOneMore(all, i, entries, capacity);
        PushBounded(e.(sequence := next));
        next := SaturatingAddU64(next, 1);
      }
      assert all[..|chain|] == all;
    }

    method AppendEarly(log: Log.RotatingJsonl, early: seq<Entry>)
      requires log.Valid()
      modifies log
      ensures log.Valid()
      ensures log.files == AppendEach(old(log.files), EncodeAll(rules, codec, early), log.maxBytes)
    {
      ghost var lines := EncodeAll(rules, codec, early);
      for i := 0 to |early|
        invariant log.Valid() && log.files == AppendEach(old(log.files), lines[..i], log.maxBytes)
      {
        assert lines[..i + 1][..i] == lines[..i];
        log.Append(codec.encode(SanitizeStoredEntry(rules, early[i])));
      }
      assert lines[..|early|] == lines;
    }

    /** The newest selected entries, newest first, and how many are selected in all. */
    method RunQuery(q: Query) returns (page: Page)
      ensures page.total == |Filtered(entries, q)|
      ensures page.items == Reversed(LastN(Filtered(entries, q), Clamp(q.limit.GetOr(DEFAULT_QUERY_LIMIT))))
      ensures |page.items| == Min(page.total, if q.limit.None? then 250 else Max(1, Min(q.limit.value, 1_000)))
      ensures page.latestSequence == Max(next - 1, 0)
    {
      var items := Select(q);
      var total := |items|;
      items := Reversed(items);
      var limit := Clamp(q.limit.GetOr(DEFAULT_QUERY_LIMIT));
      if |items| > limit {
        items := items[..limit];
      }
      page := Page(items, total, Max(next - 1, 0));
    }

    method Select(q: Query) returns (items: seq<Entry>)
      ensures items == Filtered(entries, q)
    {
      items := [];
      for i := 0 to |entries|
        invariant items == Filtered(entries[..i], q)
      {
        assert entries[..i + 1][..i] == entries[..i];
        if Selected(entries[i], q) {
          items := items + [entries[i]];
        }
      }
      assert entries[..|entries|] == entries;
    }

    /** The newest selected entries, oldest first, sanitized once more, one line each. */
    method ExportJsonl(q: Query) returns (lines: seq<Log.Line>)
      ensures lines == EncodeAll(rules, codec, LastN(Filtered(entries, q), MAX_EXPORT_ENTRIES))
      ensures |lines| == Min(|Filtered(entries, q)|, 10_000)
      ensures forall i :: 0 <= i < |lines| ==> CleanLine(rules, codec, lines[i])
    {
      var items := Select(q);
      items := LastN(items, MAX_EXPORT_ENTRIES);
      lines := [];
      for i := 0 to |items|
        invariant lines == EncodeAll(rules, codec, items)[..i]
        invariant forall k :: 0 <= k < i ==> CleanLine(rules, codec, lines[k])
      {
        LineIsClean(rules, codec, items[i]);
        lines := lines + [codec.encode(SanitizeStoredEntry(rules, items[i]))];
      }
    }
  }

  // ---- The ring ----

  lemma ReplayOneMore(all: seq<Entry>, i: nat, entries: seq<Entry>, capacity: nat)
    requires capacity >= 1 && i < |all| && entries == LastN(Numbered(all[..i], 1), capacity)
    ensures Push(entries, all[i].(sequence := Min(1 + i, U64_MAX)), capacity)
        == LastN(Numbered(all[..i + 1], 1), capacity)
  {
    assert all[..i + 1] == all[..i] + [all[i]];
    NumberAppend(all[..i], all[i], 1);
    PushOntoLast(Numbered(all[..i], 1), all[i].(sequence := Min(1 + i, U64_MAX)), capacity);
  }

  lemma NumberAppend(entries: seq<Entry>, e: Entry, first: nat)
    ensures Numbered(entries + [e], first)
        == Numbered(entries, first) + [e.(sequence := Min(first + |entries|, U64_MAX))]
  {
  }

  function RecordOne(rules: Rules, ring: Ring, r: Report, capacity: nat): Ring {
    Ring(Push(ring.entries, Recorded(rules, r, ring.next), capacity), Min(ring.next + 1, U64_MAX))
  }

  /** The ring after a run of records. */
  function RecordAll(rules: Rules, ring: Ring, reports: seq<Report>, capacity: nat): Ring {
    if reports == [] then ring
    else RecordOne(rules, RecordAll(rules, ring, reports[..|reports| - 1], capacity), reports[|reports| - 1], capacity)
  }

  /** The same records as one plain history. */
  function History(rules: Rules, reports: seq<Report>): seq<Entry> {
    Map((r: Report) => Recorded(rules, r, 0), reports)
  }

  /** Between configurations the ring is the newest `capacity` of everything before and since, and the
      new entries are numbered consecutively. */
  lemma {:induction false} RingIsEndOfHistory(rules: Rules, start: Ring, before: seq<Entry>, reports: seq<Report>,
                                              capacity: nat)
    requires capacity >= 1 && start.entries == LastN(before, capacity)
    ensures var ring := RecordAll(rules, start, reports, capacity);
            && ring.entries == LastN(before + Numbered(History(rules, reports), start.next), capacity)
            && ring.next == Min(start.next + |reports|, U64_MAX)
  {
    if reports == [] {
      assert before + Numbered(History(rules, reports), start.next) == before;
    } else {
      var n := |reports| - 1;
      RingIsEndOfHistory(rules, start, before, reports[..n], capacity);
      var prior := before + Numbered(History(rules, reports[..n]), start.next);
      var e := Recorded(rules, reports[n], Min(start.next + n, U64_MAX));
      PushOntoLast(prior, e, capacity);
      NumberOneMore(rules, reports, start.next);
      assert prior + [e] == before + Numbered(History(rules, reports), start.next);
    }
  }

  lemma NumberOneMore(rules: Rules, reports: seq<Report>, first: nat)
    requires reports != []
    ensures Numbered(History(rules, reports), first)
         == Numbered(History(rules, reports[..|reports| - 1]), first)
            + [Recorded(rules, reports[|reports| - 1], Min(first + |reports| - 1, U64_MAX))]
  {
    var n := |reports| - 1;
    assert reports == reports[..n] + [reports[n]];
    assert History(rules, reports) == History(rules, reports[..n]) + [Recorded(rules, reports[n], 0)];
    NumberAppend(History(rules, reports[..n]), Recorded(rules, reports[n], 0), first);
  }

  // ---- Reload ----

  /** Content without the sequence number, which restarts on every configuration. */
  function ContentOf(rules: Rules): Entry -> Entry {
    (e: Entry) => SanitizeStoredEntry(rules, e).(sequence := 0)
  }

  function Content(rules: Rules, entries: seq<Entry>): seq<Entry> {
    Map(ContentOf(rules), entries)
  }

  lemma {:induction false} PersistedIsSanitized(rules: Rules, codec: Codec, files: Log.Files, kept: seq<Entry>)
    requires Faithful(rules, codec, kept) && Log.Retained(files) == EncodeAll(rules, codec, kept)
    ensures Persisted(rules, codec, files) == SanitizeAll(rules, SanitizeAll(rules, kept))
  {
    Log.TextIsReadable(files, codec.isText);
    Log.LoadedOfEncoded(EncodeAll(rules, codec, kept), SanitizeAll(rules, kept), codec.decode, StoredSanitizer(rules));
  }

  /** A ring reloaded from the log a run has written, as ConfigurePersistence builds it. */
  function Reloaded(rules: Rules, codec: Codec, files: Log.Files, capacity: nat): seq<Entry> {
    Replayed(rules, Persisted(rules, codec, files), capacity).entries
  }

  predicate AllReasonable(rules: Rules, entries: seq<Entry>) {
    forall i :: 0 <= i < |entries| ==> Reasonable(rules, entries[i])
  }

  /** Ring and log agree. After any records since a fresh start with an empty log, the ring and the
      ring a restart reloads from disk are, up to renumbering, both the end of the one sanitized
      history; the reloaded one misses older entries only when the log has rotated them out. */
  lemma {:induction false} RestartAgreesWithRing(rules: Rules, codec: Codec, history: seq<Entry>, capacity: nat,
                                                 maxBytes: nat, generations: nat)
    returns (k: nat)
    requires LawfulOrder(rules) && capacity >= 1 && generations >= 1
    requires Faithful(rules, codec, history) && AllReasonable(rules, history)
    ensures k <= |history|
    ensures var files := Log.AppendAll(EncodeAll(rules, codec, history), maxBytes, generations);
            && Log.Retained(files) == EncodeAll(rules, codec, history)[k..]
            && Content(rules, Reloaded(rules, codec, files, capacity)) == LastN(Content(rules, history)[k..], capacity)
            && Content(rules, LastN(history, capacity)) == LastN(Content(rules, history), capacity)
            && (k > 0 ==> Log.Bytes(Log.Retained(files)) > (generations + 1) / 2 * maxBytes)
  {
    var lines := EncodeAll(rules, codec, history);
    k := Log.LogIsSuffixOfHistory(lines, maxBytes, generations);
    var files := Log.AppendAll(lines, maxBytes, generations);
    MapDrop(LineOf(rules, codec), history, k);
    PersistedIsSanitized(rules, codec, files, history[k..]);
    ReloadedContent(rules, codec, files, history[k..], capacity);
    MapDrop(ContentOf(rules), history, k);
    MapLastN(ContentOf(rules), history, capacity);
    if k > 0 {
      Log.PresentUpTo(files, maxBytes, generations);
      Log.RetainedBytes(files, maxBytes);
    }
  }

  lemma {:induction false} ReloadedContent(rules: Rules, codec: Codec, files: Log.Files, kept: seq<Entry>,
                                           capacity: nat)
    requires LawfulOrder(rules)
    requires AllReasonable(rules, kept)
    requires Persisted(rules, codec, files) == SanitizeAll(rules, SanitizeAll(rules, kept))
    ensures Content(rules, Reloaded(rules, codec, files, capacity)) == LastN(Content(rules, kept), capacity)
  {
    var once := SanitizeAll(rules, kept);
    forall i | 0 <= i < |once|
      ensures StoredSanitizer(rules)(once[i]) == once[i]
    {
      StoredEntrySanitizedTwice(rules, kept[i]);
    }
    MapUnchanged(StoredSanitizer(rules), once);
    assert Reloaded(rules, codec, files, capacity) == LastN(Numbered(once, 1), capacity);
    MapLastN(ContentOf(rules), Numbered(once, 1), capacity);
    forall i | 0 <= i < |kept|
      ensures Content(rules, Numbered(once, 1))[i] == Content(rules, kept)[i]
    {
      SequenceDoesNotMatter(rules, once[i], Min(1 + i, U64_MAX));
      assert StoredSanitizer(rules)(once[i]) == once[i];
    }
    assert Content(rules, Numbered(once, 1)) == Content(rules, kept);
  }

  lemma SequenceDoesNotMatter(rules: Rules, e: Entry, n: U64)
    ensures ContentOf(rules)(e.(sequence := n)) == StoredSanitizer(rules)(e).(sequence := 0)
  {
  }

  /** A service that starts with an empty log, records, and is restarted: the reloaded ring has the content
      of the ring before the restart, except for the entries whose lines the log has rotated out, `k` of
      all that were recorded. */
  lemma {:induction false} RestartReloadsTheRing(rules: Rules, codec: Codec, reports: seq<Report>, capacity: nat,
                                                 maxBytes: nat, generations: nat)
    returns (k: nat)
    requires LawfulOrder(rules) && capacity >= 1 && generations >= 1
    requires var history := Numbered(History(rules, reports), 1);
             Faithful(rules, codec, history) && AllReasonable(rules, history)
    ensures k <= |reports|
    ensures var ring := RecordAll(rules, Ring([], 1), reports, capacity);
            var lines := EncodeAll(rules, codec, Numbered(History(rules, reports), 1));
            var files := Log.AppendAll(lines, maxBytes, generations);
            && Log.Retained(files) == lines[k..]
            && Content(rules, Reloaded(rules, codec, files, capacity))
                == LastN(Content(rules, ring.entries), |reports| - k)
            && (k > 0 ==> Log.Bytes(Log.Retained(files)) > (generations + 1) / 2 * maxBytes)
  {
    var history := Numbered(History(rules, reports), 1);
    RingFromScratch(rules, reports, capacity);
    k := RestartAgreesWithRing(rules, codec, history, capacity, maxBytes, generations);
    var content := Content(rules, history);
    LastOfSuffix(content, k, capacity);
    assert |content| == |reports|;
  }

  lemma {:induction false} RingFromScratch(rules: Rules, reports: seq<Report>, capacity: nat)
    requires capacity >= 1
    ensures RecordAll(rules, Ring([], 1), reports, capacity).entries
        == LastN(Numbered(History(rules, reports), 1), capacity)
  {
    RingIsEndOfHistory(rules, Ring([], 1), [], reports, capacity);
    assert [] + Numbered(History(rules, reports), 1) == Numbered(History(rules, reports), 1);
  }

  /** The newest of a suffix are the newest of all, as far as the suffix reaches. */
  lemma LastOfSuffix<T>(s: seq<T>, k: nat, n: nat)
    requires k <= |s|
    ensures LastN(s[k..], n) == LastN(LastN(s, n), |s| - k)
  {
  }

  // ---- What a query returns ----

  predicate Increasing(entries: seq<Entry>) {
    forall i, k :: 0 <= i < k < |entries| ==> entries[i].sequence < entries[k].sequence
  }

  lemma {:induction false} FilteredIsSubsequence(entries: seq<Entry>, q: Query)
    requires Increasing(entries)
    ensures Increasing(Filtered(entries, q))
    ensures forall e :: e in Filtered(entries, q) <==> e in entries && Selected(e, q)
  {
    if entries == [] {
    } else {
      var n := |entries| - 1;
      assert entries == entries[..n] + [entries[n]];
      FilteredIsSubsequence(entries[..n], q);
      var before := Filtered(entries[..n], q);
      forall i | 0 <= i < |before|
        ensures before[i].sequence < entries[n].sequence
      {
        assert before[i] in entries[..n];
      }
    }
  }

  /** Everything left out of the newest `limit` is older than all of them, and then they are full. */
  predicate OlderThanPage(e: Entry, page: seq<Entry>, limit: nat) {
    |page| == limit && forall i :: 0 <= i < |page| ==> e.sequence < page[i].sequence
  }

  lemma NewestFirst(found: seq<Entry>, limit: nat)
    requires Increasing(found) && limit >= 1
    ensures var page := Reversed(LastN(found, limit));
            && |page| <= limit
            && (forall i, k :: 0 <= i < k < |page| ==> page[i].sequence > page[k].sequence)
            && (forall i :: 0 <= i < |page| ==> page[i] in found)
            && (forall j :: 0 <= j < |found| ==> found[j] in page || OlderThanPage(found[j], page, limit))
  {
    var newest := LastN(found, limit);
    var page := Reversed(newest);
    forall j | 0 <= j < |found|
      ensures found[j] in page || OlderThanPage(found[j], page, limit)
    {
      if j >= |found| - |newest| {
        assert page[|found| - 1 - j] == found[j];
      }
    }
  }

  /** A page is newest first, holds only selected entries after the cursor, and an entry it leaves out
      although selected is older than everything on a full page. */
  lemma {:induction false} PageIsNewestFirst(entries: seq<Entry>, q: Query, limit: nat)
    requires Increasing(entries) && limit >= 1
    ensures var page := Reversed(LastN(Filtered(entries, q), limit));
            && |page| <= limit
            && (forall i, k :: 0 <= i < k < |page| ==> page[i].sequence > page[k].sequence)
            && (forall i :: 0 <= i < |page| ==> page[i] in entries && Selected(page[i], q))
            && (forall e :: e in entries && Selected(e, q) && e !in page ==> OlderThanPage(e, page, limit))
  {
    FilteredIsSubsequence(entries, q);
    NewestFirst(Filtered(entries, q), limit);
  }

  /** The entries of a ring are numbered increasingly as long as the counter has not stopped. */
  lemma RingIsIncreasing(entries: seq<Entry>, first: nat, capacity: nat)
    requires first + |entries| <= U64_MAX
    ensures Increasing(LastN(Numbered(entries, first), capacity))
  {
  }
}

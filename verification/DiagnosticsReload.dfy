/** When a record survives a restart exactly: its message must be the one its diagnostic code implies, and
    every caller of the store sees to that. */
module DiagnosticsReload {
  import opened Bounded
  import opened Diagnostics
  import opened Sanitizer
  import opened Sequences
  import opened Wrappers
  import Log = RotatingLog

  const CODE := "diagnosticCode"
  const CODE_ALIAS := "diagnostic_code"

  // ---- One record ----

  /** The recorded message is the one that the recorded fields imply. */
  predicate Implied(rules: Rules, r: Report) {
    Recorded(rules, r, 0).message == MessageOf(rules, Recorded(rules, r, 0).fields)
  }

  predicate IsStored(rules: Rules, e: Entry) {
    SanitizeStoredEntry(rules, e) == e
  }

  /** A record goes to the log and back unchanged if and only if its message is the implied one and the
      count of its removed fields is itself a field that survives. */
  lemma {:induction false} RecordedIsStoredIff(rules: Rules, r: Report, sequence: U64)
    requires LawfulOrder(rules)
    ensures IsStored(rules, Recorded(rules, r, sequence))
       <==> Implied(rules, r) && Removed(rules, rules.order(r.fields)) <= MAX_COUNT
  {
    var e := Recorded(rules, r, sequence);
    assert Enumerates(rules.order(e.fields), e.fields);
    SanitizedTwice(rules, rules.order(r.fields), rules.order(e.fields));
    assert IsTarget(FALLBACK_TARGET);
  }

  // ---- The callers of the store ----

  /** Every message of the code table is also on the list of approved messages. */
  ghost predicate ApprovedTable(rules: Rules) {
    forall code: string :: rules.messageForCode(code).Some? ==> rules.isApproved(rules.messageForCode(code).value)
  }

  lemma {:induction false} KeptWithoutCode(rules: Rules, items: seq<(string, Value)>)
    requires !HasName(items, CODE) && !HasName(items, CODE_ALIAS)
    ensures CODE !in Kept(rules, items)
  {
    if items == [] {
    } else {
      var n := |items| - 1;
      HasNameSplits(items, CODE);
      HasNameSplits(items, CODE_ALIAS);
      KeptWithoutCode(rules, items[..n]);
    }
  }

  /** Sanitizing fields changes nothing about the message they imply. */
  lemma {:induction false} KeptImpliesTheSame(rules: Rules, items: seq<(string, Value)>)
    requires DistinctNames(items) && !HasName(items, CODE_ALIAS)
    ensures MessageOf(rules, Kept(rules, items)) == MessageOf(rules, Listed(items))
  {
    if items == [] {
    } else {
      var n := |items| - 1;
      HasNameSplits(items, CODE_ALIAS);
      if items[n].0 == CODE {
        assert !HasName(items[..n], CODE);
        KeptWithoutCode(rules, items[..n]);
      } else {
        assert items[n].0 != CODE_ALIAS;
        KeptImpliesTheSame(rules, items[..n]);
      }
    }
  }

  /** A caller that passes the message its own fields imply records just that message. */
  lemma CallersImplyTheirMessage(rules: Rules, r: Report)
    requires LawfulOrder(rules) && ApprovedTable(rules)
    requires CODE_ALIAS !in r.fields && r.message == MessageOf(rules, r.fields)
    ensures Implied(rules, r)
  {
    var items := rules.order(r.fields);
    assert Enumerates(items, r.fields);
    ListedNames(items);
    KeptImpliesTheSame(rules, items);
    assert REDACTED_COUNT != CODE;
  }

  /** What the tracing layer hands over: the sanitized values of an event, a count of what it dropped, the
      source position, and the message its code implies. */
  function LayerReport(rules: Rules, timestamp: int, level: Level, target: string,
                       values: seq<(string, Value)>, dropped: nat, source: Option<string>): Report
  {
    var kept := Kept(rules, values);
    var counted := if dropped > 0 then kept[REDACTED_COUNT := Unsigned(Min(dropped, U64_MAX))] else kept;
    Report(timestamp, level, target, MessageOf(rules, counted),
           if source.Some? then counted["source" := Str(source.value)] else counted)
  }

  /** The layer's report has the event's kept fields, the count of dropped ones if there are any, and the
      source position. */
  lemma {:induction false} LayerReportHas(rules: Rules, timestamp: int, level: Level, target: string,
                                          values: seq<(string, Value)>, dropped: nat, source: Option<string>,
                                          name: string)
    ensures var fields := LayerReport(rules, timestamp, level, target, values, dropped, source).fields;
            var kept := Kept(rules, values);
            if name == "source" && source.Some? then name in fields && fields[name] == Str(source.value)
            else if name == "redactedFieldCount" && dropped > 0 then
              name in fields && fields[name] == Unsigned(Min(dropped, U64_MAX))
            else (name in fields <==> name in kept) && (name in kept ==> fields[name] == kept[name])
  {
  }

  /** Whatever an event carries, the layer's record survives a restart exactly. */
  lemma LayerReportsAreImplied(rules: Rules, timestamp: int, level: Level, target: string,
                               values: seq<(string, Value)>, dropped: nat, source: Option<string>)
    requires LawfulOrder(rules) && ApprovedTable(rules)
    ensures Implied(rules, LayerReport(rules, timestamp, level, target, values, dropped, source))
  {
    var r := LayerReport(rules, timestamp, level, target, values, dropped, source);
    KeptIsStable(rules, values);
    assert CODE_ALIAS !in r.fields by {
      assert CODE_ALIAS in Kept(rules, values) ==> Stable(rules, CODE_ALIAS, Kept(rules, values)[CODE_ALIAS]);
    }
    assert REDACTED_COUNT != CODE && "source" != CODE;
    CallersImplyTheirMessage(rules, r);
  }

  // ---- Exact reload ----

  predicate AllStored(rules: Rules, entries: seq<Entry>) {
    forall i :: 0 <= i < |entries| ==> IsStored(rules, entries[i])
  }

  lemma SanitizingStoredChangesNothing(rules: Rules, entries: seq<Entry>)
    requires AllStored(rules, entries)
    ensures SanitizeAll(rules, entries) == entries
  {
  }

  lemma {:induction false} ReloadedExactly(rules: Rules, codec: Codec, files: Log.Files, kept: seq<Entry>,
                                           capacity: nat)
    requires AllStored(rules, kept) && Faithful(rules, codec, kept)
    requires Log.Retained(files) == EncodeAll(rules, codec, kept)
    ensures Reloaded(rules, codec, files, capacity) == LastN(Numbered(kept, 1), capacity)
  {
    PersistedIsSanitized(rules, codec, files, kept);
    SanitizingStoredChangesNothing(rules, kept);
  }

  /** After any stored entries the reloaded ring is the end of the history itself, renumbered from 1: all
      of it but the `k` oldest lines, which the log has rotated out. */
  lemma {:induction false} ReloadIsExact(rules: Rules, codec: Codec, history: seq<Entry>, capacity: nat,
                                         maxBytes: nat, generations: nat)
    returns (k: nat)
    requires generations >= 1 && AllStored(rules, history) && Faithful(rules, codec, history)
    ensures k <= |history|
    ensures var files := Log.AppendAll(EncodeAll(rules, codec, history), maxBytes, generations);
            && Log.Retained(files) == EncodeAll(rules, codec, history)[k..]
            && Reloaded(rules, codec, files, capacity) == LastN(Numbered(history[k..], 1), capacity)
            && (k > 0 ==> Log.Bytes(Log.Retained(files)) > (generations + 1) / 2 * maxBytes)
  {
    var lines := EncodeAll(rules, codec, history);
    k := Log.LogIsSuffixOfHistory(lines, maxBytes, generations);
    var files := Log.AppendAll(lines, maxBytes, generations);
    MapDrop(LineOf(rules, codec), history, k);
    ReloadedExactly(rules, codec, files, history[k..], capacity);
    if k > 0 {
      Log.PresentUpTo(files, maxBytes, generations);
      Log.RetainedBytes(files, maxBytes);
    }
  }

  function Unnumbered(entries: seq<Entry>): seq<Entry> {
    Map((e: Entry) => e.(sequence := 0), entries)
  }

  lemma NumberingDoesNotMatter(entries: seq<Entry>, first: nat)
    ensures Unnumbered(Numbered(entries, first)) == Unnumbered(entries)
  {
  }

  lemma {:induction false} RecordsAreStored(rules: Rules, reports: seq<Report>)
    requires LawfulOrder(rules)
    requires forall i :: 0 <= i < |reports| ==>
               Implied(rules, reports[i]) && Removed(rules, rules.order(reports[i].fields)) <= MAX_COUNT
    ensures AllStored(rules, Numbered(History(rules, reports), 1))
  {
    forall i | 0 <= i < |reports|
      ensures IsStored(rules, Numbered(History(rules, reports), 1)[i])
    {
      RecordedIsStoredIff(rules, reports[i], Min(1 + i, U64_MAX));
    }
  }

  /** A service whose callers imply their messages, restarted after any records: apart from sequence numbers
      the reloaded ring is exactly the ring before the restart, message and all, up to rotated-out lines. */
  lemma {:induction false} RestartIsExact(rules: Rules, codec: Codec, reports: seq<Report>, capacity: nat,
                                          maxBytes: nat, generations: nat)
    returns (k: nat)
    requires LawfulOrder(rules) && capacity >= 1 && generations >= 1
    requires forall i :: 0 <= i < |reports| ==>
               Implied(rules, reports[i]) && Removed(rules, rules.order(reports[i].fields)) <= MAX_COUNT
    requires Faithful(rules, codec, Numbered(History(rules, reports), 1))
    ensures k <= |reports|
    ensures var ring := RecordAll(rules, Ring([], 1), reports, capacity);
            var lines := EncodeAll(rules, codec, Numbered(History(rules, reports), 1));
            var files := Log.AppendAll(lines, maxBytes, generations);
            && Log.Retained(files) == lines[k..]
            && Unnumbered(Reloaded(rules, codec, files, capacity)) == LastN(Unnumbered(ring.entries), |reports| - k)
  {
    var history := Numbered(History(rules, reports), 1);
    RecordsAreStored(rules, reports);
    k := ReloadIsExact(rules, codec, history, capacity, maxBytes, generations);
    RingFromScratch(rules, reports, capacity);
    RenumberedEnds(history, k, capacity);
  }

  lemma RenumberedEnds(history: seq<Entry>, k: nat, capacity: nat)
    requires k <= |history|
    ensures Unnumbered(LastN(Numbered(history[k..], 1), capacity))
        == LastN(Unnumbered(LastN(history, capacity)), |history| - k)
  {
    var unnumber := (e: Entry) => e.(sequence := 0);
    MapLastN(unnumber, Numbered(history[k..], 1), capacity);
    MapLastN(unnumber, history, capacity);
    NumberingDoesNotMatter(history[k..], 1);
    MapDrop(unnumber, history, k);
    LastOfSuffix(Unnumbered(history), k, capacity);
  }

  // ---- Entries recorded before the log was opened ----

  lemma {:induction false} AppendEachConcat(files: Log.Files, left: seq<Log.Line>, right: seq<Log.Line>, maxBytes: nat)
    requires files != []
    ensures AppendEach(AppendEach(files, left, maxBytes), right, maxBytes) == AppendEach(files, left + right, maxBytes)
  {
    if right == [] {
      assert left + right == left;
    } else {
      var n := |right| - 1;
      AppendEachConcat(files, left, right[..n], maxBytes);
      assert (left + right)[..|left + right| - 1] == left + right[..n];
    }
  }

  lemma {:induction false} AppendEachIsAppendAll(lines: seq<Log.Line>, maxBytes: nat, generations: nat)
    ensures AppendEach(Log.NoFiles(generations), lines, maxBytes) == Log.AppendAll(lines, maxBytes, generations)
  {
    if lines == [] {
    } else {
      AppendEachIsAppendAll(lines[..|lines| - 1], maxBytes, generations);
    }
  }

  /** Opening an empty log late loses nothing that was still in the ring: the early entries, appended when
      the log is opened, and the later ones reload as one history. */
  lemma {:induction false} EarlyEntriesReload(rules: Rules, codec: Codec, early: seq<Entry>, later: seq<Entry>,
                                              capacity: nat, maxBytes: nat, generations: nat)
    returns (k: nat)
    requires generations >= 1 && AllStored(rules, early + later) && Faithful(rules, codec, early + later)
    ensures k <= |early + later|
    ensures var configured := AppendEach(Log.NoFiles(generations), EncodeAll(rules, codec, early), maxBytes);
            var files := AppendEach(configured, EncodeAll(rules, codec, later), maxBytes);
            && Log.Retained(files) == EncodeAll(rules, codec, early + later)[k..]
            && Reloaded(rules, codec, files, capacity) == LastN(Numbered((early + later)[k..], 1), capacity)
  {
    var lines := EncodeAll(rules, codec, early + later);
    assert lines == EncodeAll(rules, codec, early) + EncodeAll(rules, codec, later);
    AppendEachConcat(Log.NoFiles(generations), EncodeAll(rules, codec, early), EncodeAll(rules, codec, later),
        maxBytes);
    AppendEachIsAppendAll(lines, maxBytes, generations);
    k := ReloadIsExact(rules, codec, early + later, capacity, maxBytes, generations);
  }
}

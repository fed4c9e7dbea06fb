/** The diagnostics sanitizer: which fields survive, in which shape, and when sanitizing what was
    already sanitized changes nothing. */
module Sanitizer {
  import opened Bounded
  import opened Wrappers
  import opened Text

  const MAX_COUNT := 1_000_000_000_000
  const REDACTED := "[REDACTED]"
  const FALLBACK_MESSAGE := "Application diagnostic event"
  const FALLBACK_TARGET := "audiobookai"
  const REDACTED_COUNT := "redactedFieldCount"

  /** A JSON value. Numbers that are not unsigned integers, arrays, objects and null never survive,
      so what they hold does not matter here. */
  datatype Value = Unsigned(n: U64) | OtherNumber | Str(text: string) | Boolean(b: bool) | Other

  datatype Level = Trace | Debug | Info | Warn | Error {
    function Priority(): nat {
      match this
      case Trace => 0
      case Debug => 1
      case Info => 2
      case Warn => 3
      case Error => 4
    }
  }

  type Fields = map<string, Value>

  datatype Entry = Entry(
    sequence: U64,
    timestamp: int,
    level: Level,
    target: string,
    message: string,
    fields: Fields)

  /** Where one redaction pattern matches: start and end of each match, left to right. */
  type Pattern = string -> seq<(nat, nat)>

  /** What the sanitizer takes from outside this model: the UUID parser, the redaction patterns, the
      table of approved codes, the list of approved messages and the key order of a field map. */
  datatype Rules = Rules(
    isUuid: string -> bool,
    patterns: seq<Pattern>,
    messageForCode: string -> Option<string>,
    isApproved: string -> bool,
    order: Fields -> seq<(string, Value)>)

  // ---- Redaction ----

  predicate ValidSpans(text: string, spans: seq<(nat, nat)>, from: nat) {
    if spans == [] then from <= |text|
    else from <= spans[0].0 <= spans[0].1 <= |text| && ValidSpans(text, spans[1..], spans[0].1)
  }

  function ReplaceSpans(text: string, spans: seq<(nat, nat)>, from: nat): string
    requires ValidSpans(text, spans, from)
  {
    if spans == [] then text[from..]
    else text[from..spans[0].0] + REDACTED + ReplaceSpans(text, spans[1..], spans[0].1)
  }

  function ReplaceAll(text: string, pattern: Pattern): string {
    var spans := pattern(text);
    if ValidSpans(text, spans, 0) then ReplaceSpans(text, spans, 0) else text
  }

  function Redact(text: string, patterns: seq<Pattern>): string {
    if patterns == [] then text
    else ReplaceAll(Redact(text, patterns[..|patterns| - 1]), patterns[|patterns| - 1])
  }

  lemma ReplacementShows(text: string, pattern: Pattern)
    ensures ReplaceAll(text, pattern) == text || Contains(ReplaceAll(text, pattern), REDACTED)
  {
    var spans := pattern(text);
    if ValidSpans(text, spans, 0) {
      if spans == [] {
        assert text[0..] == text;
      } else {
        var tail := REDACTED + ReplaceSpans(text, spans[1..], spans[0].1);
        assert ReplaceAll(text, pattern) == text[0..spans[0].0] + tail;
        assert ReplaceAll(text, pattern)[spans[0].0..] == tail;
      }
    }
  }

  /** A text without a redaction mark came through all patterns untouched. */
  lemma {:induction false} RedactionShows(text: string, patterns: seq<Pattern>)
    ensures Redact(text, patterns) == text || Contains(Redact(text, patterns), REDACTED)
  {
    if patterns == [] {
    } else {
      var n := |patterns| - 1;
      RedactionShows(text, patterns[..n]);
      ReplacementShows(Redact(text, patterns[..n]), patterns[n]);
    }
  }

  // ---- One field ----

  predicate IsAlphanumeric(c: char) {
    'A' <= c <= 'Z' || 'a' <= c <= 'z' || '0' <= c <= '9'
  }

  predicate Matches(text: string, extra: set<char>, least: nat, most: nat) {
    least <= |text| <= most && forall i :: 0 <= i < |text| ==> IsAlphanumeric(text[i]) || text[i] in extra
  }

  predicate IsTarget(text: string) {
    Matches(text, {'_', '.', ':', '-'}, 1, 128)
  }

  predicate IsSymbolic(text: string) {
    Matches(text, {'_', '.', ':', '/', '-'}, 1, 96)
  }

  predicate IsRoute(text: string) {
    var prefix := "/api/v1/";
    && prefix <= text
    && Matches(text[|prefix|..], {'_', '/', '{', '}', '.', '-'}, 0, 160)
  }

  function Canonical(name: string): Option<string> {
    if name == "diagnostic_code" || name == "diagnosticCode" then Some("diagnosticCode")
    else if name == "provider_kind" || name == "providerKind" then Some("providerKind")
    else if name == "job_id" || name == "jobId" then Some("jobId")
    else if name == "project_id" || name == "projectId" then Some("projectId")
    else if name == "provider_id" || name == "providerId" then Some("providerId")
    else if name == "operation_id" || name == "operationId" then Some("operationId")
    else if name == "request_id" || name == "requestId" then Some("requestId")
    else if name == "duration_ms" || name == "durationMs" then Some("durationMs")
    else if name in {"operation", "action", "status", "stage", "entity", "method", "route", "attempt",
                     "count", "port", "scheme", "version", "source", REDACTED_COUNT}
    then Some(name)
    else None
  }

  function NumericValue(value: Value): Option<Value> {
    if value.Unsigned? && value.n <= MAX_COUNT then Some(value) else None
  }

  function SanitizeValue(rules: Rules, canonical: string, value: Value): Option<Value> {
    if canonical in {"attempt", "count", "durationMs", "port", REDACTED_COUNT} then NumericValue(value)
    else if canonical == "status" && (value.Unsigned? || value.OtherNumber?) then NumericValue(value)
    else if !value.Str? then None
    else if canonical in {"jobId", "projectId", "providerId", "operationId", "requestId"} then
      if rules.isUuid(value.text) then Some(value) else None
    else if canonical == "method" then
      var upper := Upper(value.text);
      if upper in {"GET", "HEAD", "POST", "PUT", "PATCH", "DELETE", "OPTIONS"} then Some(Str(upper)) else None
    else if canonical == "route" then
      if IsRoute(value.text) && '?' !in value.text then Some(value) else None
    else if canonical == "scheme" then
      var lower := Lower(value.text);
      if lower in {"http", "https"} then Some(Str(lower)) else None
    else if canonical == "diagnosticCode" then
      if rules.messageForCode(value.text).Some? then Some(value) else None
    else
      var redacted := Redact(value.text, rules.patterns);
      if Contains(redacted, REDACTED) || !IsSymbolic(redacted) then None else Some(Str(redacted))
  }

  function SanitizeField(rules: Rules, name: string, value: Value): Option<(string, Value)> {
    var canonical := Canonical(name);
    if canonical.None? then None
    else
      var safe := SanitizeValue(rules, canonical.value, value);
      if safe.None? then None else Some((canonical.value, safe.value))
  }

  lemma UpperTwice(s: string)
    ensures Upper(Upper(s)) == Upper(s)
  {
  }

  lemma LowerTwice(s: string)
    ensures Lower(Lower(s)) == Lower(s)
  {
  }

  lemma CanonicalTwice(name: string)
    ensures Canonical(name).Some? ==> Canonical(Canonical(name).value) == Canonical(name)
  {
  }

  lemma ValueSanitizedTwice(rules: Rules, canonical: string, value: Value)
    ensures var once := SanitizeValue(rules, canonical, value);
            once.Some? ==> SanitizeValue(rules, canonical, once.value) == once
  {
    if value.Str? {
      UpperTwice(value.text);
      LowerTwice(value.text);
      RedactionShows(value.text, rules.patterns);
    }
  }

  /** A field that survived survives again unchanged, under its canonical name. */
  lemma FieldSanitizedTwice(rules: Rules, name: string, value: Value)
    ensures var once := SanitizeField(rules, name, value);
            once.Some? ==> SanitizeField(rules, once.value.0, once.value.1) == once
  {
    CanonicalTwice(name);
    if Canonical(name).Some? {
      ValueSanitizedTwice(rules, Canonical(name).value, value);
    }
  }

  // ---- All fields ----

  /** The fields that survive, later ones over earlier ones of the same canonical name. */
  function Kept(rules: Rules, items: seq<(string, Value)>): Fields {
    if items == [] then map[]
    else
      var n := |items| - 1;
      var field := SanitizeField(rules, items[n].0, items[n].1);
      if field.Some? then Kept(rules, items[..n])[field.value.0 := field.value.1] else Kept(rules, items[..n])
  }

  function Removed(rules: Rules, items: seq<(string, Value)>): nat {
    if items == [] then 0
    else
      var n := |items| - 1;
      Removed(rules, items[..n]) + if SanitizeField(rules, items[n].0, items[n].1).Some? then 0 else 1
  }

  function SanitizedFields(rules: Rules, items: seq<(string, Value)>): Fields {
    var removed := Removed(rules, items);
    if removed > 0 then Kept(rules, items)[REDACTED_COUNT := Unsigned(Min(removed, U64_MAX))] else Kept(rules, items)
  }

  method SanitizeFields(rules: Rules, items: seq<(string, Value)>) returns (safe: Fields)
    ensures safe == SanitizedFields(rules, items)
  {
    safe := map[];
    var removed: U64 := 0;
    for i := 0 to |items|
      invariant safe == Kept(rules, items[..i])
      invariant removed == Min(Removed(rules, items[..i]), U64_MAX)
    {
      assert items[..i + 1][..i] == items[..i];
      match SanitizeField(rules, items[i].0, items[i].1)
      case Some(field) =>
        safe := safe[field.0 := field.1];
      case None =>
        removed := SaturatingAddU64(removed, 1);
    }
    assert items[..|items|] == items;
    if removed > 0 {
      safe := safe[REDACTED_COUNT := Unsigned(removed)];
    }
  }

  predicate HasName(items: seq<(string, Value)>, name: string) {
    exists i :: 0 <= i < |items| && items[i].0 == name
  }

  predicate DistinctNames(items: seq<(string, Value)>) {
    forall i, k :: 0 <= i < k < |items| ==> items[i].0 != items[k].0
  }

  function Listed(items: seq<(string, Value)>): Fields {
    if items == [] then map[]
    else Listed(items[..|items| - 1])[items[|items| - 1].0 := items[|items| - 1].1]
  }

  /** A listing of a field map: every field once, in some order. */
  predicate Enumerates(items: seq<(string, Value)>, fields: Fields) {
    DistinctNames(items) && Listed(items) == fields
  }

  predicate Stable(rules: Rules, name: string, value: Value) {
    SanitizeField(rules, name, value) == Some((name, value))
  }

  predicate AllStable(rules: Rules, fields: Fields) {
    forall name :: name in fields ==> Stable(rules, name, fields[name])
  }

  lemma {:induction false} KeptIsStable(rules: Rules, items: seq<(string, Value)>)
    ensures AllStable(rules, Kept(rules, items))
  {
    if items == [] {
    } else {
      var n := |items| - 1;
      KeptIsStable(rules, items[..n]);
      FieldSanitizedTwice(rules, items[n].0, items[n].1);
    }
  }

  lemma {:induction false} ListedNames(items: seq<(string, Value)>)
    ensures forall name :: name in Listed(items) <==> HasName(items, name)
  {
    if items == [] {
    } else {
      var n := |items| - 1;
      ListedNames(items[..n]);
      forall name
        ensures HasName(items, name) <==> HasName(items[..n], name) || name == items[n].0
      {
        HasNameSplits(items, name);
      }
    }
  }

  lemma HasNameSplits(items: seq<(string, Value)>, name: string)
    requires items != []
    ensures HasName(items, name) <==> HasName(items[..|items| - 1], name) || name == items[|items| - 1].0
  {
  }

  /** A listing of stable fields is kept whole and nothing in it is removed. */
  lemma {:induction false} StableIsKept(rules: Rules, items: seq<(string, Value)>)
    requires DistinctNames(items) && AllStable(rules, Listed(items))
    ensures Kept(rules, items) == Listed(items) && Removed(rules, items) == 0
  {
    if items == [] {
    } else {
      var n := |items| - 1;
      ListedNames(items[..n]);
      assert items[n].0 !in Listed(items[..n]);
      forall name | name in Listed(items[..n])
        ensures Stable(rules, name, Listed(items[..n])[name])
      {
        assert Listed(items)[name] == Listed(items[..n])[name];
      }
      StableIsKept(rules, items[..n]);
      assert Stable(rules, items[n].0, Listed(items)[items[n].0]);
    }
  }

  /** A listing in which exactly one name is unstable and rejected loses exactly that one. */
  lemma {:induction false} OneRejectedName(rules: Rules, items: seq<(string, Value)>, bad: string)
    requires DistinctNames(items)
    requires forall name :: name in Listed(items) ==>
               if name == bad then SanitizeField(rules, name, Listed(items)[name]).None?
               else Stable(rules, name, Listed(items)[name])
    ensures Removed(rules, items) == if bad in Listed(items) then 1 else 0
  {
    if items == [] {
    } else {
      var n := |items| - 1;
      ListedNames(items[..n]);
      assert items[n].0 !in Listed(items[..n]);
      forall name | name in Listed(items[..n])
        ensures Listed(items)[name] == Listed(items[..n])[name]
      {
      }
      OneRejectedName(rules, items[..n], bad);
      assert Listed(items)[items[n].0] == items[n].1;
    }
  }

  /** Sanitizing twice equals sanitizing once if and only if the first pass did not remove more fields
      than the count it leaves behind may say. */
  lemma {:induction false} SanitizedTwice(rules: Rules, items: seq<(string, Value)>, again: seq<(string, Value)>)
    requires Enumerates(again, SanitizedFields(rules, items))
    ensures SanitizedFields(rules, again) == SanitizedFields(rules, items) <==> Removed(rules, items) <= MAX_COUNT
  {
    KeptIsStable(rules, items);
    if Removed(rules, items) <= MAX_COUNT {
      CountIsStable(rules, Removed(rules, items));
      StableIsKept(rules, again);
    } else {
      TooManyRemoved(rules, items, again);
    }
  }

  lemma CountIsStable(rules: Rules, removed: nat)
    requires removed <= MAX_COUNT
    ensures Stable(rules, REDACTED_COUNT, Unsigned(removed))
  {
  }

  lemma {:induction false} TooManyRemoved(rules: Rules, items: seq<(string, Value)>, again: seq<(string, Value)>)
    requires Enumerates(again, SanitizedFields(rules, items)) && Removed(rules, items) > MAX_COUNT
    requires AllStable(rules, Kept(rules, items))
    ensures SanitizedFields(rules, again) != SanitizedFields(rules, items)
  {
    var once := SanitizedFields(rules, items);
    assert once == Kept(rules, items)[REDACTED_COUNT := Unsigned(Min(Removed(rules, items), U64_MAX))];
    assert SanitizeField(rules, REDACTED_COUNT, once[REDACTED_COUNT]).None?;
    OneRejectedName(rules, again, REDACTED_COUNT);
    assert SanitizedFields(rules, again)[REDACTED_COUNT] == Unsigned(1);
  }

  // ---- Entries ----

  /** A field map's key order lists every field once. */
  ghost predicate LawfulOrder(rules: Rules) {
    forall fields: Fields :: Enumerates(rules.order(fields), fields)
  }

  function SanitizeTarget(target: string): string {
    if IsTarget(target) then target else FALLBACK_TARGET
  }

  function MessageOf(rules: Rules, fields: Fields): string {
    if "diagnosticCode" in fields && fields["diagnosticCode"].Str?
    then rules.messageForCode(fields["diagnosticCode"].text).GetOr(FALLBACK_MESSAGE)
    else FALLBACK_MESSAGE
  }

  function SanitizeStoredEntry(rules: Rules, e: Entry): Entry {
    var fields := SanitizedFields(rules, rules.order(e.fields));
    e.(target := SanitizeTarget(e.target), fields := fields, message := MessageOf(rules, fields))
  }

  /** The same as a function value, for use over sequences of entries. */
  function StoredSanitizer(rules: Rules): Entry -> Entry {
    (e: Entry) => SanitizeStoredEntry(rules, e)
  }

  /** The number of fields a map may have before the removal count could overflow its bound. */
  predicate Reasonable(rules: Rules, e: Entry) {
    Removed(rules, rules.order(e.fields)) <= MAX_COUNT
  }

  /** A stored entry sanitized twice equals one sanitized once, exactly for reasonable entries. */
  lemma StoredEntrySanitizedTwice(rules: Rules, e: Entry)
    requires LawfulOrder(rules)
    ensures SanitizeStoredEntry(rules, SanitizeStoredEntry(rules, e)) == SanitizeStoredEntry(rules, e)
        <==> Reasonable(rules, e)
  {
    var once := SanitizeStoredEntry(rules, e);
    assert Enumerates(rules.order(once.fields), once.fields);
    SanitizedTwice(rules, rules.order(e.fields), rules.order(once.fields));
    assert IsTarget(FALLBACK_TARGET);
  }
}

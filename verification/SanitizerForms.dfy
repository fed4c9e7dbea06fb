/** What the sanitizer lets through, as the forms a kept field may have: a field is kept if and only if it is
    in its form, and nothing a redaction pattern matches is ever kept. */
module SanitizerForms {
  import opened Bounded
  import opened Wrappers
  import opened Text
  import opened Sanitizer

  const NAMES: set<string> := {
    "diagnosticCode", "operation", "action", "status", "stage", "entity", "providerKind", "jobId", "projectId",
    "providerId", "operationId", "requestId", "method", "route", "attempt", "count", "durationMs", "port",
    "scheme", "version", "source", "redactedFieldCount"}

  /** The other spellings that are accepted. */
  const ALIASES: map<string, string> := map[
    "diagnostic_code" := "diagnosticCode", "provider_kind" := "providerKind", "job_id" := "jobId",
    "project_id" := "projectId", "provider_id" := "providerId", "operation_id" := "operationId",
    "request_id" := "requestId", "duration_ms" := "durationMs"]

  const COUNTS: set<string> := {"attempt", "count", "durationMs", "port", "redactedFieldCount"}
  const IDENTIFIERS: set<string> := {"jobId", "projectId", "providerId", "operationId", "requestId"}
  const METHODS: set<string> := {"GET", "HEAD", "POST", "PUT", "PATCH", "DELETE", "OPTIONS"}
  const SYMBOLS: set<string> :=
    {"operation", "action", "status", "stage", "entity", "providerKind", "version", "source"}

  // ---- Redaction ----

  /** No redaction pattern matches anywhere in the text. */
  predicate Untouched(patterns: seq<Pattern>, text: string) {
    forall k :: 0 <= k < |patterns| ==> patterns[k](text) == [] || !ValidSpans(text, patterns[k](text), 0)
  }

  predicate Unmarked(text: string) {
    !Contains(text, REDACTED)
  }

  /** One replacement marks the text unless its pattern matches nothing. */
  lemma {:induction false} ReplacementMarks(text: string, pattern: Pattern)
    ensures pattern(text) == [] || !ValidSpans(text, pattern(text), 0) ==> ReplaceAll(text, pattern) == text
    ensures pattern(text) != [] && ValidSpans(text, pattern(text), 0) ==> !Unmarked(ReplaceAll(text, pattern))
  {
    var spans := pattern(text);
    if spans == [] {
      assert text[0..] == text;
    } else if ValidSpans(text, spans, 0) {
      var tail := REDACTED + ReplaceSpans(text, spans[1..], spans[0].1);
      assert ReplaceAll(text, pattern)[spans[0].0..] == tail;
    }
  }

  /** Redaction leaves a text unmarked if and only if the text is unmarked and no pattern matches it. */
  lemma {:induction false} RedactionMarksIff(text: string, patterns: seq<Pattern>)
    ensures Unmarked(Redact(text, patterns)) ==> Redact(text, patterns) == text && Untouched(patterns, text)
    ensures Untouched(patterns, text) ==> Redact(text, patterns) == text
  {
    if patterns == [] {
    } else {
      var n := |patterns| - 1;
      var before := Redact(text, patterns[..n]);
      RedactionMarksIff(text, patterns[..n]);
      ReplacementMarks(before, patterns[n]);
      if Untouched(patterns, text) {
        UntouchedPrefix(patterns, text);
      }
    }
  }

  lemma UntouchedPrefix(patterns: seq<Pattern>, text: string)
    requires patterns != [] && Untouched(patterns, text)
    ensures Untouched(patterns[..|patterns| - 1], text)
  {
    assert forall k :: 0 <= k < |patterns| - 1 ==> patterns[..|patterns| - 1][k] == patterns[k];
  }

  // ---- The form of each field ----

  predicate Symbolic(c: char) {
    'A' <= c <= 'Z' || 'a' <= c <= 'z' || '0' <= c <= '9' || c == '_' || c == '.' || c == ':' || c == '/' || c == '-'
  }

  /** One to ninety-six symbolic characters in which no redaction pattern matches. */
  predicate SymbolicText(rules: Rules, value: Value) {
    && value.Str? && 1 <= |value.text| <= 96
    && (forall i :: 0 <= i < |value.text| ==> Symbolic(value.text[i]))
    && Untouched(rules.patterns, value.text)
  }

  predicate RouteText(text: string) {
    && 8 <= |text| <= 168 && text[..8] == "/api/v1/"
    && forall i :: 8 <= i < |text| ==> (Symbolic(text[i]) && text[i] != ':') || text[i] == '{' || text[i] == '}'
  }

  predicate SmallCount(value: Value) {
    value.Unsigned? && value.n <= 1_000_000_000_000
  }

  predicate InForm(rules: Rules, name: string, value: Value) {
    || (name in COUNTS && SmallCount(value))
    || (name == "status" && SmallCount(value))
    || (name in SYMBOLS && SymbolicText(rules, value))
    || (name in IDENTIFIERS && value.Str? && rules.isUuid(value.text))
    || (name == "method" && value.Str? && value.text in METHODS)
    || (name == "route" && value.Str? && RouteText(value.text))
    || (name == "scheme" && value.Str? && (value.text == "http" || value.text == "https"))
    || (name == "diagnosticCode" && value.Str? && rules.messageForCode(value.text).Some?)
  }

  /** What is kept is what was given, but for the case of a method or scheme. */
  predicate Agrees(name: string, given: Value, kept: Value) {
    || kept == given
    || (&& (name == "method" || name == "scheme") && given.Str? && kept.Str?
        && SameUpToCase(given.text, kept.text))
  }

  lemma SymbolicIff(text: string)
    ensures IsSymbolic(text) <==> 1 <= |text| <= 96 && forall i :: 0 <= i < |text| ==> Symbolic(text[i])
  {
  }

  lemma SymbolicIsUnmarked(text: string)
    requires forall i :: 0 <= i < |text| ==> Symbolic(text[i])
    ensures Unmarked(text)
  {
    forall i | 0 <= i <= |text|
      ensures !(REDACTED <= text[i..])
    {
      assert REDACTED[0] == '[' && !Symbolic('[');
      assert i < |text| ==> text[i..][0] == text[i];
    }
  }

  lemma RouteIff(text: string)
    ensures IsRoute(text) && '?' !in text <==> RouteText(text)
  {
    var prefix := "/api/v1/";
    assert |prefix| == 8;
    if IsRoute(text) {
      assert text[..8] == prefix;
      forall i | 8 <= i < |text|
        ensures (Symbolic(text[i]) && text[i] != ':') || text[i] == '{' || text[i] == '}'
      {
        assert text[8..][i - 8] == text[i];
      }
    }
    if RouteText(text) {
      assert prefix <= text;
      forall i | 0 <= i < |text[8..]|
        ensures IsAlphanumeric(text[8..][i]) || text[8..][i] in {'_', '/', '{', '}', '.', '-'}
      {
        assert text[8..][i] == text[i + 8];
      }
      forall i | 0 <= i < |text|
        ensures text[i] != '?'
      {
        assert i < 8 ==> text[i] == prefix[i];
      }
    }
  }

  lemma UpperIgnoresCase(s: string)
    ensures SameUpToCase(s, Upper(s))
    ensures forall t :: SameUpToCase(s, t) && Upper(t) == t ==> t == Upper(s)
  {
    forall t | SameUpToCase(s, t) && Upper(t) == t
      ensures t == Upper(s)
    {
      assert forall i :: 0 <= i < |s| ==> SameLetter(s[i], t[i]) && Upper(t)[i] == t[i] && t[i] == Upper(s)[i];
    }
  }

  lemma LowerIsUnique(s: string)
    ensures SameUpToCase(s, Lower(s))
    ensures forall t :: SameUpToCase(s, t) && Lower(t) == t ==> t == Lower(s)
  {
    forall t | SameUpToCase(s, t) && Lower(t) == t
      ensures t == Lower(s)
    {
      LowerIgnoresCase(s, t);
    }
  }

  lemma FixedTextsHaveTheirCase(text: string)
    ensures text in METHODS ==> Upper(text) == text
    ensures text == "http" || text == "https" ==> Lower(text) == text
  {
  }

  lemma {:induction false} SymbolsAreRedacted(rules: Rules, name: string, text: string)
    requires name in SYMBOLS
    ensures var redacted := Redact(text, rules.patterns);
            var kept := if Contains(redacted, REDACTED) || !IsSymbolic(redacted) then None else Some(Str(redacted));
            SanitizeValue(rules, name, Str(text)) == kept
  {
  }

  lemma SymbolValue(rules: Rules, name: string, given: Value, kept: Value)
    requires name in SYMBOLS && given.Str?
    ensures SanitizeValue(rules, name, given) == Some(kept) <==> SymbolicText(rules, kept) && kept == given
  {
    SymbolsAreRedacted(rules, name, given.text);
    var redacted := Redact(given.text, rules.patterns);
    RedactionMarksIff(given.text, rules.patterns);
    SymbolicIff(redacted);
    if IsSymbolic(redacted) {
      SymbolicIsUnmarked(redacted);
    }
  }

  lemma MethodValue(rules: Rules, given: Value, kept: Value)
    ensures SanitizeValue(rules, "method", given) == Some(kept) <==>
              && kept.Str? && kept.text in METHODS && given.Str? && SameUpToCase(given.text, kept.text)
  {
    if given.Str? {
      UpperIgnoresCase(given.text);
      if kept.Str? {
        FixedTextsHaveTheirCase(kept.text);
      }
    }
  }

  lemma SchemeValue(rules: Rules, given: Value, kept: Value)
    ensures SanitizeValue(rules, "scheme", given) == Some(kept) <==>
              && kept.Str? && (kept.text == "http" || kept.text == "https")
              && given.Str? && SameUpToCase(given.text, kept.text)
  {
    if given.Str? {
      LowerIsUnique(given.text);
      if kept.Str? {
        FixedTextsHaveTheirCase(kept.text);
      }
    }
  }

  lemma SameAsItself(s: string)
    ensures SameUpToCase(s, s)
  {
  }

  lemma CasedValue(rules: Rules, name: string, given: Value, kept: Value)
    requires name == "method" || name == "scheme"
    ensures SanitizeValue(rules, name, given) == Some(kept) <==> InForm(rules, name, kept) && Agrees(name, given, kept)
  {
    MethodValue(rules, given, kept);
    SchemeValue(rules, given, kept);
    if given.Str? {
      SameAsItself(given.text);
    }
  }

  /** A value is kept as `kept` if and only if `kept` is in the form of its name and agrees with it. */
  lemma ValueIsKeptIff(rules: Rules, name: string, given: Value, kept: Value)
    requires name in NAMES
    ensures SanitizeValue(rules, name, given) == Some(kept) <==> InForm(rules, name, kept) && Agrees(name, given, kept)
  {
    if name == "method" || name == "scheme" {
      CasedValue(rules, name, given, kept);
    } else if name in SYMBOLS {
      if given.Str? {
        SymbolValue(rules, name, given, kept);
      }
    } else if name == "route" && given.Str? {
      RouteIff(given.text);
    }
  }

  // ---- Names ----

  /** The name under which a field is kept, if its name is accepted. */
  function Accepted(name: string): Option<string> {
    if name in NAMES then Some(name) else if name in ALIASES then Some(ALIASES[name]) else None
  }

  lemma AcceptedIsCanonical(name: string)
    ensures Canonical(name) == Accepted(name)
    ensures Accepted(name).Some? ==> Accepted(name).value in NAMES
  {
  }

  // ---- Whole field maps ----

  /** Every field of a sanitized map is in its form; only the count of removed fields may be larger. */
  predicate CleanFields(rules: Rules, fields: Fields) {
    forall name :: name in fields ==>
      InForm(rules, name, fields[name]) || (name == REDACTED_COUNT && fields[name].Unsigned?)
  }

  lemma FieldIsKeptIff(rules: Rules, name: string, given: Value, kept: Value)
    requires Accepted(name).Some?
    ensures var under := Accepted(name).value;
            SanitizeField(rules, name, given) == Some((under, kept)) <==>
                InForm(rules, under, kept) && Agrees(under, given, kept)
  {
    AcceptedIsCanonical(name);
    ValueIsKeptIff(rules, Accepted(name).value, given, kept);
  }

  lemma FieldName(rules: Rules, name: string, given: Value)
    ensures SanitizeField(rules, name, given).Some? ==>
              Accepted(name) == Some(SanitizeField(rules, name, given).value.0)
  {
    AcceptedIsCanonical(name);
  }

  lemma {:induction false} KeptIsClean(rules: Rules, items: seq<(string, Value)>)
    ensures forall name :: name in Kept(rules, items) ==> InForm(rules, name, Kept(rules, items)[name])
  {
    if items == [] {
    } else {
      var n := |items| - 1;
      KeptIsClean(rules, items[..n]);
      var field := SanitizeField(rules, items[n].0, items[n].1);
      if field.Some? {
        FieldName(rules, items[n].0, items[n].1);
        FieldIsKeptIff(rules, items[n].0, items[n].1, field.value.1);
      }
    }
  }

  /** Nothing but fields in their forms survives, so no text under a symbolic name that a pattern matches, no
      identifier that is not a UUID, no large count. */
  lemma {:induction false} SanitizedIsClean(rules: Rules, items: seq<(string, Value)>)
    ensures CleanFields(rules, SanitizedFields(rules, items))
  {
    KeptIsClean(rules, items);
  }

  predicate NotNamed(rules: Rules, item: (string, Value), name: string) {
    var field := SanitizeField(rules, item.0, item.1);
    field.Some? ==> field.value.0 != name
  }

  lemma {:induction false} OthersChangeNothing(rules: Rules, items: seq<(string, Value)>, name: string)
    requires items != [] && NotNamed(rules, items[|items| - 1], name)
    ensures var before := Kept(rules, items[..|items| - 1]);
            name in Kept(rules, items) <==> name in before
    ensures var before := Kept(rules, items[..|items| - 1]);
            name in before ==> Kept(rules, items)[name] == before[name]
  {
  }

  /** Fields of other names that come later change nothing. */
  lemma {:induction false} LaterOthersChangeNothing(rules: Rules, items: seq<(string, Value)>, i: nat, name: string)
    requires i < |items| && name in Kept(rules, items[..i + 1])
    requires forall k :: i < k < |items| ==> NotNamed(rules, items[k], name)
    ensures name in Kept(rules, items) && Kept(rules, items)[name] == Kept(rules, items[..i + 1])[name]
    decreases |items|
  {
    var n := |items| - 1;
    if i < n {
      assert items[..n][..i + 1] == items[..i + 1];
      LaterOthersChangeNothing(rules, items[..n], i, name);
      OthersChangeNothing(rules, items, name);
    } else {
      assert items[..i + 1] == items;
    }
  }

  lemma OtherNameIsNotNamed(rules: Rules, item: (string, Value), name: string)
    requires Accepted(item.0) != Some(name)
    ensures NotNamed(rules, item, name)
  {
    FieldName(rules, item.0, item.1);
  }

  /** The other direction: a field in its form is kept with its value, under its accepted name, unless a later
      one has the same name. */
  lemma {:induction false} FieldInFormIsKept(rules: Rules, items: seq<(string, Value)>, i: nat, name: string)
    requires i < |items| && Accepted(items[i].0) == Some(name) && InForm(rules, name, items[i].1)
    requires forall k :: i < k < |items| ==> Accepted(items[k].0) != Some(name)
    ensures name in Kept(rules, items) && Kept(rules, items)[name] == items[i].1
  {
    FieldIsKeptIff(rules, items[i].0, items[i].1, items[i].1);
    forall k | i < k < |items|
      ensures NotNamed(rules, items[k], name)
    {
      OtherNameIsNotNamed(rules, items[k], name);
    }
    assert items[..i + 1][..i] == items[..i];
    LaterOthersChangeNothing(rules, items, i, name);
  }

  /** And so it is in the sanitized map, whose only other field is the count of removed ones. */
  lemma {:induction false} SanitizedIsKept(rules: Rules, items: seq<(string, Value)>, name: string)
    requires name != REDACTED_COUNT
    ensures name in SanitizedFields(rules, items) <==> name in Kept(rules, items)
    ensures name in Kept(rules, items) ==> SanitizedFields(rules, items)[name] == Kept(rules, items)[name]
  {
  }

  // ---- Entries ----

  predicate TargetText(text: string) {
    && 1 <= |text| <= 128
    && forall i :: 0 <= i < |text| ==> Symbolic(text[i]) && text[i] != '/'
  }

  /** What may be stored, logged and exported. */
  ghost predicate Clean(rules: Rules, e: Entry) {
    && TargetText(e.target) && CleanFields(rules, e.fields)
    && (e.message == FALLBACK_MESSAGE || rules.isApproved(e.message)
        || exists code :: rules.messageForCode(code) == Some(e.message))
  }

  lemma TargetIsText(target: string)
    ensures TargetText(SanitizeTarget(target))
    ensures TargetText(target) ==> SanitizeTarget(target) == target
  {
    assert IsTarget(target) <==> TargetText(target);
    assert TargetText(FALLBACK_TARGET);
  }

  lemma StoredIsClean(rules: Rules, e: Entry)
    ensures Clean(rules, SanitizeStoredEntry(rules, e))
  {
    SanitizedIsClean(rules, rules.order(e.fields));
    TargetIsText(e.target);
  }
}

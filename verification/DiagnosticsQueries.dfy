/** What a diagnostics query selects, without the rules that select: severity in order, and texts found up to
    case. */
module DiagnosticsQueries {
  import opened Bounded
  import opened Wrappers
  import opened Text
  import opened Sanitizer
  import opened Diagnostics

  /** Severity, least first: trace, debug, info, warn, error. */
  predicate AtLeast(level: Level, minimum: Level) {
    match minimum
    case Trace => true
    case Debug => !level.Trace?
    case Info => level.Info? || level.Warn? || level.Error?
    case Warn => level.Warn? || level.Error?
    case Error => level.Error?
  }

  /** The needle stands somewhere in the text, in whatever case. */
  ghost predicate Found(text: string, needle: string) {
    exists i :: FoundAt(text, needle, i)
  }

  predicate FoundAt(text: string, needle: string, i: int) {
    0 <= i && i + |needle| <= |text| && SameUpToCase(text[i..i + |needle|], needle)
  }

  lemma StandsAt(text: string, needle: string, i: nat)
    requires i <= |text|
    ensures Lower(needle) <= Lower(text)[i..] <==> FoundAt(text, needle, i)
  {
    if i + |needle| <= |text| {
      var piece := text[i..i + |needle|];
      LowerIgnoresCase(piece, needle);
      assert Lower(text)[i..][..|needle|] == Lower(piece);
      assert |Lower(needle)| == |needle|;
    }
  }

  lemma ContainsIgnoresCase(text: string, needle: string)
    ensures Contains(Lower(text), Lower(needle)) <==> Found(text, needle)
  {
    if Contains(Lower(text), Lower(needle)) {
      var i :| 0 <= i <= |Lower(text)| && Lower(needle) <= Lower(text)[i..];
      StandsAt(text, needle, i);
    }
    if Found(text, needle) {
      var i :| FoundAt(text, needle, i);
      StandsAt(text, needle, i);
    }
  }

  /** How a value is shown: text as it is, a number in decimal, a truth value by name, nothing else. */
  predicate ShownAs(v: Value, shown: string) {
    match v
    case Str(text) => shown == text
    case Boolean(b) => shown == if b then "true" else "false"
    case Unsigned(n) => shown == Digits(n) && NumberOf(shown) == n
    case _ => shown == ""
  }

  ghost predicate FoundInFields(fields: Fields, needle: string) {
    exists name, shown :: FoundInField(fields, name, shown, needle)
  }

  ghost predicate FoundInField(fields: Fields, name: string, shown: string, needle: string) {
    name in fields && ShownAs(fields[name], shown) && (Found(name, needle) || Found(shown, needle))
  }

  lemma DisplayIsShown(v: Value, shown: string)
    ensures ShownAs(v, shown) <==> shown == SafeValueDisplay(v)
  {
    if v.Unsigned? {
      DigitsRoundTrip(v.n);
    }
  }

  lemma SearchHitsIff(e: Entry, needle: string)
    ensures SearchHits(e, Lower(needle)) <==>
              Found(e.message, needle) || Found(e.target, needle) || FoundInFields(e.fields, needle)
  {
    ContainsIgnoresCase(e.message, needle);
    ContainsIgnoresCase(e.target, needle);
    forall name | name in e.fields
      ensures Contains(Lower(name), Lower(needle)) || Contains(Lower(SafeValueDisplay(e.fields[name])), Lower(needle))
         <==> FoundInField(e.fields, name, SafeValueDisplay(e.fields[name]), needle)
    {
      ContainsIgnoresCase(name, needle);
      ContainsIgnoresCase(SafeValueDisplay(e.fields[name]), needle);
      DisplayIsShown(e.fields[name], SafeValueDisplay(e.fields[name]));
    }
    forall name, shown | FoundInField(e.fields, name, shown, needle)
      ensures shown == SafeValueDisplay(e.fields[name])
    {
      DisplayIsShown(e.fields[name], shown);
    }
  }

  lemma EmptyIsFound(text: string)
    ensures Found(text, "")
  {
    assert FoundAt(text, "", 0);
  }

  /** A query selects the later entries of at least its level, whose target holds the target asked for and in
      which some text holds the first 120 characters searched for. */
  lemma SelectedIff(e: Entry, q: Query)
    ensures Selected(e, q) <==>
              && (q.after.Some? ==> q.after.value < e.sequence)
              && (q.level.Some? ==> AtLeast(e.level, q.level.value))
              && (q.target.Some? ==> Found(e.target, Trimmed(q.target.value)))
              && (q.search.Some? ==>
                    var needle := if |q.search.value| <= 120 then q.search.value else q.search.value[..120];
                    Found(e.message, needle) || Found(e.target, needle) || FoundInFields(e.fields, needle))
  {
    EmptyIsFound(e.target);
    EmptyIsFound(e.message);
    if q.target.Some? {
      ContainsIgnoresCase(e.target, Trimmed(q.target.value));
    }
    if q.search.Some? {
      var needle := if |q.search.value| <= 120 then q.search.value else q.search.value[..120];
      assert q.search.value[..Min(|q.search.value|, 120)] == needle;
      SearchHitsIff(e, needle);
    }
  }
}

/** The ffmetadata printer of an export, with a reader of the same line format as its partner. */
module FfMetadata {
  import opened Bounded
  import opened Wrappers
  import opened Text
  import opened Sequences
  import opened Splitting

  datatype BookMetadata = BookMetadata(
    title: string,
    authors: seq<string>,
    series: Option<string>,
    seriesPart: Option<string>)

  datatype ChapterAudio = ChapterAudio(title: string, durationMilliseconds: U64)

  // ---- Escaping ----

  function EscapeChar(c: char): string {
    if c == '\\' || c == '=' || c == ';' || c == '#' then ['\\', c]
    else if c == '\n' then ['\\', 'n']
    else if c == '\r' then []
    else [c]
  }

  function Escaped(s: string): string {
    if s == [] then [] else Escaped(s[..|s| - 1]) + EscapeChar(s[|s| - 1])
  }

  method EscapeFfmetadata(value: string) returns (escaped: string)
    ensures escaped == Escaped(value)
    ensures Unescaped(escaped) == WithoutReturns(value)
    ensures '\n' !in escaped
  {
    escaped := "";
    for i := 0 to |value|
      invariant escaped == Escaped(value[..i])
    {
      assert value[..i + 1][..i] == value[..i];
      var c := value[i];
      if c == '\\' || c == '=' || c == ';' || c == '#' {
        escaped := escaped + ['\\'];
        escaped := escaped + [c];
      } else if c == '\n' {
        escaped := escaped + ['\\', 'n'];
      } else if c != '\r' {
        escaped := escaped + [c];
      }
    }
    assert value[..|value|] == value;
    EscapeRoundTrip(value);
    EscapedHasNoNewline(value);
  }

  /** Undoes the escaping: a backslash makes the next character stand for itself, and "n" for a newline. */
  function Unescaped(s: string): string {
    if s == [] then []
    else if s[0] == '\\' && |s| >= 2 then [if s[1] == 'n' then '\n' else s[1]] + Unescaped(s[2..])
    else [s[0]] + Unescaped(s[1..])
  }

  function WithoutReturns(s: string): string {
    if s == [] then []
    else WithoutReturns(s[..|s| - 1]) + if s[|s| - 1] == '\r' then [] else [s[|s| - 1]]
  }

  lemma {:induction false} UnescapeChar(c: char, rest: string)
    ensures Unescaped(EscapeChar(c) + rest) == (if c == '\r' then [] else [c]) + Unescaped(rest)
  {
    var code := EscapeChar(c) + rest;
    if c == '\r' {
      assert code == rest;
    } else if |EscapeChar(c)| == 2 {
      assert code[0] == '\\' && code[2..] == rest;
    } else {
      assert code[0] == c && code[1..] == rest;
    }
  }

  lemma {:induction false} UnescapePrefix(s: string, rest: string)
    ensures Unescaped(Escaped(s) + rest) == WithoutReturns(s) + Unescaped(rest)
  {
    if s == [] {
      assert Escaped(s) + rest == rest;
    } else {
      var n := |s| - 1;
      var code := EscapeChar(s[n]);
      assert Escaped(s) + rest == Escaped(s[..n]) + (code + rest);
      UnescapePrefix(s[..n], code + rest);
      UnescapeChar(s[n], rest);
    }
  }

  /** Unescaping gives back the value, apart from its carriage returns. */
  lemma {:induction false} EscapeRoundTrip(s: string)
    ensures Unescaped(Escaped(s)) == WithoutReturns(s)
  {
    UnescapePrefix(s, []);
    assert Escaped(s) + [] == Escaped(s);
  }

  lemma {:induction false} EscapedHasNoNewline(s: string)
    ensures '\n' !in Escaped(s)
  {
    if s == [] {
    } else {
      EscapedHasNoNewline(s[..|s| - 1]);
    }
  }

  // ---- Lines ----

  datatype FieldKey = Title | Artist | Series | SeriesPart | Timebase | Start | End

  function KeyName(key: FieldKey): string {
    match key
    case Title => "title"
    case Artist => "artist"
    case Series => "series"
    case SeriesPart => "series-part"
    case Timebase => "TIMEBASE"
    case Start => "START"
    case End => "END"
  }

  function KeyNamed(name: string): Option<FieldKey> {
    if name == "title" then Some(Title)
    else if name == "artist" then Some(Artist)
    else if name == "series" then Some(Series)
    else if name == "series-part" then Some(SeriesPart)
    else if name == "TIMEBASE" then Some(Timebase)
    else if name == "START" then Some(Start)
    else if name == "END" then Some(End)
    else None
  }

  /** A line of the format: the header comment, nothing, a section opening, or a key and its value. */
  datatype Line = Comment | Blank | Section | Field(key: FieldKey, value: string)

  function Rendered(line: Line): string {
    match line
    case Comment => ";FFMETADATA1"
    case Blank => ""
    case Section => "[CHAPTER]"
    case Field(key, value) => KeyName(key) + "=" + value
  }

  /** Comments and blank lines say nothing, a section line opens a chapter, and every other line is a
      key, the first unescaped equals sign, and a value. */
  function ParsedLine(text: string): Option<Line> {
    if text == "" then Some(Blank)
    else if text[0] == ';' then Some(Comment)
    else if text == "[CHAPTER]" then Some(Section)
    else
      var i := IndexOf(text, '=');
      if i == |text| || KeyNamed(text[..i]).None? then None
      else Some(Field(KeyNamed(text[..i]).value, text[i + 1..]))
  }

  lemma KeysAreKnown(key: FieldKey)
    ensures KeyNamed(KeyName(key)) == Some(key)
    ensures KeyName(key) != "" && KeyName(key)[0] != ';' && KeyName(key)[0] != '['
    ensures '=' !in KeyName(key) && '\n' !in KeyName(key)
  {
  }

  /** Every rendered line is read as what it was. */
  lemma LineRoundTrip(line: Line)
    ensures ParsedLine(Rendered(line)) == Some(line)
  {
    if line.Field? {
      KeysAreKnown(line.key);
      FieldRoundTrip(KeyName(line.key), line.key, line.value);
    }
  }

  lemma FieldRoundTrip(name: string, key: FieldKey, value: string)
    requires KeyNamed(name) == Some(key) && name != "" && name[0] != ';' && name[0] != '[' && '=' !in name
    ensures ParsedLine(name + "=" + value) == Some(Field(key, value))
  {
    var text := name + "=" + value;
    forall j | 0 <= j < |name|
      ensures text[j] != '='
    {
      assert text[j] == name[j];
    }
    assert text[|name|] == '=';
    assert IndexOf(text, '=') == |name|;
    assert text[0] == name[0] && text[..|name|] == name && text[|name| + 1..] == value;
  }

  predicate OneLine(line: Line) {
    line.Field? ==> '\n' !in line.value
  }

  lemma RenderedIsOneLine(line: Line)
    requires OneLine(line)
    ensures '\n' !in Rendered(line)
  {
    if line.Field? {
      KeysAreKnown(line.key);
    }
  }

  // ---- The document ----

  function JoinedAuthors(authors: seq<string>): string {
    if authors == [] then ""
    else if |authors| == 1 then authors[0]
    else authors[0] + "; " + JoinedAuthors(authors[1..])
  }

  /** One more author is set off by a semicolon and a blank. */
  lemma {:induction false} OneMoreAuthor(authors: seq<string>, last: string)
    ensures JoinedAuthors(authors + [last]) == if authors == [] then last else JoinedAuthors(authors) + "; " + last
  {
    if authors == [] {
      assert authors + [last] == [last];
    } else {
      OneMoreAuthor(authors[1..], last);
      assert (authors + [last])[1..] == authors[1..] + [last];
      assert (authors + [last])[0] == authors[0];
    }
  }

  /** Where the `k`-th chapter starts, and the one before it ends. */
  function Boundary(chapters: seq<ChapterAudio>, k: nat): U64
    requires k <= |chapters|
  {
    if k == 0 then 0 else SaturatingAddU64(Boundary(chapters, k - 1), chapters[k - 1].durationMilliseconds)
  }

  function OptionalLine(key: FieldKey, value: string, present: bool): seq<Line> {
    if present then [Field(key, value)] else []
  }

  function HeaderLines(m: BookMetadata): seq<Line> {
    [Comment, Field(Title, Escaped(m.title))]
    + OptionalLine(Artist, Escaped(JoinedAuthors(m.authors)), m.authors != [])
    + OptionalLine(Series, Escaped(m.series.GetOr("")), m.series.Some?)
    + OptionalLine(SeriesPart, m.seriesPart.GetOr(""), m.seriesPart.Some?)
  }

  const SECTION_LINES := [Blank, Section, Field(Timebase, "1/1000")]

  function ChapterLines(start: nat, end: nat, title: string): seq<Line> {
    SECTION_LINES + [Field(Start, Digits(start)), Field(End, Digits(end)), Field(Title, Escaped(title))]
  }

  function AllChapterLines(chapters: seq<ChapterAudio>, k: nat): seq<Line>
    requires k <= |chapters|
  {
    if k == 0 then []
    else
      AllChapterLines(chapters, k - 1)
      + ChapterLines(Boundary(chapters, k - 1), Boundary(chapters, k), chapters[k - 1].title)
  }

  function DocumentLines(m: BookMetadata, chapters: seq<ChapterAudio>): seq<Line> {
    HeaderLines(m) + AllChapterLines(chapters, |chapters|)
  }

  function Printed(lines: seq<Line>): string {
    Terminated(Map(Rendered, lines), '\n')
  }

  lemma PrintedConcat(left: seq<Line>, right: seq<Line>)
    ensures Printed(left + right) == Printed(left) + Printed(right)
  {
    assert Map(Rendered, left + right) == Map(Rendered, left) + Map(Rendered, right);
    TerminatedConcat(Map(Rendered, left), Map(Rendered, right), '\n');
  }

  lemma PrintOneMore(chapters: seq<ChapterAudio>, k: nat, header: string)
    requires k < |chapters|
    ensures header + Printed(AllChapterLines(chapters, k + 1))
         == header + Printed(AllChapterLines(chapters, k))
            + Printed(ChapterLines(Boundary(chapters, k), Boundary(chapters, k + 1), chapters[k].title))
  {
    var before := AllChapterLines(chapters, k);
    var section := ChapterLines(Boundary(chapters, k), Boundary(chapters, k + 1), chapters[k].title);
    assert AllChapterLines(chapters, k + 1) == before + section;
    PrintedConcat(before, section);
    assert header + (Printed(before) + Printed(section)) == header + Printed(before) + Printed(section);
  }

  /** The document opens with the line by which its format is recognized. */
  lemma DocumentOpens(m: BookMetadata, chapters: seq<ChapterAudio>)
    ensures ";FFMETADATA1" + "\n" <= Printed(DocumentLines(m, chapters))
  {
    var lines := DocumentLines(m, chapters);
    assert lines == [Comment] + lines[1..];
    PrintedConcat([Comment], lines[1..]);
    TerminatedSingle(Rendered(Comment), '\n');
    assert Map(Rendered, [Comment]) == [Rendered(Comment)];
  }

  method Ffmetadata(m: BookMetadata, chapters: seq<ChapterAudio>) returns (output: string)
    ensures output == Printed(DocumentLines(m, chapters))
  {
    output := PrintHeader(m);
    var start: U64 := 0;
    for k := 0 to |chapters|
      invariant start == Boundary(chapters, k)
      invariant output == Printed(HeaderLines(m)) + Printed(AllChapterLines(chapters, k))
    {
      var end := SaturatingAddU64(start, chapters[k].durationMilliseconds);
      var title := EscapeFfmetadata(chapters[k].title);
      var range := [Field(Start, Digits(start)), Field(End, Digits(end)), Field(Title, title)];
      var printed := PrintLines(SECTION_LINES + range);
      PrintOneMore(chapters, k, Printed(HeaderLines(m)));
      output := output + printed;
      start := end;
    }
    PrintedConcat(HeaderLines(m), AllChapterLines(chapters, |chapters|));
  }

  method PrintHeader(m: BookMetadata) returns (output: string)
    ensures output == Printed(HeaderLines(m))
  {
    var title := EscapeFfmetadata(m.title);
    var lines := [Comment, Field(Title, title)];
    if m.authors != [] {
      var artist := EscapeFfmetadata(JoinedAuthors(m.authors));
      lines := lines + [Field(Artist, artist)];
    }
    ghost var withArtist := [Comment, Field(Title, Escaped(m.title))]
      + OptionalLine(Artist, Escaped(JoinedAuthors(m.authors)), m.authors != []);
    assert lines == withArtist;
    if m.series.Some? {
      var series := EscapeFfmetadata(m.series.value);
      lines := lines + [Field(Series, series)];
    }
    ghost var withSeries := withArtist + OptionalLine(Series, Escaped(m.series.GetOr("")), m.series.Some?);
    assert lines == withSeries;
    if m.seriesPart.Some? {
      lines := lines + [Field(SeriesPart, m.seriesPart.value)];
    }
    assert lines == withSeries + OptionalLine(SeriesPart, m.seriesPart.GetOr(""), m.seriesPart.Some?);
    output := PrintLines(lines);
  }

  method PrintLines(lines: seq<Line>) returns (output: string)
    ensures output == Printed(lines)
  {
    output := "";
    for i := 0 to |lines|
      invariant output == Printed(lines[..i])
    {
      assert lines[..i + 1] == lines[..i] + [lines[i]];
      PrintedConcat(lines[..i], [lines[i]]);
      TerminatedSingle(Rendered(lines[i]), '\n');
      assert Map(Rendered, [lines[i]]) == [Rendered(lines[i])];
      output := output + Rendered(lines[i]);
      output := output + ['\n'];
    }
    assert lines[..|lines|] == lines;
  }

  // ---- Reading it back ----

  datatype ReadChapter = ReadChapter(
    timebase: Option<string>,
    start: Option<string>,
    end: Option<string>,
    title: Option<string>)

  const UNREAD := ReadChapter(None, None, None, None)

  datatype Document = Document(
    title: Option<string>,
    artist: Option<string>,
    series: Option<string>,
    seriesPart: Option<string>,
    chapters: seq<ReadChapter>)

  const EMPTY := Document(None, None, None, None, [])

  function SetHeaderField(d: Document, key: FieldKey, value: string): Document {
    match key
    case Title => d.(title := Some(Unescaped(value)))
    case Artist => d.(artist := Some(Unescaped(value)))
    case Series => d.(series := Some(Unescaped(value)))
    case SeriesPart => d.(seriesPart := Some(Unescaped(value)))
    case _ => d
  }

  function SetChapterField(c: ReadChapter, key: FieldKey, value: string): ReadChapter {
    match key
    case Timebase => c.(timebase := Some(value))
    case Start => c.(start := Some(value))
    case End => c.(end := Some(value))
    case Title => c.(title := Some(Unescaped(value)))
    case _ => c
  }

  /** A field belongs to the section opened last, or to the book before any section. */
  function Interpreted(d: Document, line: Line): Document {
    match line
    case Comment => d
    case Blank => d
    case Section => d.(chapters := d.chapters + [UNREAD])
    case Field(key, value) =>
      if d.chapters == [] then SetHeaderField(d, key, value)
      else
        var n := |d.chapters| - 1;
        d.(chapters := d.chapters[n := SetChapterField(d.chapters[n], key, value)])
  }

  function InterpretedAll(d: Document, lines: seq<Line>): Document
    decreases |lines|
  {
    if lines == [] then d else InterpretedAll(Interpreted(d, lines[0]), lines[1..])
  }

  /** The lines of a text that can be read, in order. */
  function ParsedLines(pieces: seq<string>): seq<Line> {
    if pieces == [] then []
    else (if ParsedLine(pieces[0]).Some? then [ParsedLine(pieces[0]).value] else []) + ParsedLines(pieces[1..])
  }

  function ReadDocument(text: string): Document {
    InterpretedAll(EMPTY, ParsedLines(Split(text, '\n')))
  }

  lemma {:induction false} ParsedCons(piece: string, rest: seq<string>, line: Line)
    requires ParsedLine(piece) == Some(line)
    ensures ParsedLines([piece] + rest) == [line] + ParsedLines(rest)
  {
  }

  lemma {:induction false} ParsingReads(pieces: seq<string>, lines: seq<Line>, more: seq<string>)
    requires |pieces| == |lines| && forall i :: 0 <= i < |lines| ==> ParsedLine(pieces[i]) == Some(lines[i])
    ensures ParsedLines(pieces + more) == lines + ParsedLines(more)
  {
    if lines == [] {
      assert pieces + more == more;
    } else {
      ParsingReads(pieces[1..], lines[1..], more);
      ParsedCons(pieces[0], pieces[1..] + more, lines[0]);
      assert pieces + more == [pieces[0]] + (pieces[1..] + more);
      assert lines + ParsedLines(more) == [lines[0]] + (lines[1..] + ParsedLines(more));
    }
  }

  lemma {:induction false} ParsingUndoesRendering(lines: seq<Line>, more: seq<string>)
    ensures ParsedLines(Map(Rendered, lines) + more) == lines + ParsedLines(more)
  {
    forall i | 0 <= i < |lines|
      ensures ParsedLine(Map(Rendered, lines)[i]) == Some(lines[i])
    {
      LineRoundTrip(lines[i]);
    }
    ParsingReads(Map(Rendered, lines), lines, more);
  }

  lemma {:induction false} InterpretedConcat(d: Document, left: seq<Line>, right: seq<Line>)
    ensures InterpretedAll(d, left + right) == InterpretedAll(InterpretedAll(d, left), right)
    decreases |left|
  {
    if left == [] {
      assert left + right == right;
    } else {
      assert (left + right)[1..] == left[1..] + right;
      InterpretedConcat(Interpreted(d, left[0]), left[1..], right);
    }
  }

  lemma {:induction false} InterpretedOne(d: Document, line: Line)
    ensures InterpretedAll(d, [line]) == Interpreted(d, line)
  {
  }

  lemma {:induction false} InterpretedCons(d: Document, line: Line, lines: seq<Line>)
    ensures InterpretedAll(d, [line] + lines) == InterpretedAll(Interpreted(d, line), lines)
  {
  }

  function ReadHeader(m: BookMetadata): Document {
    Document(
      Some(WithoutReturns(m.title)),
      if m.authors == [] then None else Some(WithoutReturns(JoinedAuthors(m.authors))),
      if m.series.None? then None else Some(WithoutReturns(m.series.value)),
      if m.seriesPart.None? then None else Some(Unescaped(m.seriesPart.value)),
      [])
  }

  lemma {:induction false} OptionalReads(d: Document, lines: seq<Line>, key: FieldKey, value: string, present: bool)
    ensures InterpretedAll(d, lines + OptionalLine(key, value, present))
         == if present then Interpreted(InterpretedAll(d, lines), Field(key, value)) else InterpretedAll(d, lines)
  {
    InterpretedConcat(d, lines, OptionalLine(key, value, present));
    if present {
      InterpretedOne(InterpretedAll(d, lines), Field(key, value));
    }
  }

  /** The header's optional lines set exactly their own field. */
  lemma {:induction false} OptionalFieldReads(d: Document, lines: seq<Line>, before: Document, key: FieldKey,
                                              value: string, present: bool)
    requires InterpretedAll(d, lines) == before && before.chapters == []
    ensures InterpretedAll(d, lines + OptionalLine(key, value, present))
         == if present then SetHeaderField(before, key, value) else before
  {
    OptionalReads(d, lines, key, value, present);
  }

  lemma HeaderReads(m: BookMetadata)
    ensures InterpretedAll(EMPTY, HeaderLines(m)) == ReadHeader(m)
  {
    var artist, series, part := Escaped(JoinedAuthors(m.authors)), Escaped(m.series.GetOr("")), m.seriesPart.GetOr("");
    var read := ReadHeader(m);
    var first := TitleReads(m);
    var d := Document(read.title, None, None, None, []);
    OptionalFieldReads(EMPTY, first, d, Artist, artist, m.authors != []);
    EscapeRoundTrip(JoinedAuthors(m.authors));
    d := d.(artist := read.artist);
    var second := first + OptionalLine(Artist, artist, m.authors != []);
    OptionalFieldReads(EMPTY, second, d, Series, series, m.series.Some?);
    EscapeRoundTrip(m.series.GetOr(""));
    d := d.(series := read.series);
    var third := second + OptionalLine(Series, series, m.series.Some?);
    OptionalFieldReads(EMPTY, third, d, SeriesPart, part, m.seriesPart.Some?);
  }

  lemma TitleReads(m: BookMetadata) returns (lines: seq<Line>)
    ensures lines == [Comment, Field(Title, Escaped(m.title))]
    ensures InterpretedAll(EMPTY, lines) == Document(Some(WithoutReturns(m.title)), None, None, None, [])
  {
    lines := [Comment] + [Field(Title, Escaped(m.title))];
    InterpretedCons(EMPTY, Comment, [Field(Title, Escaped(m.title))]);
    InterpretedOne(EMPTY, Field(Title, Escaped(m.title)));
    EscapeRoundTrip(m.title);
  }

  function ReadBack(chapters: seq<ChapterAudio>, k: nat): ReadChapter
    requires k < |chapters|
  {
    ReadChapter(Some("1/1000"), Some(Digits(Boundary(chapters, k))), Some(Digits(Boundary(chapters, k + 1))),
        Some(WithoutReturns(chapters[k].title)))
  }

  lemma ChapterFieldReads(d: Document, before: seq<ReadChapter>, c: ReadChapter, key: FieldKey, value: string)
    requires d.chapters == before + [c]
    ensures Interpreted(d, Field(key, value)) == d.(chapters := before + [SetChapterField(c, key, value)])
  {
  }

  lemma {:induction false} InterpretedThree(d: Document, a: Line, b: Line, c: Line)
    ensures InterpretedAll(d, [a, b, c]) == Interpreted(Interpreted(Interpreted(d, a), b), c)
  {
    assert [a, b, c] == [a] + ([b] + [c]);
    InterpretedCons(d, a, [b] + [c]);
    InterpretedCons(Interpreted(d, a), b, [c]);
    InterpretedOne(Interpreted(Interpreted(d, a), b), c);
  }

  lemma {:induction false} SectionReads(d: Document)
    ensures InterpretedAll(d, SECTION_LINES) == d.(chapters := d.chapters + [UNREAD.(timebase := Some("1/1000"))])
  {
    InterpretedThree(d, Blank, Section, Field(Timebase, "1/1000"));
    ChapterFieldReads(d.(chapters := d.chapters + [UNREAD]), d.chapters, UNREAD, Timebase, "1/1000");
  }

  lemma {:induction false} RangeReads(d: Document, before: seq<ReadChapter>, start: string, end: string, title: string)
    requires d.chapters == before + [UNREAD.(timebase := Some("1/1000"))]
    ensures InterpretedAll(d, [Field(Start, start), Field(End, end), Field(Title, title)])
         == d.(chapters := before + [ReadChapter(Some("1/1000"), Some(start), Some(end), Some(Unescaped(title)))])
  {
    var none := UNREAD.(timebase := Some("1/1000"));
    var started := none.(start := Some(start));
    var ended := started.(end := Some(end));
    InterpretedThree(d, Field(Start, start), Field(End, end), Field(Title, title));
    ChapterFieldReads(d, before, none, Start, start);
    ChapterFieldReads(d.(chapters := before + [started]), before, started, End, end);
    ChapterFieldReads(d.(chapters := before + [ended]), before, ended, Title, title);
  }

  lemma {:induction false} ChapterReads(d: Document, start: nat, end: nat, title: string)
    ensures InterpretedAll(d, ChapterLines(start, end, title))
         == d.(chapters := d.chapters + [ReadChapter(Some("1/1000"), Some(Digits(start)), Some(Digits(end)),
                                                     Some(WithoutReturns(title)))])
  {
    InterpretedConcat(d, SECTION_LINES,
                      [Field(Start, Digits(start)), Field(End, Digits(end)), Field(Title, Escaped(title))]);
    SectionReads(d);
    RangeReads(InterpretedAll(d, SECTION_LINES), d.chapters, Digits(start), Digits(end), Escaped(title));
    EscapeRoundTrip(title);
  }

  function ReadBackAll(chapters: seq<ChapterAudio>, k: nat): seq<ReadChapter>
    requires k <= |chapters|
  {
    if k == 0 then [] else ReadBackAll(chapters, k - 1) + [ReadBack(chapters, k - 1)]
  }

  lemma {:induction false} ReadOneMore(d: Document, before: seq<Line>, section: seq<Line>, mid: Document,
                                       c: ReadChapter)
    requires InterpretedAll(d, before) == mid
    requires InterpretedAll(mid, section) == mid.(chapters := mid.chapters + [c])
    ensures InterpretedAll(d, before + section) == mid.(chapters := mid.chapters + [c])
  {
    InterpretedConcat(d, before, section);
  }

  /** The first `k` chapter sections read back as the first `k` chapters. */
  ghost predicate ReadsBack(d: Document, chapters: seq<ChapterAudio>, k: nat)
    requires k <= |chapters|
  {
    InterpretedAll(d, AllChapterLines(chapters, k)) == d.(chapters := ReadBackAll(chapters, k))
  }

  lemma {:induction false} NextChapterReads(d: Document, chapters: seq<ChapterAudio>, k: nat)
    requires 0 < k <= |chapters| && ReadsBack(d, chapters, k - 1)
    ensures ReadsBack(d, chapters, k)
  {
    var start, end, title := Boundary(chapters, k - 1), Boundary(chapters, k), chapters[k - 1].title;
    var mid := d.(chapters := ReadBackAll(chapters, k - 1));
    ChapterReads(mid, start, end, title);
    ReadOneMore(d, AllChapterLines(chapters, k - 1), ChapterLines(start, end, title), mid, ReadBack(chapters, k - 1));
  }

  lemma NoChapterReads(d: Document, chapters: seq<ChapterAudio>)
    requires d.chapters == []
    ensures ReadsBack(d, chapters, 0)
  {
  }

  lemma ChaptersRead(d: Document, chapters: seq<ChapterAudio>, k: nat)
    requires k <= |chapters| && d.chapters == []
    ensures ReadsBack(d, chapters, k)
  {
    NoChapterReads(d, chapters);
    for i := 0 to k
      invariant ReadsBack(d, chapters, i)
    {
      NextChapterReads(d, chapters, i + 1);
    }
  }

  predicate AllOneLine(lines: seq<Line>) {
    forall i :: 0 <= i < |lines| ==> OneLine(lines[i])
  }

  lemma RenderedIsFree(lines: seq<Line>)
    requires AllOneLine(lines)
    ensures FreeOf(Map(Rendered, lines), '\n')
  {
    forall i | 0 <= i < |lines|
      ensures '\n' !in Map(Rendered, lines)[i]
    {
      RenderedIsOneLine(lines[i]);
    }
  }

  lemma HeaderIsOneLineEach(m: BookMetadata)
    requires m.seriesPart.Some? ==> '\n' !in m.seriesPart.value
    ensures AllOneLine(HeaderLines(m))
  {
    EscapedHasNoNewline(m.title);
    EscapedHasNoNewline(JoinedAuthors(m.authors));
    EscapedHasNoNewline(m.series.GetOr(""));
  }

  lemma ChapterIsOneLineEach(start: nat, end: nat, title: string)
    ensures AllOneLine(ChapterLines(start, end, title))
  {
    EscapedHasNoNewline(title);
  }

  lemma {:induction false} ChaptersAreOneLineEach(chapters: seq<ChapterAudio>, k: nat)
    requires k <= |chapters|
    ensures AllOneLine(AllChapterLines(chapters, k))
  {
    if k == 0 {
    } else {
      ChaptersAreOneLineEach(chapters, k - 1);
      ChapterIsOneLineEach(Boundary(chapters, k - 1), Boundary(chapters, k), chapters[k - 1].title);
    }
  }

  /** Reading a printed document back gives its title, artist, series and every chapter title, apart
      from dropped carriage returns, and the printed chapter boundaries. */
  lemma {:induction false} DocumentRoundTrip(m: BookMetadata, chapters: seq<ChapterAudio>)
    requires m.seriesPart.Some? ==> '\n' !in m.seriesPart.value
    ensures ReadDocument(Printed(DocumentLines(m, chapters)))
         == ReadHeader(m).(chapters := ReadBackAll(chapters, |chapters|))
  {
    HeaderIsOneLineEach(m);
    ChaptersAreOneLineEach(chapters, |chapters|);
    PrintedReadsBack(DocumentLines(m, chapters));
    InterpretedConcat(EMPTY, HeaderLines(m), AllChapterLines(chapters, |chapters|));
    HeaderReads(m);
    ChaptersRead(ReadHeader(m), chapters, |chapters|);
  }

  lemma {:induction false} PrintedReadsBack(lines: seq<Line>)
    requires AllOneLine(lines)
    ensures ReadDocument(Printed(lines)) == InterpretedAll(EMPTY, lines)
  {
    var pieces := Map(Rendered, lines);
    RenderedIsFree(lines);
    SplitTerminated(pieces, "", '\n');
    assert Printed(lines) + "" == Printed(lines);
    SplitNone("", '\n');
    ParsingUndoesRendering(lines, [""]);
    BlankPiece();
    InterpretedConcat(EMPTY, lines, [Blank]);
    InterpretedOne(InterpretedAll(EMPTY, lines), Blank);
  }

  lemma BlankPiece()
    ensures ParsedLines([""]) == [Blank]
  {
  }

  // ---- Chapter ranges ----

  function TotalDuration(chapters: seq<ChapterAudio>, k: nat): nat
    requires k <= |chapters|
  {
    if k == 0 then 0 else TotalDuration(chapters, k - 1) + chapters[k - 1].durationMilliseconds
  }

  /** Each boundary is the sum of the durations before it, capped at the largest u64. */
  lemma {:induction false} BoundaryIsTotal(chapters: seq<ChapterAudio>, k: nat)
    requires k <= |chapters|
    ensures Boundary(chapters, k) == Min(TotalDuration(chapters, k), U64_MAX)
  {
    if k == 0 {
    } else {
      BoundaryIsTotal(chapters, k - 1);
    }
  }

  lemma {:induction false} ReadBackAt(chapters: seq<ChapterAudio>, k: nat)
    requires k <= |chapters|
    ensures |ReadBackAll(chapters, k)| == k
    ensures forall i :: 0 <= i < k ==> ReadBackAll(chapters, k)[i] == ReadBack(chapters, i)
  {
    if k == 0 {
    } else {
      ReadBackAt(chapters, k - 1);
      assert ReadBackAll(chapters, k) == ReadBackAll(chapters, k - 1) + [ReadBack(chapters, k - 1)];
    }
  }

  /** The number a field holds, if it is one. */
  function NumberRead(field: Option<string>): Option<nat> {
    if field.Some? && forall i :: 0 <= i < |field.value| ==> '0' <= field.value[i] <= '9'
    then Some(NumberOf(field.value)) else None
  }

  /** The ranges read back from a printed document, as numbers: each starts at the sum of the durations
      before it and ends at that sum with its own, capped at the largest u64. So they start at zero, are
      contiguous, and end at the sum of all durations when that fits. */
  lemma {:induction false} RangesAreContiguous(m: BookMetadata, chapters: seq<ChapterAudio>)
    requires m.seriesPart.Some? ==> '\n' !in m.seriesPart.value
    ensures var read := ReadDocument(Printed(DocumentLines(m, chapters))).chapters;
            && |read| == |chapters|
            && (forall k :: 0 <= k < |read| ==> read[k].timebase == Some("1/1000"))
            && (forall k :: 0 <= k < |read| ==>
                NumberRead(read[k].start) == Some(Min(TotalDuration(chapters, k), U64_MAX)))
            && (forall k :: 0 <= k < |read| ==>
                NumberRead(read[k].end) == Some(Min(TotalDuration(chapters, k + 1), U64_MAX)))
            && (read != [] ==> NumberRead(read[0].start) == Some(0))
            && (forall k :: 0 <= k < |read| - 1 ==> read[k].end == read[k + 1].start)
            && (read != [] && TotalDuration(chapters, |chapters|) <= U64_MAX ==>
                  NumberRead(read[|read| - 1].end) == Some(TotalDuration(chapters, |chapters|)))
  {
    DocumentRoundTrip(m, chapters);
    var read := ReadBackAll(chapters, |chapters|);
    RangesRead(chapters);
    assert ReadDocument(Printed(DocumentLines(m, chapters))).chapters == read;
  }

  lemma {:induction false} RangesRead(chapters: seq<ChapterAudio>)
    ensures var read := ReadBackAll(chapters, |chapters|);
            && |read| == |chapters|
            && (forall k :: 0 <= k < |read| ==> read[k].timebase == Some("1/1000"))
            && (forall k :: 0 <= k < |read| ==>
                NumberRead(read[k].start) == Some(Min(TotalDuration(chapters, k), U64_MAX)))
            && (forall k :: 0 <= k < |read| ==>
                NumberRead(read[k].end) == Some(Min(TotalDuration(chapters, k + 1), U64_MAX)))
            && (forall k :: 0 <= k < |read| - 1 ==> read[k].end == read[k + 1].start)
  {
    ReadBackAt(chapters, |chapters|);
    var read := ReadBackAll(chapters, |chapters|);
    forall k | 0 <= k < |read|
      ensures NumberRead(read[k].start) == Some(Min(TotalDuration(chapters, k), U64_MAX))
      ensures NumberRead(read[k].end) == Some(Min(TotalDuration(chapters, k + 1), U64_MAX))
    {
      BoundaryReadsBack(chapters, k);
      BoundaryReadsBack(chapters, k + 1);
      assert read[k] == ReadBack(chapters, k);
    }
  }

  lemma {:induction false} BoundaryReadsBack(chapters: seq<ChapterAudio>, k: nat)
    requires k <= |chapters|
    ensures NumberRead(Some(Digits(Boundary(chapters, k)))) == Some(Min(TotalDuration(chapters, k), U64_MAX))
  {
    BoundaryIsTotal(chapters, k);
    DigitsRoundTrip(Boundary(chapters, k));
  }
}

/** Assembly of a chapter's text from its semantic blocks, with byte offsets for every paragraph. */
module ChapterText {
  import opened Bounded
  import opened Wrappers
  import opened Text

  const NEWLINE: Byte := 10
  const BLANK_LINE: seq<Byte> := [10, 10]

  datatype Kind = Heading | Paragraph | ListItem | Quote | Preformatted | ImageDescription

  /** One node of the parsed document: its kind if it is a text block, its parent, how far it stands from
      the root, and its raw text. */
  datatype Node = Node(kind: Option<Kind>, parent: Option<nat>, depth: nat, raw: string)

  /** The document's nodes in the order the parser made them. The tree library is not part of this model;
      `selfFirst` says whether its walk over an element's ancestors begins with the element itself. */
  datatype Document = Document(nodes: seq<Node>, selfFirst: bool)

  datatype Candidate = Candidate(sourceIndex: nat, kind: Kind, text: string)

  /** Offsets count the bytes of the chapter text. */
  datatype ImportedParagraph = ImportedParagraph(sourceIndex: nat, kind: Kind, text: string, start: nat, end: nat)

  // ---- Whitespace ----

  function WordEnd(s: string): (n: nat)
    ensures n <= |s| && (forall i :: 0 <= i < n ==> !IsWhitespace(s[i]))
    ensures n < |s| ==> IsWhitespace(s[n])
  {
    if s == [] || IsWhitespace(s[0]) then 0 else 1 + WordEnd(s[1..])
  }

  /** The maximal runs without whitespace. */
  function Words(s: string): seq<string>
    decreases |s|
  {
    if s == [] then []
    else if IsWhitespace(s[0]) then Words(s[1..])
    else [s[..WordEnd(s)]] + Words(s[WordEnd(s)..])
  }

  function JoinedBySpace(words: seq<string>): string {
    if words == [] then ""
    else if |words| == 1 then words[0]
    else words[0] + " " + JoinedBySpace(words[1..])
  }

  function NormalizeWhitespace(s: string): string {
    JoinedBySpace(Words(s))
  }

  predicate IsWord(word: string) {
    word != "" && forall i :: 0 <= i < |word| ==> !IsWhitespace(word[i])
  }

  predicate AllWords(words: seq<string>) {
    forall i :: 0 <= i < |words| ==> IsWord(words[i])
  }

  lemma {:induction false} WordsAreWords(s: string)
    ensures AllWords(Words(s))
    decreases |s|
  {
    if s == [] {
    } else {
      if IsWhitespace(s[0]) {
        WordsAreWords(s[1..]);
      } else {
        WordsAreWords(s[WordEnd(s)..]);
      }
    }
  }

  lemma {:induction false} FirstWord(word: string, rest: string)
    requires IsWord(word) && (rest == "" || IsWhitespace(rest[0]))
    ensures Words(word + rest) == [word] + Words(rest)
  {
    var s := word + rest;
    var n := WordEnd(s);
    assert s[0] == word[0];
    assert n >= |word| by {
      assert forall i :: 0 <= i < |word| ==> s[i] == word[i];
    }
    assert rest != "" ==> s[|word|] == rest[0];
    assert n == |word| && s[..n] == word && s[n..] == rest;
  }

  lemma {:induction false} JoiningKeepsWords(words: seq<string>)
    requires AllWords(words)
    ensures Words(JoinedBySpace(words)) == words
  {
    if |words| == 1 {
      FirstWord(words[0], "");
      assert words[0] + "" == words[0];
    } else if |words| > 1 {
      var rest := " " + JoinedBySpace(words[1..]);
      assert AllWords(words[1..]);
      JoiningKeepsWords(words[1..]);
      assert rest[1..] == JoinedBySpace(words[1..]);
      FirstWord(words[0], rest);
      assert words[0] + " " + JoinedBySpace(words[1..]) == words[0] + rest;
    }
  }

  /** Normalizing keeps the words and nothing else, so normalizing twice changes nothing more. */
  lemma {:induction false} NormalizingKeepsWords(s: string)
    ensures Words(NormalizeWhitespace(s)) == Words(s)
    ensures NormalizeWhitespace(NormalizeWhitespace(s)) == NormalizeWhitespace(s)
  {
    WordsAreWords(s);
    JoiningKeepsWords(Words(s));
  }

  lemma {:induction false} JoinedHasNoNewline(words: seq<string>)
    requires AllWords(words)
    ensures '\n' !in JoinedBySpace(words)
  {
    if words == [] {
    } else {
      assert IsWord(words[0]) && IsWhitespace('\n');
      assert forall i :: 0 <= i < |words[0]| ==> words[0][i] != '\n';
      if |words| > 1 {
        assert AllWords(words[1..]);
        JoinedHasNoNewline(words[1..]);
      }
    }
  }

  lemma NormalizedHasNoNewline(s: string)
    ensures '\n' !in NormalizeWhitespace(s)
  {
    WordsAreWords(s);
    JoinedHasNoNewline(Words(s));
  }

  // ---- Candidates ----

  predicate SameBlock(left: Candidate, right: Candidate) {
    left.sourceIndex == right.sourceIndex || left.text == right.text
  }

  /** Parents exist and stand nearer to the root. */
  predicate IsTree(nodes: seq<Node>) {
    forall i :: 0 <= i < |nodes| && nodes[i].parent.Some? ==>
      nodes[i].parent.value < |nodes| && nodes[nodes[i].parent.value].depth < nodes[i].depth
  }

  /** The proper ancestors of a node, nearest first. */
  function Ancestors(nodes: seq<Node>, i: nat): (chain: seq<nat>)
    requires IsTree(nodes) && i < |nodes|
    ensures forall k :: 0 <= k < |chain| ==> chain[k] < |nodes| && nodes[chain[k]].depth < nodes[i].depth
    decreases nodes[i].depth
  {
    var parent := nodes[i].parent;
    if parent.None? then [] else [parent.value] + Ancestors(nodes, parent.value)
  }

  /** The library's walk from a node towards the root. */
  function Walk(d: Document, i: nat): (walk: seq<nat>)
    requires IsTree(d.nodes) && i < |d.nodes|
    ensures forall k :: 0 <= k < |walk| ==> walk[k] < |d.nodes|
  {
    if d.selfFirst then [i] + Ancestors(d.nodes, i) else Ancestors(d.nodes, i)
  }

  /** Some of these nodes is a text block. */
  predicate HasBlock(nodes: seq<Node>, ids: seq<nat>) {
    exists k :: 0 <= k < |ids| && ids[k] < |nodes| && nodes[ids[k]].kind.Some?
  }

  lemma HasBlockCons(nodes: seq<Node>, id: nat, ids: seq<nat>)
    requires id < |nodes|
    ensures HasBlock(nodes, [id] + ids) <==> nodes[id].kind.Some? || HasBlock(nodes, ids)
  {
    var all := [id] + ids;
    if HasBlock(nodes, ids) {
      var k :| 0 <= k < |ids| && ids[k] < |nodes| && nodes[ids[k]].kind.Some?;
      assert all[k + 1] == ids[k];
    }
    if nodes[id].kind.Some? {
      assert all[0] == id;
    }
  }

  /** Some node of the walk but its first is a text block. */
  predicate Nested(d: Document, i: nat)
    requires IsTree(d.nodes) && i < |d.nodes|
  {
    Walk(d, i) != [] && HasBlock(d.nodes, Walk(d, i)[1..])
  }

  predicate Taken(d: Document, i: nat)
    requires IsTree(d.nodes) && i < |d.nodes|
  {
    d.nodes[i].kind.Some? && !Nested(d, i) && NormalizeWhitespace(d.nodes[i].raw) != ""
  }

  /** The blocks with text among the first `n` nodes, in document order; sorting them by index leaves them
      as they are. */
  function CollectedUpTo(d: Document, n: nat): seq<Candidate>
    requires IsTree(d.nodes) && n <= |d.nodes|
  {
    if n == 0 then []
    else
      CollectedUpTo(d, n - 1)
      + if Taken(d, n - 1)
        then [Candidate(n - 1, d.nodes[n - 1].kind.value, NormalizeWhitespace(d.nodes[n - 1].raw))] else []
  }

  function Collected(d: Document): seq<Candidate>
    requires IsTree(d.nodes)
  {
    CollectedUpTo(d, |d.nodes|)
  }

  // ---- Outermost blocks ----

  predicate HasBlockAbove(nodes: seq<Node>, i: nat)
    requires IsTree(nodes) && i < |nodes|
  {
    HasBlock(nodes, Ancestors(nodes, i))
  }

  /** What the test for nesting finds: a block above the element, if the walk begins with the element, and
      else only a block above its parent. */
  lemma NestedFindsBlocksAbove(d: Document, i: nat)
    requires IsTree(d.nodes) && i < |d.nodes|
    ensures d.selfFirst ==> (Nested(d, i) <==> HasBlockAbove(d.nodes, i))
    ensures !d.selfFirst ==>
              (Nested(d, i) <==> d.nodes[i].parent.Some? && HasBlockAbove(d.nodes, d.nodes[i].parent.value))
  {
  }

  /** A block counts as outermost exactly when no block stands above it, unless the walk skips its parent:
      then the only exception is a block directly inside a block that is itself outermost. */
  lemma OutermostIff(d: Document, i: nat)
    requires IsTree(d.nodes) && i < |d.nodes|
    ensures Nested(d, i) == HasBlockAbove(d.nodes, i)
       <==> d.selfFirst
            || d.nodes[i].parent.None? || d.nodes[d.nodes[i].parent.value].kind.None?
            || HasBlockAbove(d.nodes, d.nodes[i].parent.value)
  {
    NestedFindsBlocksAbove(d, i);
    if d.nodes[i].parent.Some? {
      var p := d.nodes[i].parent.value;
      HasBlockCons(d.nodes, p, Ancestors(d.nodes, p));
    }
  }

  /** Drops every candidate that matches the last one kept. */
  function Deduplicated(candidates: seq<Candidate>): seq<Candidate> {
    if candidates == [] then []
    else
      var n := |candidates| - 1;
      var kept := Deduplicated(candidates[..n]);
      if kept != [] && SameBlock(candidates[n], kept[|kept| - 1]) then kept else kept + [candidates[n]]
  }

  predicate Ordered(candidates: seq<Candidate>) {
    forall i, k :: 0 <= i < k < |candidates| ==> candidates[i].sourceIndex < candidates[k].sourceIndex
  }

  predicate Clean(c: Candidate) {
    c.text != "" && '\n' !in c.text
  }

  lemma BlockIsClean(i: nat, node: Node)
    requires node.kind.Some? && NormalizeWhitespace(node.raw) != ""
    ensures Clean(Candidate(i, node.kind.value, NormalizeWhitespace(node.raw)))
  {
    NormalizedHasNoNewline(node.raw);
  }

  /** Clean candidates in document order, all from the first `n` nodes. */
  predicate CleanUpTo(candidates: seq<Candidate>, n: nat) {
    Ordered(candidates) && forall i :: 0 <= i < |candidates| ==> Clean(candidates[i]) && candidates[i].sourceIndex < n
  }

  lemma CleanAppend(candidates: seq<Candidate>, c: Candidate, n: nat)
    requires CleanUpTo(candidates, n) && Clean(c) && c.sourceIndex == n
    ensures CleanUpTo(candidates + [c], n + 1)
  {
  }

  lemma {:induction false} CollectedIsClean(d: Document, n: nat)
    requires IsTree(d.nodes) && n <= |d.nodes|
    ensures CleanUpTo(CollectedUpTo(d, n), n)
  {
    if n == 0 {
    } else {
      CollectedIsClean(d, n - 1);
      var earlier, node := CollectedUpTo(d, n - 1), d.nodes[n - 1];
      if Taken(d, n - 1) {
        BlockIsClean(n - 1, node);
        CleanAppend(earlier, Candidate(n - 1, node.kind.value, NormalizeWhitespace(node.raw)), n - 1);
      } else {
        assert CollectedUpTo(d, n) == earlier;
      }
    }
  }

  /** The independent reading: a block is kept when its text differs from the block before it. */
  function TextChanges(candidates: seq<Candidate>): seq<Candidate> {
    if candidates == [] then []
    else
      var n := |candidates| - 1;
      TextChanges(candidates[..n])
      + if n > 0 && candidates[n].text == candidates[n - 1].text then [] else [candidates[n]]
  }

  /** For blocks in document order, deduplication collapses each run of equal texts to its first. */
  lemma {:induction false} DeduplicationCollapsesRuns(candidates: seq<Candidate>)
    requires Ordered(candidates)
    ensures Deduplicated(candidates) == TextChanges(candidates)
    ensures candidates != [] ==>
              var kept := Deduplicated(candidates);
              var last := candidates[|candidates| - 1];
              kept != [] && kept[|kept| - 1].text == last.text && kept[|kept| - 1].sourceIndex <= last.sourceIndex
  {
    if candidates == [] {
    } else {
      DeduplicationCollapsesRuns(candidates[..|candidates| - 1]);
    }
  }

  predicate Alternating(kept: seq<Candidate>) {
    forall i :: 0 <= i < |kept| - 1 ==> !SameBlock(kept[i + 1], kept[i])
  }

  lemma {:induction false} NeighboursDiffer(candidates: seq<Candidate>)
    ensures Alternating(Deduplicated(candidates))
    ensures forall c :: c in Deduplicated(candidates) ==> c in candidates
  {
    if candidates == [] {
    } else {
      var n := |candidates| - 1;
      assert candidates == candidates[..n] + [candidates[n]];
      NeighboursDiffer(candidates[..n]);
    }
  }

  // ---- Assembly ----

  /** The paragraphs' bytes with a blank line between each two. */
  function Assembled(candidates: seq<Candidate>): seq<Byte> {
    if candidates == [] then []
    else
      var n := |candidates| - 1;
      Assembled(candidates[..n]) + (if n == 0 then [] else BLANK_LINE) + Utf8(candidates[n].text)
  }

  /** A paragraph is the slice of the text at its offsets. */
  predicate SliceAt(text: seq<Byte>, p: ImportedParagraph) {
    p.start < p.end <= |text| && text[p.start..p.end] == Utf8(p.text)
  }

  /** Exactly a blank line stands between two paragraphs. */
  predicate Follows(text: seq<Byte>, p: ImportedParagraph, q: ImportedParagraph) {
    q.start == p.end + 2 <= |text| && text[p.end..q.start] == BLANK_LINE
  }

  /** Every paragraph is the slice at its offsets, and the slices cover the text up to blank lines. */
  predicate Placed(text: seq<Byte>, paragraphs: seq<ImportedParagraph>) {
    && (forall i :: 0 <= i < |paragraphs| ==> SliceAt(text, paragraphs[i]))
    && (forall i :: 0 <= i < |paragraphs| - 1 ==> Follows(text, paragraphs[i], paragraphs[i + 1]))
    && (paragraphs == [] ==> text == [])
    && (paragraphs != [] ==> paragraphs[0].start == 0 && paragraphs[|paragraphs| - 1].end == |text|)
  }

  lemma TextGrows(text: seq<Byte>, longer: seq<Byte>, p: ImportedParagraph, q: ImportedParagraph)
    requires text <= longer
    ensures SliceAt(text, p) ==> SliceAt(longer, p)
    ensures Follows(text, p, q) ==> Follows(longer, p, q)
  {
  }

  predicate Describes(p: ImportedParagraph, c: Candidate) {
    p.sourceIndex == c.sourceIndex && p.kind == c.kind && p.text == c.text
  }

  lemma {:induction false} PlaceOneMore(text: seq<Byte>, paragraphs: seq<ImportedParagraph>, p: ImportedParagraph,
                                        gap: seq<Byte>)
    requires Placed(text, paragraphs) && p.text != ""
    requires text == [] ==> paragraphs == []
    requires gap == if text == [] then [] else BLANK_LINE
    requires p.start == |text| + |gap| && p.end == p.start + |Utf8(p.text)|
    ensures Placed(text + gap + Utf8(p.text), paragraphs + [p])
  {
    var longer := text + gap + Utf8(p.text);
    var all := paragraphs + [p];
    Utf8Grows(p.text);
    assert longer[p.start..p.end] == Utf8(p.text);
    forall i | 0 <= i < |all|
      ensures SliceAt(longer, all[i])
    {
      TextGrows(text, longer, all[i], p);
    }
    forall i | 0 <= i < |all| - 1
      ensures Follows(longer, all[i], all[i + 1])
    {
      TextGrows(text, longer, all[i], all[i + 1]);
      if i + 1 == |paragraphs| {
        assert longer[|text|..|text| + 2] == BLANK_LINE;
      } else {
        assert Follows(text, paragraphs[i], paragraphs[i + 1]);
      }
    }
  }

  lemma AssembledPrefix(candidates: seq<Candidate>, i: nat)
    requires i < |candidates|
    ensures Assembled(candidates[..i + 1])
         == Assembled(candidates[..i]) + (if i == 0 then [] else BLANK_LINE) + Utf8(candidates[i].text)
  {
    assert candidates[..i + 1][..i] == candidates[..i];
  }

  method AssembleText(candidates: seq<Candidate>) returns (text: seq<Byte>, paragraphs: seq<ImportedParagraph>)
    requires forall i :: 0 <= i < |candidates| ==> Clean(candidates[i])
    ensures text == Assembled(candidates)
    ensures Placed(text, paragraphs)
    ensures |paragraphs| == |candidates| && forall i :: 0 <= i < |candidates| ==>
        Describes(paragraphs[i], candidates[i])
  {
    text := [];
    paragraphs := [];
    for i := 0 to |candidates|
      invariant text == Assembled(candidates[..i])
      invariant text == [] <==> i == 0
      invariant Placed(text, paragraphs)
      invariant |paragraphs| == i && forall k :: 0 <= k < i ==> Describes(paragraphs[k], candidates[k])
    {
      var c := candidates[i];
      ghost var before := text;
      ghost var gap := if text == [] then [] else BLANK_LINE;
      AssembledPrefix(candidates, i);
      if text != [] {
        text := text + BLANK_LINE;
      }
      var start := |text|;
      text := text + Utf8(c.text);
      Utf8Grows(c.text);
      var p := ImportedParagraph(c.sourceIndex, c.kind, c.text, start, |text|);
      PlaceOneMore(before, paragraphs, p, gap);
      assert text == before + gap + Utf8(c.text);
      paragraphs := paragraphs + [p];
    }
    assert candidates[..|candidates|] == candidates;
  }

  function ChapterTitle(order: nat, candidates: seq<Candidate>): string {
    if candidates == [] then "Chapter " + Digits(order + 1)
    else if candidates[0].kind.Heading? then candidates[0].text
    else ChapterTitle(order, candidates[1..])
  }

  predicate FirstHeading(paragraphs: seq<ImportedParagraph>, i: int) {
    0 <= i < |paragraphs| && paragraphs[i].kind.Heading? && forall k :: 0 <= k < i ==> !paragraphs[k].kind.Heading?
  }

  /** A chapter is called by its first heading, or by its number when it has none. */
  lemma {:induction false} TitleOfBlocks(order: nat, blocks: seq<Candidate>, paragraphs: seq<ImportedParagraph>)
    requires |paragraphs| == |blocks| && forall i :: 0 <= i < |blocks| ==> Describes(paragraphs[i], blocks[i])
    ensures forall i :: FirstHeading(paragraphs, i) ==> ChapterTitle(order, blocks) == paragraphs[i].text
    ensures (forall i :: 0 <= i < |paragraphs| ==> !paragraphs[i].kind.Heading?) ==>
              ChapterTitle(order, blocks) == "Chapter " + Digits(order + 1)
  {
    if blocks != [] && !blocks[0].kind.Heading? {
      TitleOfBlocks(order, blocks[1..], paragraphs[1..]);
      assert Describes(paragraphs[0], blocks[0]);
      forall i | FirstHeading(paragraphs, i)
        ensures ChapterTitle(order, blocks) == paragraphs[i].text
      {
        assert i > 0 && FirstHeading(paragraphs[1..], i - 1);
      }
    }
  }

  /** The loop over an element's ancestors, its first step skipped. */
  method IsNested(d: Document, i: nat) returns (nested: bool)
    requires IsTree(d.nodes) && i < |d.nodes|
    ensures nested == Nested(d, i)
  {
    var walk := Walk(d, i);
    nested := false;
    if walk == [] {
      return;
    }
    var rest := walk[1..];
    for k := 0 to |rest|
      invariant nested == HasBlock(d.nodes, rest[..k])
    {
      assert rest[..k + 1] == rest[..k] + [rest[k]];
      if d.nodes[rest[k]].kind.Some? {
        assert rest[..k + 1][k] == rest[k];
        nested := true;
      }
    }
    assert rest[..|rest|] == rest;
  }

  method CollectCandidates(d: Document) returns (candidates: seq<Candidate>)
    requires IsTree(d.nodes)
    ensures candidates == Collected(d)
  {
    candidates := [];
    for i := 0 to |d.nodes|
      invariant candidates == CollectedUpTo(d, i)
    {
      var n := d.nodes[i];
      if n.kind.Some? {
        var nested := IsNested(d, i);
        var normalized := NormalizeWhitespace(n.raw);
        if !nested && normalized != "" {
          candidates := candidates + [Candidate(i, n.kind.value, normalized)];
        }
      }
    }
  }

  /** Extracts a chapter: its text, its paragraphs, its title. */
  method ExtractChapter(order: nat, d: Document)
    returns (text: seq<Byte>, paragraphs: seq<ImportedParagraph>, title: string)
    requires IsTree(d.nodes)
    ensures text == Assembled(TextChanges(Collected(d)))
    ensures Placed(text, paragraphs)
    ensures var blocks := TextChanges(Collected(d));
            |paragraphs| == |blocks| && forall i :: 0 <= i < |blocks| ==> Describes(paragraphs[i], blocks[i])
    ensures forall i :: 0 <= i < |paragraphs| - 1 ==> paragraphs[i].text != paragraphs[i + 1].text
    ensures paragraphs != [] ==> SplitBlank(text) == Contents(paragraphs)
    ensures title == ChapterTitle(order, TextChanges(Collected(d)))
    ensures forall i :: FirstHeading(paragraphs, i) ==> title == paragraphs[i].text
    ensures (forall i :: 0 <= i < |paragraphs| ==> !paragraphs[i].kind.Heading?) ==>
              title == "Chapter " + Digits(order + 1)
  {
    var candidates := CollectCandidates(d);
    CandidatesAreFit(d);
    candidates := Deduplicated(candidates);
    title := ChapterTitle(order, candidates);
    text, paragraphs := AssembleText(candidates);
    ParagraphsAreBlocks(candidates, text, paragraphs);
    TitleOfBlocks(order, candidates, paragraphs);
  }

  lemma {:induction false} ParagraphsAreBlocks(blocks: seq<Candidate>, text: seq<Byte>,
                                               paragraphs: seq<ImportedParagraph>)
    requires forall i :: 0 <= i < |blocks| ==> Clean(blocks[i])
    requires forall i :: 0 <= i < |blocks| - 1 ==> blocks[i].text != blocks[i + 1].text
    requires text == Assembled(blocks) && |paragraphs| == |blocks|
    requires forall i :: 0 <= i < |blocks| ==> Describes(paragraphs[i], blocks[i])
    ensures forall i :: 0 <= i < |paragraphs| - 1 ==> paragraphs[i].text != paragraphs[i + 1].text
    ensures paragraphs != [] ==> SplitBlank(text) == Contents(paragraphs)
  {
    forall i | 0 <= i < |paragraphs| - 1
      ensures paragraphs[i].text != paragraphs[i + 1].text
    {
      assert Describes(paragraphs[i], blocks[i]) && Describes(paragraphs[i + 1], blocks[i + 1]);
    }
    assert Contents(paragraphs) == Encoded(blocks);
    if paragraphs != [] {
      SplittingRestoresParagraphs(blocks);
    }
  }

  lemma CandidatesAreFit(d: Document)
    requires IsTree(d.nodes)
    ensures var kept := Deduplicated(Collected(d));
            && kept == TextChanges(Collected(d))
            && (forall i :: 0 <= i < |kept| ==> Clean(kept[i]))
            && (forall i :: 0 <= i < |kept| - 1 ==> kept[i].text != kept[i + 1].text)
  {
    var candidates := Collected(d);
    CollectedIsClean(d, |d.nodes|);
    DeduplicationCollapsesRuns(candidates);
    NeighboursDiffer(candidates);
    var kept := Deduplicated(candidates);
    forall i | 0 <= i < |kept|
      ensures Clean(kept[i])
    {
      assert kept[i] in candidates;
    }
    forall i | 0 <= i < |kept| - 1
      ensures kept[i].text != kept[i + 1].text
    {
      assert !SameBlock(kept[i + 1], kept[i]);
    }
  }

  // ---- Splitting on blank lines ----

  predicate BlankAt(text: seq<Byte>, i: nat) {
    i + 1 < |text| && text[i] == NEWLINE && text[i + 1] == NEWLINE
  }

  /** The position of the first blank line, or the length when there is none. */
  function FirstBlank(text: seq<Byte>): (i: nat)
    ensures i <= |text| && forall k :: 0 <= k < i ==> !BlankAt(text, k)
    ensures i < |text| ==> BlankAt(text, i)
  {
    if text == [] || BlankAt(text, 0) then 0
    else
      var i := 1 + FirstBlank(text[1..]);
      assert forall k :: 1 <= k < i ==> BlankAt(text, k) == BlankAt(text[1..], k - 1);
      i
  }

  function SplitBlank(text: seq<Byte>): seq<seq<Byte>>
    decreases |text|
  {
    var i := FirstBlank(text);
    if i == |text| then [text] else [text[..i]] + SplitBlank(text[i + 2..])
  }

  function Contents(paragraphs: seq<ImportedParagraph>): seq<seq<Byte>> {
    seq(|paragraphs|, i requires 0 <= i < |paragraphs| => Utf8(paragraphs[i].text))
  }

  function Encoded(candidates: seq<Candidate>): seq<seq<Byte>> {
    seq(|candidates|, i requires 0 <= i < |candidates| => Utf8(candidates[i].text))
  }

  lemma {:induction false} SplitOffFirst(first: seq<Byte>, rest: seq<Byte>)
    requires NEWLINE !in first
    ensures SplitBlank(first + BLANK_LINE + rest) == [first] + SplitBlank(rest)
  {
    var text := first + BLANK_LINE + rest;
    forall k | 0 <= k < |first|
      ensures !BlankAt(text, k)
    {
      assert text[k] == first[k];
    }
    assert BlankAt(text, |first|);
    assert FirstBlank(text) == |first|;
    assert text[..|first|] == first && text[|first| + 2..] == rest;
  }

  lemma {:induction false} NothingToSplit(text: seq<Byte>)
    requires NEWLINE !in text
    ensures SplitBlank(text) == [text]
  {
  }

  lemma TailOfFront<T>(s: seq<T>, n: nat)
    requires 1 <= n < |s|
    ensures s[..n][1..] == s[1..][..n - 1] && s[1..][n - 1] == s[n]
  {
  }

  /** The assembled text, taken apart from the front. */
  lemma {:induction false} AssembledFromFront(candidates: seq<Candidate>)
    requires |candidates| >= 2
    ensures Assembled(candidates) == Utf8(candidates[0].text) + BLANK_LINE + Assembled(candidates[1..])
  {
    var n := |candidates| - 1;
    AssembledStep(candidates);
    if n == 1 {
      OneParagraph(candidates[..1]);
      OneParagraph(candidates[1..]);
    } else {
      AssembledFromFront(candidates[..n]);
      TailOfFront(candidates, n);
      AssembledStep(candidates[1..]);
      Regroup(Utf8(candidates[0].text), BLANK_LINE, Assembled(candidates[1..][..n - 1]), Utf8(candidates[n].text));
    }
  }

  lemma {:induction false} AssembledStep(candidates: seq<Candidate>)
    requires |candidates| >= 2
    ensures Assembled(candidates)
         == Assembled(candidates[..|candidates| - 1]) + BLANK_LINE + Utf8(candidates[|candidates| - 1].text)
  {
  }

  lemma Regroup(first: seq<Byte>, gap: seq<Byte>, middle: seq<Byte>, last: seq<Byte>)
    ensures (first + gap + middle) + gap + last == first + gap + (middle + gap + last)
  {
  }

  lemma {:induction false} OneParagraph(candidates: seq<Candidate>)
    requires |candidates| == 1
    ensures Assembled(candidates) == Utf8(candidates[0].text)
  {
  }

  lemma EncodedFromFront(candidates: seq<Candidate>)
    requires candidates != []
    ensures Encoded(candidates) == [Utf8(candidates[0].text)] + Encoded(candidates[1..])
  {
  }

  /** Splitting a non-empty chapter on blank lines gives back exactly its paragraphs. */
  lemma {:induction false} SplittingRestoresParagraphs(candidates: seq<Candidate>)
    requires candidates != [] && forall i :: 0 <= i < |candidates| ==> Clean(candidates[i])
    ensures SplitBlank(Assembled(candidates)) == Encoded(candidates)
  {
    AsciiStandsForItself(candidates[0].text, '\n');
    if |candidates| == 1 {
      OneParagraph(candidates);
      NothingToSplit(Utf8(candidates[0].text));
      assert Encoded(candidates) == [Utf8(candidates[0].text)];
    } else {
      AssembledFromFront(candidates);
      SplitOffFirst(Utf8(candidates[0].text), Assembled(candidates[1..]));
      EncodedFromFront(candidates);
      SplittingRestoresParagraphs(candidates[1..]);
    }
  }
}

/** Characters and strings as the Rust sources treat them. */
module Text {
  import opened Bounded
  import opened Wrappers

  /** The Unicode White_Space property, as `char::is_whitespace` tests it. */
  predicate IsWhitespace(c: char) {
    var n := c as int;
    || 9 <= n <= 13 || n == 32 || n == 0x85 || n == 0xA0 || n == 0x1680 || 0x2000 <= n <= 0x200A
    || n == 0x2028 || n == 0x2029 || n == 0x202F || n == 0x205F || n == 0x3000
  }

  /** What separates words and what does not, in ASCII. */
  lemma AsciiWhitespace(c: char)
    requires c as int < 0x80
    ensures IsWhitespace(c) <==> c == ' ' || '\t' <= c <= '\r'
  {
  }

  function Lower(s: string): string {
    seq(|s|, i requires 0 <= i < |s| => if 'A' <= s[i] <= 'Z' then (s[i] as int + 32) as char else s[i])
  }

  function Upper(s: string): string {
    seq(|s|, i requires 0 <= i < |s| => if 'a' <= s[i] <= 'z' then (s[i] as int - 32) as char else s[i])
  }

  /** Two characters that are equal up to ASCII case. */
  predicate SameLetter(x: char, y: char) {
    || x == y
    || ('A' <= x <= 'Z' && y as int == x as int + 32)
    || ('A' <= y <= 'Z' && x as int == y as int + 32)
  }

  predicate SameUpToCase(s: string, t: string) {
    |s| == |t| && forall i :: 0 <= i < |s| ==> SameLetter(s[i], t[i])
  }

  lemma LowerIgnoresCase(s: string, t: string)
    ensures Lower(s) == Lower(t) <==> SameUpToCase(s, t)
  {
    var a, b := Lower(s), Lower(t);
    forall i | 0 <= i < |s| && i < |t|
      ensures a[i] == b[i] <==> SameLetter(s[i], t[i])
    {
    }
    if a == b {
      assert |s| == |a| == |b| == |t|;
    }
  }

  function Trimmed(s: string): string
    decreases |s|
  {
    if s != [] && IsWhitespace(s[0]) then Trimmed(s[1..])
    else if s != [] && IsWhitespace(s[|s| - 1]) then Trimmed(s[..|s| - 1])
    else s
  }

  /** Trimming keeps a stretch of the text, takes only whitespace off both its ends, and leaves none there. */
  lemma {:induction false} TrimmedIs(s: string) returns (i: nat, j: nat)
    ensures i <= j <= |s| && Trimmed(s) == s[i..j]
    ensures forall k :: 0 <= k < i || j <= k < |s| ==> IsWhitespace(s[k])
    ensures i < j ==> !IsWhitespace(s[i]) && !IsWhitespace(s[j - 1])
    decreases |s|
  {
    if s != [] && IsWhitespace(s[0]) {
      i, j := TrimmedIs(s[1..]);
      assert s[1..][i..j] == s[i + 1..j + 1];
      assert forall k :: 1 <= k < |s| ==> s[k] == s[1..][k - 1];
      i, j := i + 1, j + 1;
    } else if s != [] && IsWhitespace(s[|s| - 1]) {
      i, j := TrimmedIs(s[..|s| - 1]);
      assert s[..|s| - 1][i..j] == s[i..j];
    } else {
      i, j := 0, |s|;
    }
  }

  predicate Contains(text: string, needle: string) {
    exists i :: 0 <= i <= |text| && needle <= text[i..]
  }

  /** A natural number in decimal. */
  function Digits(n: nat): (s: string)
    ensures s != [] && forall i :: 0 <= i < |s| ==> '0' <= s[i] <= '9'
  {
    if n < 10 then [('0' as int + n) as char] else Digits(n / 10) + [('0' as int + n % 10) as char]
  }

  function NumberOf(digits: string): nat
    requires forall i :: 0 <= i < |digits| ==> '0' <= digits[i] <= '9'
  {
    if digits == [] then 0
    else 10 * NumberOf(digits[..|digits| - 1]) + (digits[|digits| - 1] as int - '0' as int)
  }

  lemma {:induction false} DigitsRoundTrip(n: nat)
    ensures NumberOf(Digits(n)) == n
  {
    if n >= 10 {
      DigitsRoundTrip(n / 10);
      var s := Digits(n);
      assert s[..|s| - 1] == Digits(n / 10);
    } else {
      var s := Digits(n);
      assert s[..0] == [];
    }
  }

  /** The UTF-8 form of one character. */
  function EncodeChar(c: char): seq<Byte> {
    var n := c as int;
    if n < 0x80 then [n]
    else if n < 0x800 then [0xC0 + n / 64, 0x80 + n % 64]
    else if n < 0x10000 then [0xE0 + n / 4096, 0x80 + n / 64 % 64, 0x80 + n % 64]
    else [0xF0 + n / 262144, 0x80 + n / 4096 % 64, 0x80 + n / 64 % 64, 0x80 + n % 64]
  }

  /** The code of the first character and the number of its bytes (section 3 of RFC 3629). */
  function DecodeFirst(b: seq<Byte>): Option<(nat, nat)> {
    if b == [] then None
    else if b[0] < 0x80 then Some((b[0], 1))
    else if 0xC0 <= b[0] < 0xE0 && |b| >= 2 then
      Some((SixMore(b[0] - 0xC0, b[1]), 2))
    else if 0xE0 <= b[0] < 0xF0 && |b| >= 3 then
      Some((SixMore(SixMore(b[0] - 0xE0, b[1]), b[2]), 3))
    else if b[0] >= 0xF0 && |b| >= 4 then
      Some((SixMore(SixMore(SixMore(b[0] - 0xF0, b[1]), b[2]), b[3]), 4))
    else None
  }

  /** Six more bits from a continuation byte. */
  function SixMore(high: nat, b: Byte): nat {
    high * 64 + if b < 0x80 then 0 else b - 0x80
  }

  /** A character takes one to four bytes by its code, and they decode to it whatever follows. */
  lemma CharRoundTrip(c: char, rest: seq<Byte>)
    ensures DecodeFirst(EncodeChar(c) + rest) == Some((c as int, |EncodeChar(c)|))
    ensures var n := c as int;
            |EncodeChar(c)| == if n <= 0x7F then 1 else if n <= 0x7FF then 2 else if n <= 0xFFFF then 3 else 4
  {
    var n := c as int;
    SixBits(n);
    SixBits(n / 64);
    SixBits(n / 64 / 64);
  }

  lemma SixBits(n: nat)
    ensures n / 64 * 64 + n % 64 == n && n / 64 / 64 == n / 4096 && n / 64 / 64 / 64 == n / 262144
  {
  }

  function Utf8(s: string): seq<Byte> {
    if s == [] then [] else EncodeChar(s[0]) + Utf8(s[1..])
  }

  /** An ASCII byte stands only where its own character does: multi-byte forms use none. */
  lemma {:induction false} AsciiStandsForItself(s: string, c: char)
    requires c as int < 0x80 && c !in s
    ensures c as int !in Utf8(s)
  {
    if s == [] {
    } else {
      AsciiStandsForItself(s[1..], c);
      assert s[0] != c && s == [s[0]] + s[1..];
    }
  }

  lemma {:induction false} Utf8Grows(s: string)
    ensures |Utf8(s)| >= |s|
  {
    if s == [] {
    } else {
      Utf8Grows(s[1..]);
    }
  }
}

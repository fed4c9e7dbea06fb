/** The path-segment encoder of the model library, with the decoder of sections 2.1 and 2.3 of
    RFC 3986 as its partner. */
module PercentEncoding {
  import opened Bounded
  import opened Wrappers

  const PERCENT: Byte := 37
  const SLASH: Byte := 47

  predicate IsAlpha(b: Byte) {
    65 <= b <= 90 || 97 <= b <= 122
  }

  predicate IsDigit(b: Byte) {
    48 <= b <= 57
  }

  /** ALPHA / DIGIT / "-" / "." / "_" / "~" */
  predicate IsUnreserved(b: Byte) {
    IsAlpha(b) || IsDigit(b) || b == 45 || b == 46 || b == 95 || b == 126
  }

  function HexDigit(n: int): Byte
    requires 0 <= n < 16
  {
    if n < 10 then 48 + n else 55 + n
  }

  predicate IsHexDigit(b: Byte) {
    IsDigit(b) || 65 <= b <= 70 || 97 <= b <= 102
  }

  function HexValue(b: Byte): int
    requires IsHexDigit(b)
  {
    if b <= 57 then b - 48 else if b <= 70 then b - 55 else b - 87
  }

  function EncodeByte(b: Byte): seq<Byte> {
    if IsUnreserved(b) then [b] else [PERCENT, HexDigit(b / 16), HexDigit(b % 16)]
  }

  /** The unreserved characters of section 2.3 of RFC 3986. */
  predicate Unreserved(c: char) {
    'A' <= c <= 'Z' || 'a' <= c <= 'z' || '0' <= c <= '9' || c == '-' || c == '.' || c == '_' || c == '~'
  }

  /** An unreserved byte stays; every other one becomes a percent sign and its two upper-case hexadecimal digits. */
  lemma EncodedByteIs(b: Byte)
    ensures EncodeByte(b) ==
              if Unreserved(b as char) then [b]
              else ['%' as int, "0123456789ABCDEF"[b / 16] as int, "0123456789ABCDEF"[b % 16] as int]
  {
    HexDigitIs(b / 16);
    HexDigitIs(b % 16);
  }

  lemma HexDigitIs(n: int)
    requires 0 <= n < 16
    ensures HexDigit(n) == "0123456789ABCDEF"[n] as int
  {
  }

  function Encoded(s: seq<Byte>): seq<Byte> {
    if s == [] then [] else Encoded(s[..|s| - 1]) + EncodeByte(s[|s| - 1])
  }

  method PercentEncodePathSegment(value: seq<Byte>) returns (encoded: seq<Byte>)
    ensures encoded == Encoded(value)
    ensures Decoded(encoded) == Some(value)
  {
    encoded := [];
    for i := 0 to |value|
      invariant encoded == Encoded(value[..i])
    {
      assert value[..i + 1][..i] == value[..i];
      var byte := value[i];
      if IsUnreserved(byte) {
        encoded := encoded + [byte];
      } else {
        encoded := encoded + [PERCENT];
        encoded := encoded + [HexDigit(byte / 16)];
        encoded := encoded + [HexDigit(byte % 16)];
      }
    }
    assert value[..|value|] == value;
    RoundTrip(value);
  }

  /** Decodes percent triplets, upper or lower case, and passes every other byte through. */
  function Decoded(s: seq<Byte>): Option<seq<Byte>> {
    if s == [] then Some([])
    else if s[0] != PERCENT then
      var rest := Decoded(s[1..]);
      if rest.None? then None else Some([s[0]] + rest.value)
    else if |s| < 3 || !IsHexDigit(s[1]) || !IsHexDigit(s[2]) then None
    else
      var rest := Decoded(s[3..]);
      if rest.None? then None else Some([16 * HexValue(s[1]) + HexValue(s[2])] + rest.value)
  }

  lemma HexRoundTrip(n: int)
    requires 0 <= n < 16
    ensures IsHexDigit(HexDigit(n)) && HexValue(HexDigit(n)) == n && HexDigit(n) <= 70
  {
  }

  lemma {:induction false} DecodeEncodedByte(b: Byte, rest: seq<Byte>, tail: seq<Byte>)
    requires Decoded(rest) == Some(tail)
    ensures Decoded(EncodeByte(b) + rest) == Some([b] + tail)
  {
    var code := EncodeByte(b) + rest;
    if IsUnreserved(b) {
      assert code[0] == b && code[1..] == rest;
    } else {
      HexRoundTrip(b / 16);
      HexRoundTrip(b % 16);
      assert code[0] == PERCENT && code[1] == HexDigit(b / 16) && code[2] == HexDigit(b % 16) && code[3..] == rest;
    }
  }

  lemma {:induction false} DecodeEncodedPrefix(s: seq<Byte>, rest: seq<Byte>, tail: seq<Byte>)
    requires Decoded(rest) == Some(tail)
    ensures Decoded(Encoded(s) + rest) == Some(s + tail)
  {
    if s == [] {
      assert Encoded(s) + rest == rest && s + tail == tail;
    } else {
      var n := |s| - 1;
      DecodeEncodedByte(s[n], rest, tail);
      DecodeEncodedPrefix(s[..n], EncodeByte(s[n]) + rest, [s[n]] + tail);
      EncodedStep(s);
      Regroup(Encoded(s), Encoded(s[..n]), EncodeByte(s[n]), rest);
      LastSplitsOff(s);
      Regroup(s, s[..n], [s[n]], tail);
    }
  }

  lemma LastSplitsOff(s: seq<Byte>)
    requires s != []
    ensures s == s[..|s| - 1] + [s[|s| - 1]]
  {
  }

  lemma {:induction false} EncodedStep(s: seq<Byte>)
    requires s != []
    ensures Encoded(s) == Encoded(s[..|s| - 1]) + EncodeByte(s[|s| - 1])
  {
  }

  lemma Regroup(whole: seq<Byte>, front: seq<Byte>, last: seq<Byte>, rest: seq<Byte>)
    requires whole == front + last
    ensures whole + rest == front + (last + rest)
  {
  }

  /** Decoding the encoded segment gives back the original bytes. */
  lemma {:induction false} RoundTrip(s: seq<Byte>)
    ensures Decoded(Encoded(s)) == Some(s)
  {
    DecodeEncodedPrefix(s, [], []);
    assert Encoded(s) + [] == Encoded(s) && s + [] == s;
  }

  /** Different identifiers never share a path. */
  lemma {:induction false} EncodingIsInjective(s: seq<Byte>, t: seq<Byte>)
    requires Encoded(s) == Encoded(t)
    ensures s == t
  {
    RoundTrip(s);
    RoundTrip(t);
  }

  /** Only unreserved characters and upper-case percent triplets. */
  predicate SafeSegment(s: seq<Byte>) {
    s == []
    || (IsUnreserved(s[0]) && SafeSegment(s[1..]))
    || (&& |s| >= 3 && s[0] == PERCENT
        && IsHexDigit(s[1]) && IsHexDigit(s[2]) && s[1] <= 70 && s[2] <= 70
        && SafeSegment(s[3..]))
  }

  lemma {:induction false} EncodedPrefixIsSafe(s: seq<Byte>, rest: seq<Byte>)
    requires SafeSegment(rest)
    ensures SafeSegment(Encoded(s) + rest)
  {
    if s == [] {
      assert Encoded(s) + rest == rest;
    } else {
      var n := |s| - 1;
      var code := EncodeByte(s[n]) + rest;
      if IsUnreserved(s[n]) {
        assert code[1..] == rest;
      } else {
        assert code[3..] == rest;
      }
      EncodedPrefixIsSafe(s[..n], code);
      EncodedStep(s);
      Regroup(Encoded(s), Encoded(s[..n]), EncodeByte(s[n]), rest);
    }
  }

  lemma {:induction false} SafeSegmentHasNoSlash(s: seq<Byte>)
    requires SafeSegment(s)
    ensures SLASH !in s
    decreases |s|
  {
    if s == [] {
    } else {
      if IsUnreserved(s[0]) {
        SafeSegmentHasNoSlash(s[1..]);
        assert s == [s[0]] + s[1..];
      } else {
        SafeSegmentHasNoSlash(s[3..]);
        assert s == [s[0], s[1], s[2]] + s[3..];
      }
    }
  }

  /** The output is a safe path segment: it cannot end the segment it stands in. */
  lemma {:induction false} EncodingIsSafe(s: seq<Byte>)
    ensures SafeSegment(Encoded(s)) && SLASH !in Encoded(s)
  {
    EncodedPrefixIsSafe(s, []);
    assert Encoded(s) + [] == Encoded(s);
    SafeSegmentHasNoSlash(Encoded(s));
  }

  lemma {:induction false} EncodingLength(s: seq<Byte>)
    ensures |s| <= |Encoded(s)| <= 3 * |s|
  {
    if s == [] {
    } else {
      EncodingLength(s[..|s| - 1]);
    }
  }

  predicate AllUnreserved(s: seq<Byte>) {
    forall i :: 0 <= i < |s| ==> IsUnreserved(s[i])
  }

  /** The encoder changes nothing exactly when there is nothing to encode. */
  lemma {:induction false} UnreservedIsUnchanged(s: seq<Byte>)
    ensures Encoded(s) == s <==> AllUnreserved(s)
    ensures AllUnreserved(s) <==> |Encoded(s)| == |s|
  {
    if s == [] {
    } else {
      var n := |s| - 1;
      UnreservedIsUnchanged(s[..n]);
      EncodingLength(s[..n]);
      assert s == s[..n] + [s[n]];
      if AllUnreserved(s) {
        assert AllUnreserved(s[..n]);
      } else if IsUnreserved(s[n]) {
        assert !AllUnreserved(s[..n]);
      }
    }
  }
}

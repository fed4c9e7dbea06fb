/** Cutting a sequence at every occurrence of a separator, and putting it together again. */
module Splitting {

  /** The pieces between separators. There is always one more piece than there are separators. */
  function Split<T(==)>(s: seq<T>, separator: T): (pieces: seq<seq<T>>)
    ensures pieces != []
    decreases |s|
  {
    var i := IndexOf(s, separator);
    if i == |s| then [s] else [s[..i]] + Split(s[i + 1..], separator)
  }

  /** The position of the first separator, or the length when there is none. */
  function IndexOf<T(==)>(s: seq<T>, x: T): (i: nat)
    ensures i <= |s| && forall j :: 0 <= j < i ==> s[j] != x
    ensures i < |s| ==> s[i] == x
  {
    if s == [] || s[0] == x then 0 else 1 + IndexOf(s[1..], x)
  }

  /** Pieces each followed by a separator. */
  function Terminated<T>(pieces: seq<seq<T>>, separator: T): seq<T> {
    if pieces == [] then [] else pieces[0] + [separator] + Terminated(pieces[1..], separator)
  }

  function Concat<T>(pieces: seq<seq<T>>): seq<T> {
    if pieces == [] then [] else pieces[0] + Concat(pieces[1..])
  }

  predicate FreeOf<T(==)>(pieces: seq<seq<T>>, separator: T) {
    forall i :: 0 <= i < |pieces| ==> separator !in pieces[i]
  }

  /** A sequence that starts with a piece and a separator splits off that piece. */
  lemma {:induction false} SplitFirst<T>(piece: seq<T>, tail: seq<T>, separator: T)
    requires separator !in piece
    ensures Split(piece + [separator] + tail, separator) == [piece] + Split(tail, separator)
  {
    var all := piece + [separator] + tail;
    var n := |piece|;
    assert all[n] == separator;
    forall j | 0 <= j < n
      ensures all[j] != separator
    {
      assert all[j] == piece[j];
    }
    assert IndexOf(all, separator) == n;
    assert all[..n] == piece && all[n + 1..] == tail;
  }

  lemma {:induction false} SplitNone<T>(s: seq<T>, separator: T)
    requires separator !in s
    ensures Split(s, separator) == [s]
  {
  }

  lemma FreeOfTail<T>(pieces: seq<seq<T>>, separator: T)
    requires pieces != [] && FreeOf(pieces, separator)
    ensures separator !in pieces[0] && FreeOf(pieces[1..], separator)
  {
  }

  lemma {:induction false} TerminatedWithRest<T>(pieces: seq<seq<T>>, rest: seq<T>, separator: T)
    requires pieces != []
    ensures Terminated(pieces, separator) + rest
         == pieces[0] + [separator] + (Terminated(pieces[1..], separator) + rest)
  {
  }

  lemma ConsOfTail<T>(pieces: seq<T>, more: seq<T>)
    requires pieces != []
    ensures [pieces[0]] + (pieces[1..] + more) == pieces + more
  {
  }

  /** Splitting terminated pieces and a rest gives back the pieces, then the pieces of the rest. */
  lemma {:induction false} SplitTerminated<T>(pieces: seq<seq<T>>, rest: seq<T>, separator: T)
    requires FreeOf(pieces, separator)
    ensures Split(Terminated(pieces, separator) + rest, separator) == pieces + Split(rest, separator)
  {
    if pieces == [] {
      assert Terminated(pieces, separator) + rest == rest;
    } else {
      FreeOfTail(pieces, separator);
      SplitTerminated(pieces[1..], rest, separator);
      SplitFirst(pieces[0], Terminated(pieces[1..], separator) + rest, separator);
      TerminatedWithRest(pieces, rest, separator);
      ConsOfTail(pieces, Split(rest, separator));
    }
  }

  lemma {:induction false} TerminatedConcat<T>(left: seq<seq<T>>, right: seq<seq<T>>, separator: T)
    ensures Terminated(left + right, separator) == Terminated(left, separator) + Terminated(right, separator)
  {
    if left == [] {
      assert left + right == right;
    } else {
      assert (left + right)[1..] == left[1..] + right;
      TerminatedConcat(left[1..], right, separator);
    }
  }

  lemma TerminatedSingle<T>(piece: seq<T>, separator: T)
    ensures Terminated([piece], separator) == piece + [separator]
  {
  }

  lemma {:induction false} ConcatConcat<T>(left: seq<seq<T>>, right: seq<seq<T>>)
    ensures Concat(left + right) == Concat(left) + Concat(right)
  {
    if left == [] {
      assert left + right == right;
    } else {
      assert (left + right)[1..] == left[1..] + right;
      ConcatConcat(left[1..], right);
    }
  }

  lemma {:induction false} JoinedCons<T>(first: seq<T>, rest: seq<seq<T>>, separator: T)
    requires rest != []
    ensures Joined([first] + rest, separator) == first + [separator] + Joined(rest, separator)
  {
  }

  lemma FreeOfCons<T>(first: seq<T>, rest: seq<seq<T>>, separator: T)
    requires separator !in first && FreeOf(rest, separator)
    ensures FreeOf([first] + rest, separator)
  {
  }

  /** Splitting loses nothing: joining the pieces with separators gives back the sequence, and no
      piece contains a separator. */
  lemma {:induction false} SplitRoundTrip<T>(s: seq<T>, separator: T)
    ensures FreeOf(Split(s, separator), separator)
    ensures Joined(Split(s, separator), separator) == s
    decreases |s|
  {
    var i := IndexOf(s, separator);
    if i < |s| {
      var rest := Split(s[i + 1..], separator);
      SplitRoundTrip(s[i + 1..], separator);
      FreeOfCons(s[..i], rest, separator);
      JoinedCons(s[..i], rest, separator);
      assert s == s[..i] + [separator] + s[i + 1..];
    }
  }

  /** Pieces with a separator between each two. */
  function Joined<T>(pieces: seq<seq<T>>, separator: T): seq<T>
    requires pieces != []
  {
    if |pieces| == 1 then pieces[0] else pieces[0] + [separator] + Joined(pieces[1..], separator)
  }
}

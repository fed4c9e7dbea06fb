/** Small facts about sequences that several modules share. */
module Sequences {

  function Map<S, T>(f: S -> T, s: seq<S>): (r: seq<T>)
    ensures |r| == |s| && forall i :: 0 <= i < |s| ==> r[i] == f(s[i])
  {
    seq(|s|, i requires 0 <= i < |s| => f(s[i]))
  }

  /** The newest `n` elements. */
  function LastN<T>(s: seq<T>, n: nat): seq<T> {
    if |s| <= n then s else s[|s| - n..]
  }

  function Reversed<T>(s: seq<T>): seq<T> {
    seq(|s|, i requires 0 <= i < |s| => s[|s| - 1 - i])
  }

  lemma MapAppend<S, T>(f: S -> T, s: seq<S>, x: S)
    ensures Map(f, s + [x]) == Map(f, s) + [f(x)]
  {
  }

  lemma MapDrop<S, T>(f: S -> T, s: seq<S>, k: nat)
    requires k <= |s|
    ensures Map(f, s[k..]) == Map(f, s)[k..]
  {
  }

  lemma MapLastN<S, T>(f: S -> T, s: seq<S>, n: nat)
    ensures Map(f, LastN(s, n)) == LastN(Map(f, s), n)
  {
  }

  lemma MapUnchanged<S>(f: S -> S, s: seq<S>)
    requires forall i :: 0 <= i < |s| ==> f(s[i]) == s[i]
    ensures Map(f, s) == s
  {
  }

  lemma PushOntoLast<T>(history: seq<T>, x: T, n: nat)
    requires n >= 1
    ensures LastN(LastN(history, n) + [x], n) == LastN(history + [x], n)
  {
  }
}

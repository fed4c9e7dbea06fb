/** The content-addressed audio cache: pruning removes exactly the shortest oldest-first run of
    evictable objects that makes the rest fit. */
module CachePrune {
  import opened Bounded

  type CacheKey = string

  /** One object file as the directory walk reports it. */
  datatype Candidate = Candidate(key: CacheKey, size: U64, modified: int)

  datatype Report = Report(bytesBefore: nat, bytesAfter: nat, objectsRemoved: nat, removedKeys: seq<CacheKey>)

  function Sum(objects: seq<Candidate>): nat {
    if objects == [] then 0 else objects[0].size + Sum(objects[1..])
  }

  function Keys(objects: seq<Candidate>): seq<CacheKey> {
    seq(|objects|, i requires 0 <= i < |objects| => objects[i].key)
  }

  predicate DistinctKeys(objects: seq<Candidate>) {
    forall i, k :: 0 <= i < k < |objects| ==> objects[i].key != objects[k].key
  }

  // ---- Sorting by age ----

  function Insert(x: Candidate, sorted: seq<Candidate>): seq<Candidate> {
    if sorted == [] || x.modified <= sorted[0].modified then [x] + sorted
    else [sorted[0]] + Insert(x, sorted[1..])
  }

  /** The stable sort by modification time. */
  function ByAge(objects: seq<Candidate>): seq<Candidate> {
    if objects == [] then [] else Insert(objects[0], ByAge(objects[1..]))
  }

  predicate OldestFirst(objects: seq<Candidate>) {
    forall i, k :: 0 <= i < k < |objects| ==> objects[i].modified <= objects[k].modified
  }

  function OfAge(objects: seq<Candidate>, modified: int): seq<Candidate> {
    if objects == [] then []
    else (if objects[0].modified == modified then [objects[0]] else []) + OfAge(objects[1..], modified)
  }

  lemma Prepend(x: Candidate, rest: seq<Candidate>)
    requires OldestFirst(rest) && forall i :: 0 <= i < |rest| ==> x.modified <= rest[i].modified
    ensures OldestFirst([x] + rest)
  {
  }

  lemma {:induction false} InsertIsPermutation(x: Candidate, sorted: seq<Candidate>)
    ensures multiset(Insert(x, sorted)) == multiset{x} + multiset(sorted)
  {
    if !(sorted == [] || x.modified <= sorted[0].modified) {
      InsertIsPermutation(x, sorted[1..]);
      assert sorted == [sorted[0]] + sorted[1..];
    }
  }

  lemma {:induction false} InsertKeepsSorted(x: Candidate, sorted: seq<Candidate>)
    requires OldestFirst(sorted)
    ensures OldestFirst(Insert(x, sorted))
  {
    if sorted == [] || x.modified <= sorted[0].modified {
      Prepend(x, sorted);
    } else {
      var rest := Insert(x, sorted[1..]);
      InsertKeepsSorted(x, sorted[1..]);
      InsertIsPermutation(x, sorted[1..]);
      forall i | 0 <= i < |rest|
        ensures sorted[0].modified <= rest[i].modified
      {
        assert rest[i] in multiset(rest);
        assert rest[i] == x || rest[i] in sorted[1..];
      }
      Prepend(sorted[0], rest);
    }
  }

  lemma {:induction false} OfAgePrepend(x: Candidate, rest: seq<Candidate>, modified: int)
    ensures OfAge([x] + rest, modified) == (if x.modified == modified then [x] else []) + OfAge(rest, modified)
  {
  }

  lemma {:induction false} InsertIsStable(x: Candidate, sorted: seq<Candidate>, modified: int)
    requires OldestFirst(sorted)
    ensures OfAge(Insert(x, sorted), modified) == (if x.modified == modified then [x] else []) + OfAge(sorted, modified)
  {
    if sorted == [] || x.modified <= sorted[0].modified {
      OfAgePrepend(x, sorted, modified);
    } else {
      InsertIsStable(x, sorted[1..], modified);
      OfAgePrepend(sorted[0], Insert(x, sorted[1..]), modified);
    }
  }

  /** Sorted, a permutation, and objects of one age keep their order. */
  lemma {:induction false} ByAgeIsStableSort(objects: seq<Candidate>, modified: int)
    ensures OldestFirst(ByAge(objects)) && multiset(ByAge(objects)) == multiset(objects)
    ensures OfAge(ByAge(objects), modified) == OfAge(objects, modified)
  {
    if objects == [] {
    } else {
      ByAgeIsStableSort(objects[1..], modified);
      InsertKeepsSorted(objects[0], ByAge(objects[1..]));
      InsertIsPermutation(objects[0], ByAge(objects[1..]));
      InsertIsStable(objects[0], ByAge(objects[1..]), modified);
      assert objects == [objects[0]] + objects[1..];
    }
  }

  lemma PermutationKeepsKeysDistinct(a: seq<Candidate>, b: seq<Candidate>)
    requires multiset(a) == multiset(b) && DistinctKeys(a)
    ensures DistinctKeys(b)
    ensures forall x :: x in a <==> x in b
  {
    forall x
      ensures x in a <==> x in b
    {
      assert x in a <==> x in multiset(a);
      assert x in b <==> x in multiset(b);
    }
    forall i, k | 0 <= i < k < |b|
      ensures b[i].key != b[k].key
    {
      if b[i].key == b[k].key {
        SameKeySameObject(a, b[i], b[k]);
        TwiceInSequence(b, i, k);
        OnceInSequence(a, b[i]);
      }
    }
  }

  lemma SameKeySameObject(objects: seq<Candidate>, x: Candidate, y: Candidate)
    requires DistinctKeys(objects) && x in objects && y in objects && x.key == y.key
    ensures x == y
  {
  }

  lemma TwiceInSequence(objects: seq<Candidate>, i: nat, k: nat)
    requires i < k < |objects| && objects[i] == objects[k]
    ensures multiset(objects)[objects[i]] >= 2
  {
    assert objects == objects[..k] + objects[k..];
    assert objects[..k][i] == objects[i] && objects[k..][0] == objects[i];
    assert objects[i] in multiset(objects[..k]) && objects[i] in multiset(objects[k..]);
  }

  lemma {:induction false} OnceInSequence(objects: seq<Candidate>, x: Candidate)
    requires DistinctKeys(objects)
    ensures multiset(objects)[x] <= 1
  {
    if objects == [] {
    } else {
      assert objects == [objects[0]] + objects[1..];
      OnceInSequence(objects[1..], x);
      if x == objects[0] {
        assert x !in objects[1..];
        assert x !in multiset(objects[1..]);
      }
    }
  }

  // ---- Eviction ----

  /** Neither protected by the caller nor pinned by a job. */
  predicate Evictable(c: Candidate, pins: set<CacheKey>, protected: set<CacheKey>) {
    c.key !in protected && c.key !in pins
  }

  function Evictables(objects: seq<Candidate>, pins: set<CacheKey>, protected: set<CacheKey>): seq<Candidate> {
    if objects == [] then []
    else
      var n := |objects| - 1;
      Evictables(objects[..n], pins, protected)
      + if Evictable(objects[n], pins, protected) then [objects[n]] else []
  }

  /** Evicting `n` of the candidates is enough, or they are all there are, and fewer are not enough. */
  predicate LeastEnough(n: nat, candidates: seq<Candidate>, total: nat, maximum: nat) {
    && n <= |candidates|
    && (n < |candidates| ==> total - Sum(candidates[..n]) <= maximum)
    && forall m :: 0 <= m < n ==> total - Sum(candidates[..m]) > maximum
  }

  function Without(objects: seq<Candidate>, keys: seq<CacheKey>): seq<Candidate> {
    if objects == [] then []
    else (if objects[0].key in keys then [] else [objects[0]]) + Without(objects[1..], keys)
  }

  lemma {:induction false} WithoutContains(objects: seq<Candidate>, keys: seq<CacheKey>)
    ensures forall c :: c in Without(objects, keys) <==> c in objects && c.key !in keys
  {
    if objects == [] {
    } else {
      assert objects == [objects[0]] + objects[1..];
      WithoutContains(objects[1..], keys);
    }
  }

  lemma {:induction false} WithoutOneMore(objects: seq<Candidate>, keys: seq<CacheKey>, key: CacheKey)
    ensures Without(Without(objects, keys), [key]) == Without(objects, keys + [key])
  {
    if objects == [] {
    } else {
      WithoutOneMore(objects[1..], keys, key);
      var rest := Without(objects[1..], keys);
      if objects[0].key !in keys {
        assert ([objects[0]] + rest)[1..] == rest;
      } else {
        assert [] + rest == rest;
      }
    }
  }

  lemma {:induction false} WithoutNothing(objects: seq<Candidate>)
    ensures Without(objects, []) == objects
  {
    if objects == [] {
    } else {
      WithoutNothing(objects[1..]);
    }
  }

  lemma {:induction false} WithoutKeepsDistinct(objects: seq<Candidate>, keys: seq<CacheKey>)
    requires DistinctKeys(objects)
    ensures DistinctKeys(Without(objects, keys))
  {
    if objects == [] {
    } else {
      WithoutKeepsDistinct(objects[1..], keys);
      WithoutContains(objects[1..], keys);
      var rest := Without(objects[1..], keys);
      forall i | 0 <= i < |rest|
        ensures rest[i].key != objects[0].key
      {
        assert rest[i] in objects[1..];
      }
    }
  }

  lemma {:induction false} RemovingOne(objects: seq<Candidate>, c: Candidate)
    requires DistinctKeys(objects) && c in objects
    ensures Sum(Without(objects, [c.key])) == Sum(objects) - c.size
    ensures Sum(objects) >= c.size
  {
    var rest := objects[1..];
    assert objects == [objects[0]] + rest;
    if objects[0] == c {
      NothingToRemove(rest, c.key);
      assert [] + Without(rest, [c.key]) == rest;
    } else {
      RemovingOne(rest, c);
      assert objects[0].key != c.key;
      var kept := Without(rest, [c.key]);
      assert ([objects[0]] + kept)[1..] == kept;
    }
  }

  lemma {:induction false} NothingToRemove(objects: seq<Candidate>, key: CacheKey)
    requires forall i :: 0 <= i < |objects| ==> objects[i].key != key
    ensures Without(objects, [key]) == objects
  {
    if objects == [] {
    } else {
      NothingToRemove(objects[1..], key);
    }
  }

  lemma {:induction false} EvictablesAre(objects: seq<Candidate>, pins: set<CacheKey>, protected: set<CacheKey>)
    ensures forall c :: c in Evictables(objects, pins, protected) <==> c in objects && Evictable(c, pins, protected)
  {
    if objects == [] {
    } else {
      var n := |objects| - 1;
      assert objects == objects[..n] + [objects[n]];
      EvictablesAre(objects[..n], pins, protected);
    }
  }

  lemma {:induction false} EvictablesKeepDistinct(objects: seq<Candidate>, pins: set<CacheKey>,
                                                  protected: set<CacheKey>)
    requires DistinctKeys(objects)
    ensures DistinctKeys(Evictables(objects, pins, protected))
  {
    if objects == [] {
    } else {
      var n := |objects| - 1;
      EvictablesKeepDistinct(objects[..n], pins, protected);
      EvictablesAre(objects[..n], pins, protected);
      var before := Evictables(objects[..n], pins, protected);
      forall i | 0 <= i < |before|
        ensures before[i].key != objects[n].key
      {
        assert before[i] in objects[..n];
      }
    }
  }

  lemma {:induction false} SumAppend(objects: seq<Candidate>, c: Candidate)
    ensures Sum(objects + [c]) == Sum(objects) + c.size
  {
    if objects == [] {
      var none: seq<Candidate> := [c][1..];
      assert objects + [c] == [c] && none == [];
    } else {
      SumAppend(objects[1..], c);
      assert (objects + [c])[1..] == objects[1..] + [c];
    }
  }

  /** Part-way through: these objects are gone, in this order, and each of them had to go. */
  ghost predicate Evicting(before: seq<Candidate>, gone: seq<Candidate>, objects: seq<Candidate>, total: int,
                           maximum: nat) {
    && objects == Without(before, Keys(gone))
    && total == Sum(objects) && total == Sum(before) - Sum(gone)
    && AllNeeded(Sum(before), gone, maximum)
  }

  /** Each of these evictions was still needed when it happened. */
  predicate AllNeeded(bytes: nat, gone: seq<Candidate>, maximum: nat) {
    gone == []
    || (AllNeeded(bytes, gone[..|gone| - 1], maximum) && bytes - Sum(gone[..|gone| - 1]) > maximum)
  }

  lemma {:induction false} NeededAt(bytes: nat, gone: seq<Candidate>, maximum: nat, m: nat)
    requires AllNeeded(bytes, gone, maximum) && m < |gone|
    ensures bytes - Sum(gone[..m]) > maximum
  {
    var n := |gone| - 1;
    if m < n {
      NeededAt(bytes, gone[..n], maximum, m);
      assert gone[..n][..m] == gone[..m];
    }
  }

  lemma {:induction false} EvictOneMore(before: seq<Candidate>, gone: seq<Candidate>, objects: seq<Candidate>,
                                        c: Candidate)
    requires DistinctKeys(before) && objects == Without(before, Keys(gone))
    requires c in before && c.key !in Keys(gone)
    ensures Without(objects, [c.key]) == Without(before, Keys(gone + [c]))
    ensures Sum(Without(objects, [c.key])) == Sum(objects) - c.size && Sum(objects) >= c.size
  {
    WithoutKeepsDistinct(before, Keys(gone));
    WithoutContains(before, Keys(gone));
    RemovingOne(objects, c);
    WithoutOneMore(before, Keys(gone), c.key);
    assert Keys(gone + [c]) == Keys(gone) + [c.key];
  }

  lemma {:induction false} EvictionStep(before: seq<Candidate>, gone: seq<Candidate>, objects: seq<Candidate>,
                                        total: int, maximum: nat, c: Candidate)
    requires DistinctKeys(before) && c in before && c.key !in Keys(gone)
    requires Evicting(before, gone, objects, total, maximum) && total > maximum
    ensures total >= c.size
    ensures Evicting(before, gone + [c], Without(objects, [c.key]), total - c.size, maximum)
  {
    EvictOneMore(before, gone, objects, c);
    SumAppend(gone, c);
    assert (gone + [c])[..|gone|] == gone;
  }

  /** Deleting distinct objects takes exactly their bytes off the disk. */
  lemma {:induction false} EvictingFrees(before: seq<Candidate>, gone: seq<Candidate>)
    requires DistinctKeys(before) && DistinctKeys(gone)
    requires forall i :: 0 <= i < |gone| ==> gone[i] in before
    ensures Sum(Without(before, Keys(gone))) == Sum(before) - Sum(gone)
  {
    if gone == [] {
      assert Keys(gone) == [];
      WithoutNothing(before);
    } else {
      var n := |gone| - 1;
      var c := gone[n];
      assert gone == gone[..n] + [c];
      EvictingFrees(before, gone[..n]);
      EvictOneMore(before, gone[..n], Without(before, Keys(gone[..n])), c);
      SumAppend(gone[..n], c);
    }
  }

  lemma {:induction false} OnlyEvictablesGo(listed: seq<Candidate>, gone: seq<Candidate>, pins: set<CacheKey>,
                                            protected: set<CacheKey>)
    requires gone == Evictables(listed, pins, protected)
    ensures forall key :: key in Keys(gone) ==> key !in protected && key !in pins
  {
    EvictablesAre(listed, pins, protected);
    forall key | key in Keys(gone)
      ensures key !in protected && key !in pins
    {
      var i :| 0 <= i < |gone| && Keys(gone)[i] == key;
      assert gone[i] in gone && gone[i].key == key;
    }
  }

  class Cache {
    var objects: seq<Candidate>
    var manifests: set<CacheKey>
    var pins: set<CacheKey>

    constructor ()
      ensures objects == [] && manifests == {} && pins == {}
    {
      objects, manifests, pins := [], {}, {};
    }

    method Pin(key: CacheKey)
      modifies this`pins
      ensures pins == old(pins) + {key}
    {
      pins := pins + {key};
    }

    method Unpin(key: CacheKey)
      modifies this`pins
      ensures pins == old(pins) - {key}
    {
      pins := pins - {key};
    }

    /** Removes least-recently-modified evictable objects until the cache fits. */
    method Prune(maximum: nat, protected: set<CacheKey>) returns (report: Report)
      requires DistinctKeys(objects)
      modifies this`objects, this`manifests
      ensures var candidates := Evictables(ByAge(old(objects)), pins, protected);
              var n := report.objectsRemoved;
              && LeastEnough(n, candidates, Sum(old(objects)), maximum)
              && report.removedKeys == Keys(candidates[..n])
              && objects == Without(old(objects), report.removedKeys)
      ensures report.bytesBefore == Sum(old(objects)) && report.bytesAfter == Sum(objects)
      ensures report.bytesAfter > maximum ==> forall c :: c in objects ==> c.key in protected || c.key in pins
      ensures forall key :: key in report.removedKeys ==> key !in protected && key !in pins
      ensures forall c :: c in old(objects) && (c.key in protected || c.key in pins) ==> c in objects
      ensures manifests == old(manifests) - KeySet(report.removedKeys)
      ensures DistinctKeys(objects)
    {
      var sorted := ByAge(objects);
      SortedListing(objects);
      var before := Sum(objects);
      var total, removedKeys;
      ghost var gone, i;
      total, removedKeys, gone, i := EvictOldest(sorted, before, maximum, protected);
      report := Report(before, total, |removedKeys|, removedKeys);
      WithoutKeepsDistinct(old(objects), removedKeys);
      WithoutContains(old(objects), removedKeys);
      OnlyEvictablesGo(sorted[..i], gone, pins, protected);
      PruneConcludes(old(objects), sorted, i, gone, objects, total, maximum, pins, protected);
    }

    /** The eviction loop over the sorted listing. */
    method EvictOldest(sorted: seq<Candidate>, before: nat, maximum: nat, protected: set<CacheKey>)
      returns (total: nat, removedKeys: seq<CacheKey>, ghost gone: seq<Candidate>, ghost reached: nat)
      requires DistinctKeys(objects) && DistinctKeys(sorted) && before == Sum(objects)
      requires forall i :: 0 <= i < |sorted| ==> sorted[i] in objects
      modifies this`objects, this`manifests
      ensures reached <= |sorted| && gone == Evictables(sorted[..reached], pins, protected)
      ensures removedKeys == Keys(gone)
      ensures Evicting(old(objects), gone, objects, total, maximum)
      ensures reached == |sorted| || total <= maximum
      ensures manifests == old(manifests) - KeySet(removedKeys)
    {
      total := before;
      removedKeys := [];
      gone := [];
      WithoutNothing(objects);
      var pinned := pins;
      var i: nat := 0;
      while i < |sorted| && total > maximum
        invariant i <= |sorted|
        invariant pins == pinned && removedKeys == Keys(gone)
        invariant Evictables(sorted[..i], pinned, protected) == gone
        invariant Evicting(old(objects), gone, objects, total, maximum)
        invariant manifests == old(manifests) - KeySet(removedKeys)
        decreases |sorted| - i
      {
        var c := sorted[i];
        EvictablesStep(sorted, i, pinned, protected);
        if Evictable(c, pinned, protected) {
          NotGoneYet(sorted, i, gone, pinned, protected);
          KeysAppend(gone, c);
          EvictionStep(old(objects), gone, objects, total, maximum, c);
          KeySetAppend(removedKeys, c.key);
          objects := Without(objects, [c.key]);
          manifests := manifests - {c.key};
          total := total - c.size;
          gone := gone + [c];
          removedKeys := removedKeys + [c.key];
        }
        i := i + 1;
      }
      reached := i;
    }
  }

  lemma KeysAppend(objects: seq<Candidate>, c: Candidate)
    ensures Keys(objects + [c]) == Keys(objects) + [c.key]
  {
  }

  function KeySet(keys: seq<CacheKey>): set<CacheKey> {
    set k | k in keys
  }

  lemma KeySetAppend(keys: seq<CacheKey>, key: CacheKey)
    ensures KeySet(keys + [key]) == KeySet(keys) + {key}
  {
  }

  lemma {:induction false} SortedListing(objects: seq<Candidate>)
    requires DistinctKeys(objects)
    ensures DistinctKeys(ByAge(objects)) && multiset(objects) == multiset(ByAge(objects))
    ensures forall i :: 0 <= i < |ByAge(objects)| ==> ByAge(objects)[i] in objects
  {
    ByAgeIsStableSort(objects, 0);
    PermutationKeepsKeysDistinct(objects, ByAge(objects));
  }

  lemma {:induction false} NotGoneYet(sorted: seq<Candidate>, i: nat, gone: seq<Candidate>, pins: set<CacheKey>,
                                      protected: set<CacheKey>)
    requires DistinctKeys(sorted) && i < |sorted| && gone == Evictables(sorted[..i], pins, protected)
    ensures sorted[i].key !in Keys(gone)
  {
    EvictablesAre(sorted[..i], pins, protected);
    forall k | 0 <= k < |gone|
      ensures gone[k].key != sorted[i].key
    {
      assert gone[k] in sorted[..i];
    }
  }

  /** What the loop has established when it stops, either because the rest fits or at the end. */
  lemma {:induction false} PruneConcludes(before: seq<Candidate>, sorted: seq<Candidate>, i: nat,
                                          gone: seq<Candidate>, objects: seq<Candidate>,
                       total: int, maximum: nat, pins: set<CacheKey>, protected: set<CacheKey>)
    requires multiset(before) == multiset(sorted) && i <= |sorted| && gone == Evictables(sorted[..i], pins, protected)
    requires Evicting(before, gone, objects, total, maximum)
    requires i == |sorted| || total <= maximum
    ensures var candidates := Evictables(sorted, pins, protected);
            LeastEnough(|gone|, candidates, Sum(before), maximum) && gone == candidates[..|gone|]
    ensures total > maximum ==> forall c :: c in objects ==> c.key in protected || c.key in pins
  {
    var candidates := Evictables(sorted, pins, protected);
    PrefixOfEvictables(sorted, i, pins, protected);
    assert gone == candidates[..|gone|];
    forall m | 0 <= m < |gone|
      ensures Sum(before) - Sum(candidates[..m]) > maximum
    {
      NeededAt(Sum(before), gone, maximum, m);
      assert candidates[..m] == gone[..m];
    }
    if total > maximum {
      assert sorted[..i] == sorted;
      NothingEvictableLeft(before, sorted, pins, protected);
      WithoutContains(before, Keys(gone));
    }
  }

  lemma {:induction false} PrefixOfEvictables(sorted: seq<Candidate>, i: nat, pins: set<CacheKey>,
                                              protected: set<CacheKey>)
    requires i <= |sorted|
    ensures Evictables(sorted[..i], pins, protected) <= Evictables(sorted, pins, protected)
    decreases |sorted| - i
  {
    if i == |sorted| {
      assert sorted[..i] == sorted;
    } else {
      EvictablesStep(sorted, i, pins, protected);
      PrefixOfEvictables(sorted, i + 1, pins, protected);
    }
  }

  lemma {:induction false} NoEvictables(objects: seq<Candidate>, pins: set<CacheKey>, protected: set<CacheKey>)
    requires forall i :: 0 <= i < |objects| ==> !Evictable(objects[i], pins, protected)
    ensures Evictables(objects, pins, protected) == []
  {
    if objects == [] {
    } else {
      NoEvictables(objects[..|objects| - 1], pins, protected);
    }
  }

  lemma {:induction false} EvictablesStep(sorted: seq<Candidate>, i: nat, pins: set<CacheKey>, protected: set<CacheKey>)
    requires i < |sorted|
    ensures Evictables(sorted[..i + 1], pins, protected)
         == if Evictable(sorted[i], pins, protected) then Evictables(sorted[..i], pins, protected) + [sorted[i]]
            else Evictables(sorted[..i], pins, protected)
  {
    assert sorted[..i + 1][..i] == sorted[..i];
  }

  lemma {:induction false} NothingEvictableLeft(objects: seq<Candidate>, sorted: seq<Candidate>, pins: set<CacheKey>,
                             protected: set<CacheKey>)
    requires multiset(objects) == multiset(sorted)
    ensures forall c :: c in objects && Evictable(c, pins, protected) ==>
              c.key in Keys(Evictables(sorted, pins, protected))
  {
    EvictablesAre(sorted, pins, protected);
    forall c | c in objects && Evictable(c, pins, protected)
      ensures c.key in Keys(Evictables(sorted, pins, protected))
    {
      assert c in multiset(objects) && c in sorted;
      var i :| 0 <= i < |Evictables(sorted, pins, protected)| && Evictables(sorted, pins, protected)[i] == c;
      assert Keys(Evictables(sorted, pins, protected))[i] == c.key;
    }
  }

  // ---- What pruning means ----

  lemma LeastEnoughIsUnique(n: nat, m: nat, candidates: seq<Candidate>, total: nat, maximum: nat)
    requires LeastEnough(n, candidates, total, maximum) && LeastEnough(m, candidates, total, maximum)
    ensures n == m
  {
  }

  /** Pruning again with the same inputs removes nothing: what remains fits, or holds nothing to evict. */
  lemma {:induction false} PruneAgainRemovesNothing(objects: seq<Candidate>, pins: set<CacheKey>,
                                                    protected: set<CacheKey>, maximum: nat, n: nat, m: nat)
    requires DistinctKeys(objects)
    requires LeastEnough(n, Evictables(ByAge(objects), pins, protected), Sum(objects), maximum)
    requires var rest := Without(objects, Keys(Evictables(ByAge(objects), pins, protected)[..n]));
             LeastEnough(m, Evictables(ByAge(rest), pins, protected), Sum(rest), maximum)
    ensures m == 0
  {
    var sorted := ByAge(objects);
    var candidates := Evictables(sorted, pins, protected);
    var rest := Without(objects, Keys(candidates[..n]));
    ByAgeIsStableSort(objects, 0);
    PermutationKeepsKeysDistinct(objects, sorted);
    EvictablesKeepDistinct(sorted, pins, protected);
    EvictablesAre(sorted, pins, protected);
    EvictingFrees(objects, candidates[..n]);
    var again := Evictables(ByAge(rest), pins, protected);
    if Sum(rest) <= maximum {
      assert again[..0] == [];
    } else {
      assert candidates[..n] == candidates;
      NothingEvictableLeft(objects, sorted, pins, protected);
      WithoutContains(objects, Keys(candidates));
      ByAgeIsStableSort(rest, 0);
      forall i | 0 <= i < |ByAge(rest)|
        ensures !Evictable(ByAge(rest)[i], pins, protected)
      {
        assert ByAge(rest)[i] in multiset(ByAge(rest));
        assert ByAge(rest)[i] in rest;
      }
      NoEvictables(ByAge(rest), pins, protected);
    }
  }

  /** Everything removed is at least as old as every evictable object that stays. */
  lemma {:induction false} RemovedAreTheOldest(objects: seq<Candidate>, pins: set<CacheKey>, protected: set<CacheKey>,
                                               n: nat, i: nat, k: nat)
    requires n <= |Evictables(ByAge(objects), pins, protected)|
    requires i < n <= k < |Evictables(ByAge(objects), pins, protected)|
    ensures var candidates := Evictables(ByAge(objects), pins, protected);
            candidates[i].modified <= candidates[k].modified
  {
    ByAgeIsStableSort(objects, 0);
    EvictablesStaySorted(ByAge(objects), pins, protected);
  }

  lemma {:induction false} EvictablesStaySorted(objects: seq<Candidate>, pins: set<CacheKey>, protected: set<CacheKey>)
    requires OldestFirst(objects)
    ensures OldestFirst(Evictables(objects, pins, protected))
  {
    if objects == [] {
    } else {
      var n := |objects| - 1;
      EvictablesStaySorted(objects[..n], pins, protected);
      EvictablesAre(objects[..n], pins, protected);
      var before := Evictables(objects[..n], pins, protected);
      forall i | 0 <= i < |before|
        ensures before[i].modified <= objects[n].modified
      {
        assert before[i] in objects[..n];
      }
    }
  }
}

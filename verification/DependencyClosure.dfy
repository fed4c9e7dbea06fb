/** The dependency inventory of a release: a worklist that collects every package the desktop package
    reaches, and a component list that is unique and sorted by reference. */
module DependencyClosure {
  import opened Wrappers

  type PackageId = string

  /** The resolved graph: the dependencies of every package that has a node. */
  type Graph = map<PackageId, seq<PackageId>>

  // ---- Reachability ----

  predicate IsEdge(graph: Graph, a: PackageId, b: PackageId) {
    a in graph && b in graph[a]
  }

  predicate IsPath(graph: Graph, path: seq<PackageId>) {
    path != [] && forall i :: 0 <= i < |path| - 1 ==> IsEdge(graph, path[i], path[i + 1])
  }

  ghost predicate Reaches(graph: Graph, root: PackageId, p: PackageId) {
    exists path :: IsPath(graph, path) && path[0] == root && path[|path| - 1] == p
  }

  lemma RootIsReached(graph: Graph, root: PackageId)
    ensures Reaches(graph, root, root)
  {
    assert IsPath(graph, [root]) && [root][0] == root;
  }

  lemma EdgeExtends(graph: Graph, root: PackageId, p: PackageId, q: PackageId)
    requires Reaches(graph, root, p) && IsEdge(graph, p, q)
    ensures Reaches(graph, root, q)
  {
    var path :| IsPath(graph, path) && path[0] == root && path[|path| - 1] == p;
    var longer := path + [q];
    forall i | 0 <= i < |longer| - 1
      ensures IsEdge(graph, longer[i], longer[i + 1])
    {
      if i < |path| - 1 {
        assert IsEdge(graph, path[i], path[i + 1]);
      }
    }
    assert IsPath(graph, longer);
  }

  ghost predicate ClosedUnder(graph: Graph, s: set<PackageId>) {
    forall p, q :: p in s && IsEdge(graph, p, q) ==> q in s
  }

  lemma {:induction false} ClosedSetHoldsPath(graph: Graph, s: set<PackageId>, path: seq<PackageId>)
    requires ClosedUnder(graph, s) && IsPath(graph, path) && path[0] in s
    ensures path[|path| - 1] in s
  {
    if |path| > 1 {
      assert IsEdge(graph, path[0], path[0 + 1]);
      forall i | 0 <= i < |path[1..]| - 1
        ensures IsEdge(graph, path[1..][i], path[1..][i + 1])
      {
        assert IsEdge(graph, path[i + 1], path[i + 1 + 1]);
      }
      ClosedSetHoldsPath(graph, s, path[1..]);
    }
  }

  lemma ClosedSetHoldsReached(graph: Graph, s: set<PackageId>, root: PackageId, p: PackageId)
    requires ClosedUnder(graph, s) && root in s && Reaches(graph, root, p)
    ensures p in s
  {
    var path :| IsPath(graph, path) && path[0] == root && path[|path| - 1] == p;
    ClosedSetHoldsPath(graph, s, path);
  }

  /** Collects the packages the root reaches. Terminates on every graph; a reached package without a
      node is the script's KeyError. */
  method Closure(graph: Graph, root: PackageId) returns (result: Option<set<PackageId>>)
    ensures result.Some? ==> forall p :: p in result.value <==> Reaches(graph, root, p)
    ensures result.None? <==> exists p :: Reaches(graph, root, p) && p !in graph
  {
    var included: set<PackageId> := {};
    var pending := [root];
    RootIsReached(graph, root);
    while pending != []
      invariant included <= graph.Keys
      invariant forall p :: p in included || p in pending ==> Reaches(graph, root, p)
      invariant root in included || root in pending
      invariant forall p, q :: p in included && IsEdge(graph, p, q) ==> q in included || q in pending
      decreases graph.Keys - included, |pending|
    {
      var n := |pending| - 1;
      var package := pending[n];
      ghost var before := pending;
      assert before == before[..n] + [package];
      pending := pending[..n];
      if package !in included {
        if package !in graph {
          return None;
        }
        forall q | q in graph[package]
          ensures Reaches(graph, root, q)
        {
          EdgeExtends(graph, root, package, q);
        }
        assert package in graph.Keys - included;
        included := included + {package};
        pending := pending + graph[package];
      }
    }
    assert ClosedUnder(graph, included);
    forall p | Reaches(graph, root, p)
      ensures p in included
    {
      ClosedSetHoldsReached(graph, included, root, p);
    }
    result := Some(included);
  }

  // ---- Components ----

  /** A component with its reference; `details` stands for the other fields. */
  datatype Component = Component(reference: string, details: string)

  /** The dictionary the script fills: the last component of a reference wins. */
  function Unique(components: seq<Component>): map<string, Component> {
    if components == [] then map[]
    else
      var last := components[|components| - 1];
      Unique(components[..|components| - 1])[last.reference := last]
  }

  // ---- Sorting references ----

  predicate AtMost(a: string, b: string) {
    a == "" || (b != "" && (a[0] < b[0] || (a[0] == b[0] && AtMost(a[1..], b[1..]))))
  }

  lemma {:induction false} AtMostIsOrder(a: string, b: string, c: string)
    ensures AtMost(a, a)
    ensures AtMost(a, b) || AtMost(b, a)
    ensures AtMost(a, b) && AtMost(b, a) ==> a == b
    ensures AtMost(a, b) && AtMost(b, c) ==> AtMost(a, c)
    decreases |a|
  {
    if a != "" {
      AtMostIsOrder(a[1..], if b != "" then b[1..] else "", if c != "" then c[1..] else "");
      if b != "" && a[0] == b[0] {
        assert a == [a[0]] + a[1..] && b == [b[0]] + b[1..];
      }
    }
  }

  lemma {:induction false} LeastExists(s: set<string>) returns (least: string)
    requires s != {}
    ensures least in s && forall k :: k in s ==> AtMost(least, k)
  {
    var x :| x in s;
    if s == {x} {
      least := x;
      AtMostIsOrder(x, x, x);
    } else {
      assert s - {x} != {};
      var m := LeastExists(s - {x});
      AtMostIsOrder(x, m, m);
      least := if AtMost(x, m) then x else m;
      forall k | k in s
        ensures AtMost(least, k)
      {
        AtMostIsOrder(x, m, k);
        AtMostIsOrder(x, x, x);
        AtMostIsOrder(m, x, x);
      }
    }
  }

  lemma HasLeast(s: set<string>)
    requires s != {}
    ensures exists least :: least in s && forall k :: k in s ==> AtMost(least, k)
  {
    var least := LeastExists(s);
  }

  function Least(s: set<string>): (least: string)
    requires s != {}
    ensures least in s && forall k :: k in s ==> AtMost(least, k)
  {
    HasLeast(s);
    assert forall a, b ::
        a in s && b in s && (forall k :: k in s ==> AtMost(a, k)) && (forall k :: k in s ==> AtMost(b, k)) ==>
          a == b
    by {
      forall a, b | a in s && b in s && (forall k :: k in s ==> AtMost(a, k)) && (forall k :: k in s ==> AtMost(b, k))
        ensures a == b
      {
        AtMostIsOrder(a, b, b);
      }
    }
    var least :| least in s && forall k :: k in s ==> AtMost(least, k);
    least
  }

  function SortedKeys(s: set<string>): seq<string> {
    if s == {} then [] else [Least(s)] + SortedKeys(s - {Least(s)})
  }

  predicate Ascending(keys: seq<string>) {
    forall i, k :: 0 <= i < k < |keys| ==> AtMost(keys[i], keys[k]) && keys[i] != keys[k]
  }

  lemma {:induction false} SortedKeysAreSorted(s: set<string>)
    ensures Ascending(SortedKeys(s))
    ensures forall k :: k in SortedKeys(s) <==> k in s
    decreases s
  {
    if s != {} {
      SortedKeysAreSorted(s - {Least(s)});
    }
  }

  /** The component list of the document. */
  function Listing(components: seq<Component>): seq<Component> {
    var unique := Unique(components);
    var keys := SortedKeys(unique.Keys);
    SortedKeysAreSorted(unique.Keys);
    seq(|keys|, i requires 0 <= i < |keys| => assert keys[i] in keys; unique[keys[i]])
  }

  /** No later component has the reference of this one. */
  predicate IsLast(components: seq<Component>, i: nat)
    requires i < |components|
  {
    forall k :: i < k < |components| ==> components[k].reference != components[i].reference
  }

  lemma {:induction false} LastOneWins(components: seq<Component>, i: nat)
    requires i < |components| && IsLast(components, i)
    ensures components[i].reference in Unique(components)
        && Unique(components)[components[i].reference] == components[i]
  {
    var n := |components| - 1;
    if i == n {
    } else {
      LastOneWins(components[..n], i);
    }
  }

  /** The dictionary loop: one entry per reference, holding the last component that has it. */
  method UniqueComponents(components: seq<Component>) returns (unique: map<string, Component>)
    ensures unique == Unique(components)
    ensures forall i :: 0 <= i < |components| ==> components[i].reference in unique
    ensures forall r :: r in unique ==> unique[r].reference == r && unique[r] in components
    ensures forall i :: 0 <= i < |components| && IsLast(components, i) ==>
        unique[components[i].reference] == components[i]
  {
    unique := map[];
    for i := 0 to |components|
      invariant unique == Unique(components[..i])
    {
      assert components[..i + 1][..i] == components[..i];
      unique := unique[components[i].reference := components[i]];
    }
    assert components[..|components|] == components;
    UniqueHolds(components);
    forall i | 0 <= i < |components| && IsLast(components, i)
      ensures unique[components[i].reference] == components[i]
    {
      LastOneWins(components, i);
    }
  }

  lemma {:induction false} UniqueHolds(components: seq<Component>)
    ensures forall r :: r in Unique(components) ==>
        Unique(components)[r].reference == r && Unique(components)[r] in components
    ensures forall i :: 0 <= i < |components| ==> components[i].reference in Unique(components)
  {
    if components == [] {
    } else {
      var n := |components| - 1;
      assert components == components[..n] + [components[n]];
      UniqueHolds(components[..n]);
      forall i | 0 <= i < |components|
        ensures components[i].reference in Unique(components)
      {
        if i < n {
          assert components[i] == components[..n][i];
        }
      }
    }
  }

  lemma {:induction false} ListingFollowsKeys(components: seq<Component>)
    ensures var unique, listing := Unique(components), Listing(components);
            var keys := SortedKeys(unique.Keys);
            && |listing| == |keys|
            && forall i :: 0 <= i < |keys| ==>
                 keys[i] in unique && listing[i] == unique[keys[i]] && listing[i].reference == keys[i]
                     && listing[i] in components
  {
    var unique := Unique(components);
    var keys := SortedKeys(unique.Keys);
    SortedKeysAreSorted(unique.Keys);
    UniqueHolds(components);
    forall i | 0 <= i < |keys|
      ensures keys[i] in unique && Listing(components)[i] == unique[keys[i]]
          && unique[keys[i]].reference == keys[i] && unique[keys[i]] in components
    {
      assert keys[i] in keys;
    }
  }

  /** One entry per reference, in ascending order of references, and none is missing. */
  lemma ListingIsSortedAndUnique(components: seq<Component>)
    ensures var listing := Listing(components);
            && (forall i, k :: 0 <= i < k < |listing| ==>
                  AtMost(listing[i].reference, listing[k].reference) && listing[i].reference != listing[k].reference)
            && (forall i :: 0 <= i < |listing| ==> listing[i] in components)
    ensures forall i :: 0 <= i < |components| ==> IsListed(components, components[i].reference)
  {
    var keys := SortedKeys(Unique(components).Keys);
    SortedKeysAreSorted(Unique(components).Keys);
    ListingFollowsKeys(components);
    UniqueHolds(components);
    forall i | 0 <= i < |components|
      ensures IsListed(components, components[i].reference)
    {
      assert components[i].reference in keys;
      var k :| 0 <= k < |keys| && keys[k] == components[i].reference;
      assert Listing(components)[k].reference == keys[k];
    }
  }

  predicate IsListed(components: seq<Component>, reference: string) {
    exists k :: 0 <= k < |Listing(components)| && Listing(components)[k].reference == reference
  }

  // ---- Iteration order ----

  function References(components: seq<Component>): set<string> {
    set i | 0 <= i < |components| :: components[i].reference
  }

  /** Two components compete for one entry of the inventory. */
  predicate Contested(a: Component, b: Component, others: seq<Component>) {
    a.reference == b.reference && a.reference !in References(others)
  }

  /** Components of one reference agree, unless a later list replaces that reference anyway. */
  predicate Agree(cargo: seq<Component>, others: seq<Component>) {
    forall i, k :: 0 <= i < |cargo| && 0 <= k < |cargo| && Contested(cargo[i], cargo[k], others) ==>
        cargo[i] == cargo[k]
  }

  lemma {:induction false} UniqueConcat(left: seq<Component>, right: seq<Component>)
    ensures Unique(left + right) == Unique(left) + Unique(right)
  {
    if right == [] {
      assert left + right == left;
    } else {
      assert (left + right)[..|left + right| - 1] == left + right[..|right| - 1];
      UniqueConcat(left, right[..|right| - 1]);
    }
  }

  lemma {:induction false} UniqueKeysAreReferences(components: seq<Component>)
    ensures Unique(components).Keys == References(components)
  {
    UniqueHolds(components);
    forall r | r in Unique(components)
      ensures r in References(components)
    {
      var i :| 0 <= i < |components| && components[i] == Unique(components)[r];
      assert components[i].reference == r;
    }
  }

  lemma PermutationMembers(a: seq<Component>, b: seq<Component>)
    requires multiset(a) == multiset(b)
    ensures forall c :: c in a <==> c in b
  {
    forall c
      ensures c in a <==> c in b
    {
      assert c in a <==> c in multiset(a);
      assert c in b <==> c in multiset(b);
    }
  }

  lemma {:induction false} SameWinner(cargo: seq<Component>, reordered: seq<Component>, others: seq<Component>,
                                      r: string)
    requires multiset(cargo) == multiset(reordered) && Agree(cargo, others)
    ensures r in Unique(cargo) <==> r in Unique(reordered)
    ensures r in Unique(cargo) && r !in References(others) ==> Unique(cargo)[r] == Unique(reordered)[r]
  {
    PermutationMembers(cargo, reordered);
    UniqueHolds(cargo);
    UniqueHolds(reordered);
    if r in Unique(cargo) {
      assert Unique(cargo)[r] in reordered;
    }
    if r in Unique(reordered) {
      assert Unique(reordered)[r] in cargo;
    }
    if r in Unique(cargo) && r !in References(others) {
      var i :| 0 <= i < |cargo| && cargo[i] == Unique(cargo)[r];
      var k :| 0 <= k < |cargo| && cargo[k] == Unique(reordered)[r];
      assert Contested(cargo[i], cargo[k], others);
    }
  }

  lemma {:induction false} AgreeingOrdersAgree(cargo: seq<Component>, reordered: seq<Component>, others: seq<Component>)
    requires multiset(cargo) == multiset(reordered) && Agree(cargo, others)
    ensures Unique(cargo + others) == Unique(reordered + others)
  {
    UniqueConcat(cargo, others);
    UniqueConcat(reordered, others);
    UniqueKeysAreReferences(others);
    forall r
      ensures r in Unique(cargo) <==> r in Unique(reordered)
      ensures r in Unique(cargo) && r !in References(others) ==> Unique(cargo)[r] == Unique(reordered)[r]
    {
      SameWinner(cargo, reordered, others, r);
    }
  }

  /** A list moved so that its `i`-th component comes last. */
  function LastOf(cargo: seq<Component>, i: nat): seq<Component>
    requires i < |cargo|
  {
    cargo[..i] + cargo[i + 1..] + [cargo[i]]
  }

  lemma {:induction false} LastWins(cargo: seq<Component>, others: seq<Component>, i: nat)
    requires i < |cargo| && cargo[i].reference !in References(others)
    ensures multiset(LastOf(cargo, i)) == multiset(cargo)
    ensures cargo[i].reference in Unique(LastOf(cargo, i) + others)
    ensures Unique(LastOf(cargo, i) + others)[cargo[i].reference] == cargo[i]
  {
    assert cargo == cargo[..i] + [cargo[i]] + cargo[i + 1..];
    var moved := LastOf(cargo, i);
    assert moved[..|moved| - 1] == cargo[..i] + cargo[i + 1..];
    assert Unique(moved)[cargo[i].reference] == cargo[i];
    UniqueConcat(moved, others);
    UniqueKeysAreReferences(others);
  }

  /** The inventory does not depend on the order in which the package set is iterated if and only if
      packages with one reference describe the same component. */
  lemma OrderIsIrrelevantIffReferencesAgree(cargo: seq<Component>, others: seq<Component>)
    ensures (forall reordered :: multiset(reordered) == multiset(cargo) ==>
        Listing(reordered + others) == Listing(cargo + others))
       <==> Agree(cargo, others)
  {
    if Agree(cargo, others) {
      forall reordered | multiset(reordered) == multiset(cargo)
        ensures Listing(reordered + others) == Listing(cargo + others)
      {
        AgreeingOrdersAgree(cargo, reordered, others);
      }
    } else {
      var i, k :| 0 <= i < |cargo| && 0 <= k < |cargo| && Contested(cargo[i], cargo[k], others) && cargo[i] != cargo[k];
      LastWins(cargo, others, i);
      LastWins(cargo, others, k);
      var first, second := LastOf(cargo, i) + others, LastOf(cargo, k) + others;
      ListingShows(first, cargo[i].reference);
      ListingShows(second, cargo[k].reference);
      assert Listing(first) != Listing(second);
    }
  }

  /** The listing holds the dictionary's component of a reference, and no other of that reference. */
  lemma {:induction false} ListingShows(components: seq<Component>, reference: string)
    requires reference in Unique(components)
    ensures Unique(components)[reference] in Listing(components)
    ensures forall c :: c in Listing(components) && c.reference == reference ==> c == Unique(components)[reference]
  {
    var unique := Unique(components);
    var keys := SortedKeys(unique.Keys);
    SortedKeysAreSorted(unique.Keys);
    UniqueHolds(components);
    var k :| 0 <= k < |keys| && keys[k] == reference;
    assert Listing(components)[k] == unique[reference];
    forall i | 0 <= i < |keys|
      ensures Listing(components)[i].reference == keys[i]
    {
      assert keys[i] in keys;
    }
  }
}

/**
  Putting whole connected components of rows into the test split so that it has an exact size:
  grouping rows by root, a subset-sum table whose entries carry witnesses, and writing the split.
 */
module SubsetSums {
  import opened Common

  predicate Increasing(s: seq<nat>) {
    forall i, j | 0 <= i < j < |s| :: s[i] < s[j]
  }

  predicate Below(s: seq<nat>, k: nat) {
    forall i | 0 <= i < |s| :: s[i] < k
  }

  function SumAt(sizes: seq<nat>, chosen: seq<nat>): nat
    requires Below(chosen, |sizes|)
  {
    if chosen == [] then 0
    else SumAt(sizes, chosen[..|chosen| - 1]) + sizes[chosen[|chosen| - 1]]
  }

  // chosen is a strictly increasing list of positions below k whose sizes add up to total.
  predicate IsWitness(sizes: seq<nat>, k: nat, chosen: seq<nat>, total: int) {
    && k <= |sizes|
    && Increasing(chosen)
    && Below(chosen, k)
    && SumAt(sizes, chosen) == total
  }

  // Some set of the first k sizes adds up to total.
  ghost predicate Attainable(sizes: seq<nat>, k: nat, total: int) {
    exists chosen: seq<nat> :: IsWitness(sizes, k, chosen, total)
  }

  // The table after k sizes: exactly the attainable sums up to the limit, each with a witness.
  ghost predicate IsTable(sizes: seq<nat>, k: nat, limit: int, table: map<int, seq<nat>>) {
    && (forall t | t in table :: IsWitness(sizes, k, table[t], t))
    && (forall t {:trigger t in table} :: t in table <==> t == 0 || (t <= limit && Attainable(sizes, k, t)))
  }

  lemma {:induction false} WitnessExtends(sizes: seq<nat>, k: nat, chosen: seq<nat>, total: int)
    requires IsWitness(sizes, k, chosen, total) && k < |sizes|
    ensures IsWitness(sizes, k + 1, chosen, total)
    ensures IsWitness(sizes, k + 1, chosen + [k], total + sizes[k])
  {
    assert (chosen + [k])[..|chosen + [k]| - 1] == chosen;
  }

  lemma {:induction false} WitnessShrinks(sizes: seq<nat>, k: nat, chosen: seq<nat>, total: int)
    requires IsWitness(sizes, k + 1, chosen, total) && k < |sizes|
    ensures IsWitness(sizes, k, chosen, total)
            || (chosen != [] && IsWitness(sizes, k, chosen[..|chosen| - 1], total - sizes[k]))
  {
    if chosen != [] {
      assert forall i | 0 <= i < |chosen| - 1 :: chosen[i] < chosen[|chosen| - 1];
    }
  }

  // With one more size, a sum is attainable without it or together with it.
  lemma {:induction false} AttainableStep(sizes: seq<nat>, k: nat, total: int)
    requires k < |sizes|
    ensures Attainable(sizes, k + 1, total)
            <==> Attainable(sizes, k, total) || Attainable(sizes, k, total - sizes[k])
  {
    hide IsWitness;
    if Attainable(sizes, k, total) {
      var chosen: seq<nat> :| IsWitness(sizes, k, chosen, total);
      WitnessExtends(sizes, k, chosen, total);
    }
    if Attainable(sizes, k, total - sizes[k]) {
      var chosen: seq<nat> :| IsWitness(sizes, k, chosen, total - sizes[k]);
      WitnessExtends(sizes, k, chosen, total - sizes[k]);
    }
    if Attainable(sizes, k + 1, total) {
      var chosen: seq<nat> :| IsWitness(sizes, k + 1, chosen, total);
      WitnessShrinks(sizes, k, chosen, total);
    }
  }

  predicate IsLargest(s: set<int>, x: int) {
    x in s && forall y | y in s :: y <= x
  }

  lemma {:induction false} HasLargest(s: set<int>) returns (x: int)
    requires s != {}
    ensures IsLargest(s, x)
  {
    x := Pick(s);
    if s != {x} {
      var m := HasLargest(s - {x});
      assert forall y | y in s :: y == x || y in s - {x};
      x := if m < x then x else m;
    }
  }

  // The entries that one more size adds to a table, for the entries already visited.
  ghost predicate AreAdditions(sizes: seq<nat>, k: nat, limit: int, table: map<int, seq<nat>>,
                               visited: set<int>, additions: map<int, seq<nat>>)
    requires k < |sizes|
  {
    && (forall t | t in additions :: IsWitness(sizes, k + 1, additions[t], t))
    && (forall t {:trigger t in additions} :: t in additions <==> t <= limit && t !in table && t - sizes[k] in visited)
  }

  lemma {:induction false} AdditionsCompleteTable(sizes: seq<nat>, k: nat, limit: int, table: map<int, seq<nat>>,
                               additions: map<int, seq<nat>>)
    requires k < |sizes| && IsTable(sizes, k, limit, table)
    requires AreAdditions(sizes, k, limit, table, table.Keys, additions)
    ensures IsTable(sizes, k + 1, limit, table + additions)
  {
    var next := table + additions;
    forall t | t in next ensures IsWitness(sizes, k + 1, next[t], t) {
      if t !in additions { WitnessExtends(sizes, k, table[t], t); }
    }
    forall t ensures t in next <==> t == 0 || (t <= limit && Attainable(sizes, k + 1, t)) {
      AttainableStep(sizes, k, t);
      if t in additions { assert IsWitness(sizes, k + 1, additions[t], t); }
      if Attainable(sizes, k, t - sizes[k]) && t <= limit && t !in table {
        assert t - sizes[k] in table;
      }
    }
  }

  // Visiting one more entry; distinct entries lead to distinct new sums.
  lemma {:induction false} VisitEntry(sizes: seq<nat>, k: nat, limit: int, table: map<int, seq<nat>>,
                   visited: set<int>, additions: map<int, seq<nat>>, size: int)
    requires k < |sizes| && IsTable(sizes, k, limit, table) && size in table && size !in visited
    requires AreAdditions(sizes, k, limit, table, visited, additions)
    ensures var newSize := size + sizes[k];
            AreAdditions(sizes, k, limit, table, visited + {size},
                         if newSize <= limit && newSize !in table
                         then additions[newSize := table[size] + [k]] else additions)
  {
    WitnessExtends(sizes, k, table[size], size);
    hide IsWitness, Attainable;
  }

  method Visit(sizes: seq<nat>, k: nat, limit: int, table: map<int, seq<nat>>, ghost visited: set<int>,
               additions: map<int, seq<nat>>, size: int)
    returns (more: map<int, seq<nat>>)
    requires k < |sizes| && IsTable(sizes, k, limit, table) && size in table && size !in visited
    requires AreAdditions(sizes, k, limit, table, visited, additions)
    ensures AreAdditions(sizes, k, limit, table, visited + {size}, more)
  {
    VisitEntry(sizes, k, limit, table, visited, additions, size);
    more := additions;
    var newSize := size + sizes[k];
    if newSize <= limit && newSize !in table && newSize !in additions { more := more[newSize := table[size] + [k]]; }
  }

  lemma {:induction false} NoAdditions(sizes: seq<nat>, k: nat, limit: int, table: map<int, seq<nat>>)
    requires k < |sizes|
    ensures AreAdditions(sizes, k, limit, table, {}, map[])
  {
  }

  method Additions(sizes: seq<nat>, k: nat, limit: int, table: map<int, seq<nat>>)
    returns (additions: map<int, seq<nat>>)
    requires k < |sizes| && IsTable(sizes, k, limit, table)
    ensures AreAdditions(sizes, k, limit, table, table.Keys, additions)
  {
    NoAdditions(sizes, k, limit, table);
    additions := map[];
    var pending := table.Keys;
    ghost var visited: set<int> := {};
    while pending != {}
      invariant pending !! visited && pending + visited == table.Keys
      invariant AreAdditions(sizes, k, limit, table, visited, additions)
    {
      ghost var largest := HasLargest(pending);
      var size: int :| size in pending && IsLargest(pending, size);
      assert size in pending + visited;
      additions := Visit(sizes, k, limit, table, visited, additions, size);
      pending, visited := pending - {size}, visited + {size};
    }
  }

  lemma {:induction false} NoSizes(sizes: seq<nat>, limit: int)
    ensures IsTable(sizes, 0, limit, map[0 := []])
  {
    assert forall t | Attainable(sizes, 0, t) :: t == 0;
    assert IsWitness(sizes, 0, [], 0);
  }

  method SubsetTable(sizes: seq<nat>, limit: int) returns (table: map<int, seq<nat>>)
    ensures IsTable(sizes, |sizes|, limit, table)
  {
    hide IsTable, AreAdditions;
    table := map[0 := []];
    NoSizes(sizes, limit);
    for k := 0 to |sizes|
      invariant IsTable(sizes, k, limit, table)
    {
      var additions := Additions(sizes, k, limit, table);
      AdditionsCompleteTable(sizes, k, limit, table, additions);
      table := table + additions;
    }
  }
}

module SplitAllocation {
  import opened Sequences
  import opened Orders
  import opened Connectivity
  import opened UnionFind
  import opened SubsetSums

  type Links = set<(string, string)>

  /******* Grouping rows by connected component *******/

  // g is, in increasing order, all rows of one connected component; row i stands at nodes[i].
  ghost predicate IsComponent(links: Links, nodes: seq<string>, g: seq<nat>) {
    && g != [] && Increasing(g) && Below(g, |nodes|)
    && (forall i: nat, j: nat | i in g && i < |nodes| && j < |nodes| ::
        j in g <==> Connected(links, nodes[i], nodes[j]))
  }

  ghost predicate IsListed(groups: seq<seq<nat>>, i: nat) {
    exists g :: g in groups && i in g
  }

  ghost predicate IsGrouping(links: Links, nodes: seq<string>, groups: seq<seq<nat>>) {
    && (forall g | g in groups :: IsComponent(links, nodes, g))
    && (forall i | 0 <= i < |nodes| :: IsListed(groups, i))
    && (forall g | g in groups :: multiset(groups)[g] == 1)
  }

  lemma {:induction false} ReorderedGrouping(links: Links, nodes: seq<string>, groups: seq<seq<nat>>,
                                             ordered: seq<seq<nat>>)
    requires IsGrouping(links, nodes, groups) && multiset(ordered) == multiset(groups)
    ensures IsGrouping(links, nodes, ordered)
  {
    assert forall g :: g in ordered <==> g in multiset(ordered);
    assert forall g :: g in groups <==> g in multiset(groups);
    forall i | 0 <= i < |nodes| ensures IsListed(ordered, i) {
      assert IsListed(groups, i);
      var g :| g in groups && i in g;
      assert g in ordered;
    }
  }

  // The positions at which root stands, in increasing order.
  function Positions(roots: seq<string>, root: string): seq<nat> {
    if roots == [] then [] else
      var last := |roots| - 1;
      Positions(roots[..last], root) + if roots[last] == root then [last] else []
  }

  lemma {:induction false} PositionsAre(roots: seq<string>, root: string)
    ensures Increasing(Positions(roots, root)) && Below(Positions(roots, root), |roots|)
    ensures forall i: nat :: i in Positions(roots, root) <==> i < |roots| && roots[i] == root
  {
    if roots != [] { PositionsAre(roots[..|roots| - 1], root); }
  }

  // roots[i] is the root of the i-th node.
  ghost predicate AreRoots(f: Forest, nodes: seq<string>, roots: seq<string>) {
    && IsForest(f) && |roots| <= |nodes|
    && forall i | 0 <= i < |roots| :: nodes[i] in f && roots[i] == Root(f, nodes[i])
  }

  method FindRoot(sets: DisjointSets, nodes: seq<string>, index: nat, ghost roots: seq<string>) returns (root: string)
    requires sets.Valid() && index < |nodes| && nodes[index] in sets.parent
    requires |roots| == index && AreRoots(sets.parent, nodes, roots)
    modifies sets`parent
    ensures sets.Valid() && sets.parent.Keys == old(sets.parent.Keys)
    ensures AreRoots(sets.parent, nodes, roots + [root])
  {
    root := sets.Find(nodes[index]);
  }

  method GroupByRoot(sets: DisjointSets, nodes: seq<string>) returns (groups: seq<seq<nat>>)
    requires sets.Valid() && Elements(nodes) <= sets.parent.Keys
    modifies sets`parent
    ensures sets.Valid()
    ensures IsGrouping(sets.links, nodes, groups)
  {
    var members: map<string, seq<nat>> := map[];
    var order: seq<string> := [];
    ghost var roots: seq<string> := [];
    for index := 0 to |nodes|
      invariant sets.Valid() && sets.parent.Keys == old(sets.parent.Keys) && |roots| == index
      invariant AreRoots(sets.parent, nodes, roots) && IsIndex(roots, order, members)
    {
      assert nodes[index] in Elements(nodes);
      var root := FindRoot(sets, nodes, index, roots);
      if root in members {
        SeenRootGrows(roots, order, members, root);
        members := members[root := members[root] + [index]];
      } else {
        NewRootGrows(roots, order, members, root);
        order := order + [root];
        members := members[root := [index]];
      }
      roots := roots + [root];
    }
    groups := Values(order, members);
    IndexIsGrouping(sets.parent, sets.links, nodes, roots, order, members, groups);
  }

  function Values(order: seq<string>, members: map<string, seq<nat>>): (groups: seq<seq<nat>>)
    requires Elements(order) <= members.Keys
    ensures |groups| == |order|
    ensures forall k | 0 <= k < |order| :: order[k] in members && groups[k] == members[order[k]]
  {
    if order == [] then [] else
      assert order[0] in Elements(order);
      assert Elements(order[1..]) <= Elements(order);
      [members[order[0]]] + Values(order[1..], members)
  }

  // members lists the positions of every root seen; order lists the roots as first seen.
  ghost predicate IsIndex(roots: seq<string>, order: seq<string>, members: map<string, seq<nat>>) {
    && AllDistinct(order)
    && members.Keys == Elements(roots) == Elements(order)
    && (forall r {:trigger members[r]} | r in members :: members[r] == Positions(roots, r))
  }

  lemma {:induction false} PositionsGrow(roots: seq<string>, root: string, r: string)
    ensures Positions(roots + [root], r) == Positions(roots, r) + if r == root then [|roots|] else []
  {
    assert (roots + [root])[..|roots|] == roots;
  }

  lemma {:induction false} NoPositions(roots: seq<string>, root: string)
    requires root !in Elements(roots)
    ensures Positions(roots, root) == []
  {
    if roots != [] {
      NoPositions(roots[..|roots| - 1], root);
    }
  }

  lemma {:induction false} SeenRootGrows(roots: seq<string>, order: seq<string>, members: map<string, seq<nat>>,
                                         root: string)
    requires IsIndex(roots, order, members) && root in members
    ensures IsIndex(roots + [root], order, members[root := members[root] + [|roots|]])
  {
    var more := members[root := members[root] + [|roots|]];
    ElementsGrow(roots, root);
    forall r | r in more ensures more[r] == Positions(roots + [root], r) {
      PositionsGrow(roots, root, r);
      assert members[r] == Positions(roots, r);
    }
  }

  lemma {:induction false} NewRootGrows(roots: seq<string>, order: seq<string>, members: map<string, seq<nat>>,
                                        root: string)
    requires IsIndex(roots, order, members) && root !in members
    ensures IsIndex(roots + [root], order + [root], members[root := [|roots|]])
  {
    var more := members[root := [|roots|]];
    ElementsGrow(roots, root);
    ElementsGrow(order, root);
    assert root !in Elements(order) && root !in Elements(roots);
    forall r | r in more ensures more[r] == Positions(roots + [root], r) {
      PositionsGrow(roots, root, r);
      if r == root {
        NoPositions(roots, root);
      } else {
        assert members[r] == Positions(roots, r);
      }
    }
  }

  lemma {:induction false} IndexIsGrouping(f: Forest, links: Links, nodes: seq<string>, roots: seq<string>,
                                           order: seq<string>,
                        members: map<string, seq<nat>>, groups: seq<seq<nat>>)
    requires Represents(f, links) && |roots| == |nodes|
    requires AreRoots(f, nodes, roots)
    requires IsIndex(roots, order, members)
    requires |groups| == |order| && forall k | 0 <= k < |order| :: order[k] in members && groups[k] == members[order[k]]
    ensures IsGrouping(links, nodes, groups)
  {
    forall g | g in groups ensures IsComponent(links, nodes, g) {
      var k :| 0 <= k < |groups| && groups[k] == g;
      PositionsAreComponent(f, links, nodes, roots, order[k]);
    }
    forall i | 0 <= i < |nodes| ensures IsListed(groups, i) {
      assert roots[i] in Elements(roots);
      assert roots[i] in Elements(order);
      var k :| 0 <= k < |order| && order[k] == roots[i];
      PositionsAre(roots, roots[i]);
      assert i in groups[k];
    }
    forall g | g in groups ensures multiset(groups)[g] == 1 {
      var k :| 0 <= k < |groups| && groups[k] == g;
      GroupOnce(roots, order, members, groups, k);
    }
  }

  lemma {:induction false} PositionsAreComponent(f: Forest, links: Links, nodes: seq<string>, roots: seq<string>,
                                                 root: string)
    requires Represents(f, links) && |roots| == |nodes| && root in roots
    requires AreRoots(f, nodes, roots)
    ensures IsComponent(links, nodes, Positions(roots, root))
  {
    var g := Positions(roots, root);
    PositionsAre(roots, root);
    var k :| 0 <= k < |roots| && roots[k] == root;
    assert k in g;
    forall i: nat, j: nat | i in g && i < |nodes| && j < |nodes|
      ensures j in g <==> Connected(links, nodes[i], nodes[j])
    {
      RootIffConnected(f, links, nodes[i], nodes[j]);
    }
  }

  lemma {:induction false} CountOnce<T>(s: seq<T>, k: nat)
    requires k < |s| && forall j | 0 <= j < |s| && j != k :: s[j] != s[k]
    ensures multiset(s)[s[k]] == 1
  {
    assert s == s[..k] + [s[k]] + s[k + 1..];
    assert s[k] !in s[..k] && s[k] !in s[k + 1..];
    assert multiset(s[..k])[s[k]] == 0 && multiset(s[k + 1..])[s[k]] == 0;
  }

  lemma {:induction false} GroupOnce(roots: seq<string>, order: seq<string>, members: map<string, seq<nat>>,
                  groups: seq<seq<nat>>, k: nat)
    requires IsIndex(roots, order, members) && k < |order| == |groups|
    requires forall k | 0 <= k < |order| :: order[k] in members && groups[k] == members[order[k]]
    ensures multiset(groups)[groups[k]] == 1
  {
    forall j | 0 <= j < |groups| && j != k ensures groups[j] != groups[k] {
      assert order[j] != order[k];
      assert order[k] in Elements(order);
      assert order[k] in Elements(roots);
      var i :| 0 <= i < |roots| && roots[i] == order[k];
      PositionsAre(roots, order[k]);
      PositionsAre(roots, order[j]);
      assert i in Positions(roots, order[k]) && i !in Positions(roots, order[j]);
    }
    CountOnce(groups, k);
  }

  /******* Splits without leakage *******/

  function TestRows(labels: seq<bool>): set<nat> {
    set i: nat | i < |labels| && labels[i]
  }

  // Rows in one connected component get one label, and exactly size rows are test rows.
  ghost predicate IsExactSplit(links: Links, nodes: seq<string>, size: int, labels: seq<bool>) {
    && |labels| == |nodes|
    && |TestRows(labels)| == size
    && forall i: nat, j: nat | i < |nodes| && j < |nodes| && Connected(links, nodes[i], nodes[j]) ::
        labels[i] == labels[j]
  }

  ghost predicate HasExactSplit(links: Links, nodes: seq<string>, size: int) {
    exists labels :: IsExactSplit(links, nodes, size, labels)
  }

  function SetOf(g: seq<nat>): set<nat> { set i | i in g }

  function Sizes(groups: seq<seq<nat>>): (r: seq<nat>)
    ensures |r| == |groups| && forall c | 0 <= c < |groups| :: r[c] == |groups[c]|
  {
    if groups == [] then [] else [|groups[0]|] + Sizes(groups[1..])
  }

  // All rows of the chosen groups.
  function RowsOf(groups: seq<seq<nat>>, chosen: seq<nat>): set<nat>
    requires Below(chosen, |groups|)
  {
    if chosen == [] then {}
    else RowsOf(groups, chosen[..|chosen| - 1]) + SetOf(groups[chosen[|chosen| - 1]])
  }

  lemma {:induction false} RowsOfMember(groups: seq<seq<nat>>, chosen: seq<nat>, i: nat)
    requires Below(chosen, |groups|)
    ensures i in RowsOf(groups, chosen) <==> exists c :: c in chosen && c < |groups| && i in groups[c]
  {
    if chosen != [] {
      var rest, last := chosen[..|chosen| - 1], chosen[|chosen| - 1];
      RowsOfMember(groups, rest, i);
      assert chosen == rest + [last];
      if i in groups[last] { assert last in chosen; }
    }
  }

  lemma {:induction false} IncreasingCardinality(g: seq<nat>)
    requires Increasing(g)
    ensures |SetOf(g)| == |g|
  {
    if g != [] {
      var rest, last := g[..|g| - 1], g[|g| - 1];
      IncreasingCardinality(rest);
      assert last !in SetOf(rest);
      assert SetOf(g) == SetOf(rest) + {last};
    }
  }

  lemma {:induction false} AtDistinctPlaces<T>(s: seq<T>, j: nat, k: nat)
    requires j < k < |s| && multiset(s)[s[k]] == 1
    ensures s[j] != s[k]
  {
    assert s == s[..k] + [s[k]] + s[k + 1..];
    assert s[j] in s[..k];
    assert multiset(s[..k])[s[j]] >= 1;
  }

  lemma {:induction false} DropLast(a: seq<nat>)
    requires a != [] && Increasing(a)
    ensures forall x: nat :: x in a[..|a| - 1] <==> x in a && x != a[|a| - 1]
    ensures forall x: nat | x in a :: x <= a[|a| - 1]
  {
    var last := |a| - 1;
    assert a == a[..last] + [a[last]];
  }

  lemma {:induction false} SameElements(a: seq<nat>, b: seq<nat>)
    requires Increasing(a) && Increasing(b) && forall x: nat :: x in a <==> x in b
    ensures a == b
  {
    assert a != [] ==> a[0] in b;
    assert b != [] ==> b[0] in a;
    if a != [] {
      assert a[|a| - 1] in b && b[|b| - 1] in a;
      DropLast(a);
      DropLast(b);
      assert a[|a| - 1] == b[|b| - 1];
      var a', b' := a[..|a| - 1], b[..|b| - 1];
      forall x: nat ensures x in a' <==> x in b' {
        assert x in a' <==> x in a && x != a[|a| - 1];
        assert x in b' <==> x in b && x != b[|b| - 1];
      }
      SameElements(a', b');
      assert a == a[..|a| - 1] + [a[|a| - 1]] && b == b[..|b| - 1] + [b[|b| - 1]];
    }
  }

  // Different groups share no row.
  lemma {:induction false} GroupsAreDisjoint(links: Links, nodes: seq<string>, groups: seq<seq<nat>>, c: nat, d: nat,
                                             i: nat)
    requires IsGrouping(links, nodes, groups) && c < d < |groups| && i in groups[c]
    ensures i !in groups[d]
  {
    assert groups[d] in groups;
    AtDistinctPlaces(groups, c, d);
    if i in groups[d] {
      assert IsComponent(links, nodes, groups[c]) && IsComponent(links, nodes, groups[d]);
      SameElements(groups[c], groups[d]);
    }
  }

  // The chosen groups hold as many rows as their sizes add up to.
  lemma {:induction false} RowsOfCardinality(links: Links, nodes: seq<string>, groups: seq<seq<nat>>, chosen: seq<nat>)
    requires IsGrouping(links, nodes, groups) && Below(chosen, |groups|) && Increasing(chosen)
    ensures |RowsOf(groups, chosen)| == SumAt(Sizes(groups), chosen)
  {
    if chosen != [] {
      var rest, last := chosen[..|chosen| - 1], chosen[|chosen| - 1];
      RowsOfCardinality(links, nodes, groups, rest);
      assert IsComponent(links, nodes, groups[last]);
      IncreasingCardinality(groups[last]);
      forall i | i in RowsOf(groups, rest) ensures i !in SetOf(groups[last]) {
        RowsOfMember(groups, rest, i);
        var c :| c in rest && c < |groups| && i in groups[c];
        GroupsAreDisjoint(links, nodes, groups, c, last, i);
      }
      assert RowsOf(groups, rest) !! SetOf(groups[last]);
    }
  }

  // A choice of groups is an exact split of its own size.
  lemma {:induction false} ChoiceIsExactSplit(links: Links, nodes: seq<string>, groups: seq<seq<nat>>,
                                              chosen: seq<nat>, labels: seq<bool>)
    requires IsGrouping(links, nodes, groups) && Below(chosen, |groups|) && Increasing(chosen)
    requires |labels| == |nodes|
    requires forall i: nat | i < |nodes| :: labels[i] <==> i in RowsOf(groups, chosen)
    ensures IsExactSplit(links, nodes, SumAt(Sizes(groups), chosen), labels)
  {
    RowsOfCardinality(links, nodes, groups, chosen);
    forall i | i in RowsOf(groups, chosen) ensures i in TestRows(labels) {
      RowsOfMember(groups, chosen, i);
      var c :| c in chosen && c < |groups| && i in groups[c];
      assert IsComponent(links, nodes, groups[c]);
    }
    assert TestRows(labels) == RowsOf(groups, chosen);
    forall i: nat, j: nat | i < |nodes| && j < |nodes| && Connected(links, nodes[i], nodes[j])
      ensures labels[i] == labels[j]
    {
      ConnectedSym(links, nodes[i], nodes[j]);
      ChosenTogether(links, nodes, groups, chosen, i, j);
      ChosenTogether(links, nodes, groups, chosen, j, i);
    }
  }

  lemma {:induction false} ChosenTogether(links: Links, nodes: seq<string>, groups: seq<seq<nat>>, chosen: seq<nat>,
                                          i: nat, j: nat)
    requires IsGrouping(links, nodes, groups) && Below(chosen, |groups|)
    requires i < |nodes| && j < |nodes| && Connected(links, nodes[i], nodes[j])
    ensures i in RowsOf(groups, chosen) ==> j in RowsOf(groups, chosen)
  {
    RowsOfMember(groups, chosen, i);
    RowsOfMember(groups, chosen, j);
    if i in RowsOf(groups, chosen) {
      var c :| c in chosen && c < |groups| && i in groups[c];
      assert IsComponent(links, nodes, groups[c]);
    }
  }

  // The groups whose first row is a test row.
  function TestGroups(groups: seq<seq<nat>>, labels: seq<bool>, k: nat): (chosen: seq<nat>)
    requires k <= |groups|
    requires forall c | 0 <= c < |groups| :: groups[c] != [] && groups[c][0] < |labels|
    ensures Increasing(chosen) && Below(chosen, k)
    ensures forall c: nat :: c in chosen <==> c < k && labels[groups[c][0]]
  {
    if k == 0 then [] else
      TestGroups(groups, labels, k - 1) + if labels[groups[k - 1][0]] then [k - 1] else []
  }

  // Every exact split is a choice of groups, so its size is a subset sum of the group sizes.
  lemma {:induction false} ExactSplitIsChoice(links: Links, nodes: seq<string>, groups: seq<seq<nat>>, size: int,
                                              labels: seq<bool>)
    requires IsGrouping(links, nodes, groups) && IsExactSplit(links, nodes, size, labels)
    ensures Attainable(Sizes(groups), |groups|, size)
  {
    forall c | 0 <= c < |groups| ensures groups[c] != [] && groups[c][0] < |labels| {
      assert IsComponent(links, nodes, groups[c]);
    }
    var chosen := TestGroups(groups, labels, |groups|);
    RowsOfCardinality(links, nodes, groups, chosen);
    forall i: nat ensures i in RowsOf(groups, chosen) <==> i in TestRows(labels) {
      TestGroupsHoldTestRows(links, nodes, groups, size, labels, chosen, i);
    }
    assert RowsOf(groups, chosen) == TestRows(labels);
    assert IsWitness(Sizes(groups), |groups|, chosen, size);
  }

  lemma {:induction false} TestGroupsHoldTestRows(links: Links, nodes: seq<string>, groups: seq<seq<nat>>, size: int,
                                                  labels: seq<bool>,
                               chosen: seq<nat>, i: nat)
    requires IsGrouping(links, nodes, groups) && IsExactSplit(links, nodes, size, labels)
    requires forall c | 0 <= c < |groups| :: groups[c] != [] && groups[c][0] < |labels|
    requires chosen == TestGroups(groups, labels, |groups|)
    ensures i in RowsOf(groups, chosen) <==> i in TestRows(labels)
  {
    RowsOfMember(groups, chosen, i);
    if i in RowsOf(groups, chosen) {
      var c :| c in chosen && c < |groups| && i in groups[c];
      SameLabelInGroup(links, nodes, size, labels, groups[c], i);
    }
    if i in TestRows(labels) {
      assert IsListed(groups, i);
      var g :| g in groups && i in g;
      var c :| 0 <= c < |groups| && groups[c] == g;
      SameLabelInGroup(links, nodes, size, labels, groups[c], i);
      assert c in chosen;
    }
  }

  lemma {:induction false} SameLabelInGroup(links: Links, nodes: seq<string>, size: int, labels: seq<bool>,
                                            g: seq<nat>, i: nat)
    requires IsComponent(links, nodes, g) && IsExactSplit(links, nodes, size, labels) && i in g
    ensures i < |labels| && g[0] < |labels| && labels[i] == labels[g[0]]
  {
    assert g[0] in g;
    assert Connected(links, nodes[g[0]], nodes[i]);
  }

  /******* Writing the split *******/

  datatype Split = Unset | Test | Dev

  datatype Row<T> = Row(item: T, split: Split)

  // after is before with every row's split written as its label says, and nothing else changed.
  ghost predicate IsLabelled<T>(before: seq<Row<T>>, labels: seq<bool>, after: seq<Row<T>>) {
    && |before| == |labels| == |after|
    && forall i | 0 <= i < |before| :: after[i] == before[i].(split := if labels[i] then Test else Dev)
  }

  // after is before with some exact split written into it.
  ghost predicate IsSplitOf<T>(links: Links, nodes: seq<string>, size: int, before: seq<Row<T>>, after: seq<Row<T>>) {
    exists labels :: IsExactSplit(links, nodes, size, labels) && IsLabelled(before, labels, after)
  }

  // A row of group c is a chosen row exactly when c is chosen.
  lemma {:induction false} ChosenRow(links: Links, nodes: seq<string>, groups: seq<seq<nat>>, chosen: seq<nat>,
                                     c: nat, i: nat)
    requires IsGrouping(links, nodes, groups) && Below(chosen, |groups|)
    requires c < |groups| && i in groups[c]
    ensures i in RowsOf(groups, chosen) <==> c in chosen
  {
    RowsOfMember(groups, chosen, i);
    forall d | d in chosen && d < |groups| && i in groups[d] ensures d == c {
      if d < c { GroupsAreDisjoint(links, nodes, groups, d, c, i); }
      if c < d { GroupsAreDisjoint(links, nodes, groups, c, d, i); }
    }
  }

  method WriteGroup<T>(rows: array<Row<T>>, g: seq<nat>, split: Split)
    requires Below(g, rows.Length)
    modifies rows
    ensures forall i | 0 <= i < rows.Length ::
              rows[i] == if i in g then old(rows[i]).(split := split) else old(rows[i])
  {
    for k := 0 to |g|
      invariant forall i | 0 <= i < rows.Length ::
                  rows[i] == if i in g[..k] then old(rows[i]).(split := split) else old(rows[i])
    {
      assert g[..k + 1] == g[..k] + [g[k]];
      rows[g[k]] := rows[g[k]].(split := split);
    }
    assert g[..|g|] == g;
  }

  method WriteSplits<T>(rows: array<Row<T>>, groups: seq<seq<nat>>, chosen: seq<nat>,
                            ghost links: Links, ghost nodes: seq<string>, ghost labels: seq<bool>)
    requires IsGrouping(links, nodes, groups) && Below(chosen, |groups|)
    requires |nodes| == rows.Length == |labels|
    requires forall i: nat | i < |nodes| :: labels[i] <==> i in RowsOf(groups, chosen)
    modifies rows
    ensures IsLabelled(old(rows[..]), labels, rows[..])
  {
    for c := 0 to |groups|
      invariant forall i | 0 <= i < rows.Length ::
                  rows[i] == if IsListed(groups[..c], i) then old(rows[i]).(split := if labels[i] then Test else Dev)
                             else old(rows[i])
    {
      assert IsComponent(links, nodes, groups[c]);
      var split := if c in chosen then Test else Dev;
      WriteGroup(rows, groups[c], split);
      forall i: nat | i < rows.Length
        ensures IsListed(groups[..c + 1], i) <==> IsListed(groups[..c], i) || i in groups[c]
        ensures i in groups[c] ==> (labels[i] <==> c in chosen)
      {
        ListedStep(groups, c, i);
        if i in groups[c] { ChosenRow(links, nodes, groups, chosen, c, i); }
      }
    }
    assert groups[..|groups|] == groups;
    assert forall i | 0 <= i < rows.Length :: IsListed(groups, i);
  }

  lemma {:induction false} ListedStep(groups: seq<seq<nat>>, c: nat, i: nat)
    requires c < |groups|
    ensures IsListed(groups[..c + 1], i) <==> IsListed(groups[..c], i) || i in groups[c]
  {
    assert groups[..c + 1] == groups[..c] + [groups[c]];
    if i in groups[c] { assert groups[c] in groups[..c + 1]; }
  }

  // Succeeds exactly when some split of that size leaks nothing, and then writes such a split.
  // digest stands for the SHA-256 digest of the joined row ids of a component.
  method SplitByComponent<T>(rows: array<Row<T>>, sets: DisjointSets, nodes: seq<string>, testSize: int,
                                 digest: seq<nat> -> string)
    returns (ok: bool)
    requires sets.Valid() && Elements(nodes) <= sets.parent.Keys && |nodes| == rows.Length
    modifies sets`parent, rows
    ensures ok <==> HasExactSplit(sets.links, nodes, testSize)
    ensures ok ==> IsSplitOf(sets.links, nodes, testSize, old(rows[..]), rows[..])
    ensures !ok ==> rows[..] == old(rows[..])
  {
    var groups := GroupByRoot(sets, nodes);
    var ordered := SortByKey(groups, digest);
    SortPermutes(groups, digest);
    ReorderedGrouping(sets.links, nodes, groups, ordered);
    var table := SubsetTable(Sizes(ordered), testSize);
    if testSize !in table {
      forall labels ensures !IsExactSplit(sets.links, nodes, testSize, labels) {
        if IsExactSplit(sets.links, nodes, testSize, labels) {
          ExactSplitIsChoice(sets.links, nodes, ordered, testSize, labels);
        }
      }
      return false;
    }
    var chosen := table[testSize];
    ghost var labels := seq(|nodes|, i requires 0 <= i < |nodes| => i in RowsOf(ordered, chosen));
    ChoiceIsExactSplit(sets.links, nodes, ordered, chosen, labels);
    WriteSplits(rows, ordered, chosen, sets.links, nodes, labels);
    return true;
  }
}

/**
  The union-find forest of the split generators: find with path halving, union that makes the
  smaller root in string order the root of both.  The specification is graph connectivity.
 */
module Connectivity {
  // x and y are joined by an edge, in either direction.
  predicate Adjacent(links: set<(string, string)>, x: string, y: string) {
    (x, y) in links || (y, x) in links
  }

  predicate IsWalk(links: set<(string, string)>, walk: seq<string>) {
    && walk != []
    && forall i | 0 <= i < |walk| - 1 :: Adjacent(links, walk[i], walk[i + 1])
  }

  predicate Joins(links: set<(string, string)>, walk: seq<string>, x: string, y: string) {
    IsWalk(links, walk) && walk[0] == x && walk[|walk| - 1] == y
  }

  ghost predicate Connected(links: set<(string, string)>, x: string, y: string) {
    exists walk :: Joins(links, walk, x, y)
  }

  lemma {:induction false} ConnectedRefl(links: set<(string, string)>, x: string)
    ensures Connected(links, x, x)
  {
    assert Joins(links, [x], x, x);
  }

  lemma {:induction false} ConnectedEdge(links: set<(string, string)>, x: string, y: string)
    requires Adjacent(links, x, y)
    ensures Connected(links, x, y)
  {
    assert Joins(links, [x, y], x, y);
  }

  function Reversed(s: seq<string>): (r: seq<string>)
    ensures |r| == |s| && forall i | 0 <= i < |s| :: r[i] == s[|s| - 1 - i]
  {
    if s == [] then [] else Reversed(s[1..]) + [s[0]]
  }

  lemma {:induction false} ConnectedSym(links: set<(string, string)>, x: string, y: string)
    requires Connected(links, x, y)
    ensures Connected(links, y, x)
  {
    var walk :| Joins(links, walk, x, y);
    var back := Reversed(walk);
    forall i | 0 <= i < |back| - 1 ensures Adjacent(links, back[i], back[i + 1]) {
      assert Adjacent(links, walk[|walk| - 2 - i], walk[|walk| - 2 - i + 1]);
    }
    assert Joins(links, back, y, x);
  }

  lemma {:induction false} ConnectedTrans(links: set<(string, string)>, x: string, y: string, z: string)
    requires Connected(links, x, y) && Connected(links, y, z)
    ensures Connected(links, x, z)
  {
    var v :| Joins(links, v, x, y);
    var w :| Joins(links, w, y, z);
    var walk := v + w[1..];
    forall i | 0 <= i < |walk| - 1 ensures Adjacent(links, walk[i], walk[i + 1]) {
      if i < |v| - 1 {
        assert Adjacent(links, v[i], v[i + 1]);
      } else {
        assert Adjacent(links, w[i - |v| + 1], w[i - |v| + 1 + 1]);
        assert walk[i] == w[i - |v| + 1] && walk[i + 1] == w[i - |v| + 2];
      }
    }
    assert Joins(links, walk, x, z);
  }

  lemma {:induction false} ConnectedMore(links: set<(string, string)>, more: set<(string, string)>, x: string,
                                         y: string)
    requires links <= more && Connected(links, x, y)
    ensures Connected(more, x, y)
  {
    var walk :| Joins(links, walk, x, y);
    forall i | 0 <= i < |walk| - 1 ensures Adjacent(more, walk[i], walk[i + 1]) {
      assert Adjacent(links, walk[i], walk[i + 1]);
    }
    assert Joins(more, walk, x, y);
  }
}

module UnionFind {
  import opened Orders
  import opened Connectivity

  type Forest = map<string, string>

  // Every parent is a node at or before its child in string order.
  predicate IsForest(f: Forest) {
    f.Values <= f.Keys && forall x | x in f :: StrAtMost(f[x], x)
  }

  lemma {:induction false} ParentIsNode(f: Forest, x: string)
    requires IsForest(f) && x in f
    ensures f[x] in f
  {
    assert f[x] in f.Values;
  }

  // How many nodes come before x: the measure by which climbing to a root ends.
  function Rank(nodes: set<string>, x: string): nat {
    |set y | y in nodes && StrLess(y, x)|
  }

  lemma {:induction false} RankDrops(nodes: set<string>, y: string, x: string)
    requires y in nodes && StrLess(y, x)
    ensures Rank(nodes, y) < Rank(nodes, x)
  {
    var below, above := set z | z in nodes && StrLess(z, y), set z | z in nodes && StrLess(z, x);
    forall z | z in below ensures z in above {
      StrTransitive(z, y, x);
    }
    StrIrreflexive(y);
    assert y in above && y !in below;
    SmallerSet(below, above);
  }

  lemma {:induction false} SmallerSet(a: set<string>, b: set<string>)
    requires a < b
    ensures |a| < |b|
  {
    assert b == a + (b - a) && a !! (b - a);
    assert |b| == |a| + |b - a|;
  }

  function Root(f: Forest, x: string): (r: string)
    requires IsForest(f) && x in f
    ensures r in f && f[r] == r && StrAtMost(r, x)
    decreases Rank(f.Keys, x)
  {
    if f[x] == x then x
    else
      ParentIsNode(f, x);
      RankDrops(f.Keys, f[x], x);
      var r := Root(f, f[x]);
      assert StrAtMost(r, x) by {
        if StrLess(r, f[x]) { StrTransitive(r, f[x], x); }
      }
      r
  }

  function Halved(f: Forest, x: string): Forest
    requires IsForest(f) && x in f
  {
    ParentIsNode(f, x);
    f[x := f[f[x]]]
  }

  lemma {:induction false} HalvedIsForest(f: Forest, x: string)
    requires IsForest(f) && x in f
    ensures IsForest(Halved(f, x)) && Halved(f, x).Keys == f.Keys
  {
    ParentIsNode(f, x);
    ParentIsNode(f, f[x]);
    if f[x] != x && f[f[x]] != f[x] {
      StrTransitive(f[f[x]], f[x], x);
    }
  }

  // Pointing a node at its grandparent changes no root.
  lemma {:induction false} HalvingKeepsRoots(f: Forest, x: string, y: string)
    requires IsForest(f) && x in f && y in f && IsForest(Halved(f, x))
    ensures Root(Halved(f, x), y) == Root(f, y)
    decreases Rank(f.Keys, y)
  {
    ParentIsNode(f, y);
    ParentIsNode(f, f[y]);
    if f[y] != y {
      var next := if y == x then f[f[x]] else f[y];
      RankDrops(f.Keys, f[y], y);
      assert Root(f, next) == Root(f, y);
      if next != f[y] {
        RankDrops(f.Keys, next, f[y]);
      }
      HalvingKeepsRoots(f, x, next);
      assert Halved(f, x)[y] == next;
      assert next != y by {
        if next != f[y] { StrTransitive(next, f[y], y); }
        StrIrreflexive(y);
      }
      assert Root(Halved(f, x), y) == Root(Halved(f, x), next);
    }
  }

  lemma {:induction false} NewNodeKeepsRoots(f: Forest, x: string, y: string)
    requires IsForest(f) && x !in f && y in f
    ensures IsForest(f[x := x]) && Root(f[x := x], y) == Root(f, y)
    decreases Rank(f.Keys, y)
  {
    if f[y] != y {
      ParentIsNode(f, y);
      RankDrops(f.Keys, f[y], y);
      NewNodeKeepsRoots(f, x, f[y]);
    }
  }

  lemma {:induction false} LinkingMergesRoots(f: Forest, lo: string, hi: string, y: string)
    requires IsForest(f) && lo in f && hi in f && y in f
    requires f[lo] == lo && f[hi] == hi && StrLess(lo, hi)
    ensures IsForest(f[hi := lo])
    ensures Root(f[hi := lo], y) == if Root(f, y) == hi then lo else Root(f, y)
    decreases Rank(f.Keys, y)
  {
    StrIrreflexive(lo);
    if f[y] != y {
      ParentIsNode(f, y);
      RankDrops(f.Keys, f[y], y);
      LinkingMergesRoots(f, lo, hi, f[y]);
    }
  }

  /******* The forest represents connectivity *******/

  ghost predicate Represents(f: Forest, links: set<(string, string)>) {
    && IsForest(f)
    && (forall e | e in links :: e.0 in f && e.1 in f && Root(f, e.0) == Root(f, e.1))
    && (forall x {:trigger ReachesRoot(f, links, x)} | x in f :: ReachesRoot(f, links, x))
  }

  ghost predicate ReachesRoot(f: Forest, links: set<(string, string)>, x: string)
    requires IsForest(f) && x in f
  {
    Connected(links, x, Root(f, x))
  }

  lemma {:induction false} WalkKeepsRoot(f: Forest, links: set<(string, string)>, walk: seq<string>)
    requires Represents(f, links) && IsWalk(links, walk) && walk[0] in f
    ensures walk[|walk| - 1] in f && Root(f, walk[|walk| - 1]) == Root(f, walk[0])
  {
    if |walk| > 1 {
      var rest := walk[..|walk| - 1];
      forall i | 0 <= i < |rest| - 1 ensures Adjacent(links, rest[i], rest[i + 1]) {
        assert Adjacent(links, walk[i], walk[i + 1]);
      }
      WalkKeepsRoot(f, links, rest);
      assert Adjacent(links, walk[|walk| - 2], walk[|walk| - 2 + 1]);
    }
  }

  // Two nodes have one root exactly when a chain of edges joins them.
  lemma {:induction false} RootIffConnected(f: Forest, links: set<(string, string)>, x: string, y: string)
    requires Represents(f, links) && x in f && y in f
    ensures Root(f, x) == Root(f, y) <==> Connected(links, x, y)
  {
    if Connected(links, x, y) {
      var walk :| Joins(links, walk, x, y);
      WalkKeepsRoot(f, links, walk);
    }
    if Root(f, x) == Root(f, y) {
      assert ReachesRoot(f, links, x) && ReachesRoot(f, links, y);
      ConnectedSym(links, y, Root(f, y));
      ConnectedTrans(links, x, Root(f, x), y);
    }
  }

  // r is the least node, in string order, of x's connected component.
  ghost predicate IsLeastConnected(nodes: set<string>, links: set<(string, string)>, x: string, r: string) {
    && r in nodes && Connected(links, x, r)
    && forall y {:trigger Connected(links, x, y)} | y in nodes && Connected(links, x, y) :: StrAtMost(r, y)
  }

  lemma {:induction false} RootIsLeast(f: Forest, links: set<(string, string)>, x: string)
    requires Represents(f, links) && x in f
    ensures IsLeastConnected(f.Keys, links, x, Root(f, x))
  {
    assert ReachesRoot(f, links, x);
    forall y | y in f && Connected(links, x, y) ensures StrAtMost(Root(f, x), y) {
      RootIffConnected(f, links, x, y);
    }
  }

  // The forests that different orders of the same unions lead to agree on every root.
  lemma {:induction false} RootsDependOnTheGraphOnly(f: Forest, g: Forest, links: set<(string, string)>, x: string)
    requires Represents(f, links) && Represents(g, links) && f.Keys == g.Keys && x in f
    ensures Root(f, x) == Root(g, x)
  {
    RootIsLeast(f, links, x);
    RootIsLeast(g, links, x);
    if Root(f, x) != Root(g, x) {
      StrTransitive(Root(f, x), Root(g, x), Root(f, x));
      StrIrreflexive(Root(f, x));
    }
  }

  lemma {:induction false} HalvingRepresents(f: Forest, links: set<(string, string)>, x: string)
    requires Represents(f, links) && x in f
    ensures Represents(Halved(f, x), links) && Halved(f, x).Keys == f.Keys
    ensures forall y {:trigger Root(Halved(f, x), y)} | y in f :: Root(Halved(f, x), y) == Root(f, y)
  {
    HalvedIsForest(f, x);
    forall y | y in f ensures Root(Halved(f, x), y) == Root(f, y) {
      HalvingKeepsRoots(f, x, y);
    }
    forall y | y in f ensures ReachesRoot(Halved(f, x), links, y) {
      assert ReachesRoot(f, links, y);
    }
  }

  lemma {:induction false} NewNodeRepresents(f: Forest, links: set<(string, string)>, x: string)
    requires Represents(f, links) && x !in f
    ensures Represents(f[x := x], links)
    ensures forall y {:trigger Root(f[x := x], y)} | y in f :: Root(f[x := x], y) == Root(f, y)
  {
    forall y | y in f ensures Root(f[x := x], y) == Root(f, y) {
      NewNodeKeepsRoots(f, x, y);
    }
    var g := f[x := x];
    forall y | y in g ensures ReachesRoot(g, links, y) {
      if y == x { ConnectedRefl(links, x); } else { assert ReachesRoot(f, links, y); }
    }
  }

  lemma {:induction false} LinkingKeepsOtherRoots(f: Forest, lo: string, hi: string)
    requires IsForest(f) && lo in f && hi in f && f[lo] == lo && f[hi] == hi && StrLess(lo, hi)
    ensures IsForest(f[hi := lo])
    ensures forall y {:trigger Root(f[hi := lo], y)} | y in f ::
        Root(f[hi := lo], y) == if Root(f, y) == hi then lo else Root(f, y)
  {
    LinkingMergesRoots(f, lo, hi, lo);
    forall y | y in f ensures Root(f[hi := lo], y) == if Root(f, y) == hi then lo else Root(f, y) {
      LinkingMergesRoots(f, lo, hi, y);
    }
  }

  // y reaches the root of the far end through the new edge.
  lemma {:induction false} ThroughTheEdge(f: Forest, links: set<(string, string)>, near: string, far: string, y: string)
    requires Represents(f, links) && near in f && far in f && y in f && Root(f, y) == Root(f, near)
    ensures Connected(links + {(near, far)}, y, Root(f, far))
    ensures Connected(links + {(far, near)}, y, Root(f, far))
  {
    RootIffConnected(f, links, y, near);
    forall more | more == links + {(near, far)} || more == links + {(far, near)}
      ensures Connected(more, y, Root(f, far))
    {
      ConnectedMore(links, more, y, near);
      ConnectedEdge(more, near, far);
      assert ReachesRoot(f, links, far);
      ConnectedMore(links, more, far, Root(f, far));
      ConnectedTrans(more, y, near, far);
      ConnectedTrans(more, y, far, Root(f, far));
    }
  }

  // a and b get the same root; nothing else is merged.
  lemma {:induction false} LinkingRepresents(f: Forest, links: set<(string, string)>, a: string, b: string,
                                             lo: string, hi: string)
    requires Represents(f, links) && a in f && b in f && StrLess(lo, hi)
    requires (lo == Root(f, a) && hi == Root(f, b)) || (lo == Root(f, b) && hi == Root(f, a))
    ensures Represents(f[hi := lo], links + {(a, b)})
  {
    var g, more := f[hi := lo], links + {(a, b)};
    LinkingKeepsOtherRoots(f, lo, hi);
    forall y | y in g ensures ReachesRoot(g, more, y) {
      if Root(f, y) == hi {
        if hi == Root(f, a) {
          ThroughTheEdge(f, links, a, b, y);
        } else {
          ThroughTheEdge(f, links, b, a, y);
        }
      } else {
        assert ReachesRoot(f, links, y);
        ConnectedMore(links, more, y, Root(f, y));
      }
    }
  }

  // Uniting two nodes of one component changes nothing.
  lemma {:induction false} SameRootRepresents(f: Forest, links: set<(string, string)>, a: string, b: string)
    requires Represents(f, links) && a in f && b in f && Root(f, a) == Root(f, b)
    ensures Represents(f, links + {(a, b)})
  {
    forall y | y in f ensures ReachesRoot(f, links + {(a, b)}, y) {
      assert ReachesRoot(f, links, y);
      ConnectedMore(links, links + {(a, b)}, y, Root(f, y));
    }
  }

  // One turn of the climb: the node moves up to what was its grandparent.
  lemma {:induction false} ClimbStep(f: Forest, links: set<(string, string)>, x: string)
    requires Represents(f, links) && x in f && f[x] != x
    ensures Halved(f, x).Keys == f.Keys && Represents(Halved(f, x), links)
    ensures forall y {:trigger Root(Halved(f, x), y)} | y in f :: Root(Halved(f, x), y) == Root(f, y)
    ensures Halved(f, x)[x] in f && Root(f, Halved(f, x)[x]) == Root(f, x)
    ensures Rank(f.Keys, Halved(f, x)[x]) < Rank(f.Keys, x)
  {
    HalvingRepresents(f, links, x);
    ParentIsNode(f, x);
    ParentIsNode(f, f[x]);
    RankDrops(f.Keys, f[x], x);
    if f[f[x]] != f[x] {
      RankDrops(f.Keys, f[f[x]], f[x]);
    }
  }

  class DisjointSets {
    var parent: Forest
    ghost var links: set<(string, string)>  // every pair that has been united

    ghost predicate Valid()
      reads this
    {
      Represents(parent, links)
    }

    constructor ()
      ensures Valid() && parent == map[] && links == {}
    {
      parent, links := map[], {};
    }

    // The least member of item's component; a new item is a component of its own.
    method Find(item: string) returns (root: string)
      requires Valid()
      modifies this`parent
      ensures Valid() && parent.Keys == old(parent.Keys) + {item}
      ensures IsLeastConnected(parent.Keys, links, item, root)
      ensures root == Root(parent, item)
      ensures forall y {:trigger Root(parent, y)} | y in old(parent) :: Root(parent, y) == Root(old(parent), y)
    {
      if item !in parent {
        NewNodeRepresents(parent, links, item);
        parent := parent[item := item];
      }
      ghost var nodes := parent.Keys;
      root := item;
      while parent[root] != root
        invariant Valid() && parent.Keys == nodes && root in nodes && item in nodes
        invariant Root(parent, root) == Root(parent, item)
        invariant forall y {:trigger Root(parent, y)} | y in old(parent) :: Root(parent, y) == Root(old(parent), y)
        decreases Rank(nodes, root)
      {
        ClimbStep(parent, links, root);
        parent := Halved(parent, root);
        root := parent[root];
      }
      RootIsLeast(parent, links, item);
    }

    method Union(left: string, right: string)
      requires Valid()
      modifies this
      ensures Valid() && parent.Keys == old(parent.Keys) + {left, right}
      ensures links == old(links) + {(left, right)}
    {
      var leftRoot := Find(left);
      var rightRoot := Find(right);
      if leftRoot == rightRoot {
        SameRootRepresents(parent, links, left, right);
        links := links + {(left, right)};
        return;
      }
      StrTotal(leftRoot, rightRoot);
      if StrLess(rightRoot, leftRoot) {
        leftRoot, rightRoot := rightRoot, leftRoot;
      }
      LinkingRepresents(parent, links, left, right, leftRoot, rightRoot);
      parent, links := parent[rightRoot := leftRoot], links + {(left, right)};
    }
  }
}

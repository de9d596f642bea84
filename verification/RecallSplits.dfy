/**
  The two generators that split rows: recall queries, linked through the gold claims they share,
  and claim pairs, linked through the claims they compare.
 */
module RecallSplits {
  import opened Sequences
  import opened Connectivity
  import opened UnionFind
  import opened SplitAllocation

  datatype Query = Query(id: string, goldGroups: seq<seq<string>>)

  function ClaimNode(claim: string): string { "claim:" + claim }

  // Each query is joined to each of its gold claims.
  function QueryLinks(queries: seq<Query>): Links {
    set q, g, c | q in queries && g in q.goldGroups && c in g :: (q.id, ClaimNode(c))
  }

  function Items(rows: seq<Row<Query>>): (queries: seq<Query>)
    ensures |queries| == |rows| && forall i | 0 <= i < |rows| :: queries[i] == rows[i].item
  {
    if rows == [] then [] else [rows[0].item] + Items(rows[1..])
  }

  function Ids(queries: seq<Query>): (ids: seq<string>)
    ensures |ids| == |queries| && forall i | 0 <= i < |queries| :: ids[i] == queries[i].id
  {
    if queries == [] then [] else [queries[0].id] + Ids(queries[1..])
  }

  function ClaimLinks(id: string, group: seq<string>): Links {
    set c | c in group :: (id, ClaimNode(c))
  }

  function GroupLinks(id: string, groups: seq<seq<string>>): Links {
    set g, c | g in groups && c in g :: (id, ClaimNode(c))
  }

  // A gold claim of a query with this id.
  ghost predicate HasGold(queries: seq<Query>, id: string, claim: string) {
    exists q :: q in queries && q.id == id && IsGold(q, claim)
  }

  ghost predicate IsGold(q: Query, claim: string) {
    exists g :: g in q.goldGroups && claim in g
  }

  // Each query of the chain shares a gold claim with the next one.
  ghost predicate IsChain(queries: seq<Query>, ids: seq<string>) {
    ids != [] && forall i | 0 <= i < |ids| - 1 :: ShareGold(queries, ids[i], ids[i + 1])
  }

  ghost predicate ShareGold(queries: seq<Query>, a: string, b: string) {
    exists claim :: HasGold(queries, a, claim) && HasGold(queries, b, claim)
  }

  ghost predicate AreChained(queries: seq<Query>, a: string, b: string) {
    exists ids :: IsChain(queries, ids) && ids[0] == a && ids[|ids| - 1] == b
  }

  // No query has an id that is the node of a claim.
  ghost predicate IdsAreNoClaims(queries: seq<Query>) {
    forall q, claim | q in queries :: q.id != ClaimNode(claim)
  }

  lemma {:induction false} LinkIsGold(queries: seq<Query>, id: string, node: string)
    ensures (id, node) in QueryLinks(queries)
            <==> exists claim :: HasGold(queries, id, claim) && node == ClaimNode(claim)
  {
    if (id, node) in QueryLinks(queries) {
      var q, g, c :| q in queries && g in q.goldGroups && c in g && (q.id, ClaimNode(c)) == (id, node);
      assert IsGold(q, c) && HasGold(queries, id, c);
    }
    if claim :| HasGold(queries, id, claim) && node == ClaimNode(claim) {
      var q :| q in queries && q.id == id && IsGold(q, claim);
      var g :| g in q.goldGroups && claim in g;
    }
  }

  lemma {:induction false} NodesTellClaims(a: string, b: string)
    requires ClaimNode(a) == ClaimNode(b)
    ensures a == b
  {
    assert a == ClaimNode(a)[6..] && b == ClaimNode(b)[6..];
  }

  lemma {:induction false} ChainConnects(queries: seq<Query>, ids: seq<string>)
    requires IsChain(queries, ids)
    ensures Connected(QueryLinks(queries), ids[0], ids[|ids| - 1])
  {
    var links, last := QueryLinks(queries), |ids| - 1;
    if last == 0 {
      ConnectedRefl(links, ids[0]);
    } else {
      ChainConnects(queries, ids[..last]);
      assert ShareGold(queries, ids[last - 1], ids[last - 1 + 1]);
      var claim :| HasGold(queries, ids[last - 1], claim) && HasGold(queries, ids[last], claim);
      LinkIsGold(queries, ids[last - 1], ClaimNode(claim));
      LinkIsGold(queries, ids[last], ClaimNode(claim));
      ConnectedEdge(links, ids[last - 1], ClaimNode(claim));
      ConnectedEdge(links, ClaimNode(claim), ids[last]);
      ConnectedTrans(links, ids[last - 1], ClaimNode(claim), ids[last]);
      ConnectedTrans(links, ids[0], ids[last - 1], ids[last]);
    }
  }

  // Where a walk from query a can be: at a query chained to it, or at a claim of such a query.
  ghost predicate IsReached(queries: seq<Query>, a: string, node: string) {
    || AreChained(queries, a, node)
    || exists id, claim :: AreChained(queries, a, id) && HasGold(queries, id, claim) && node == ClaimNode(claim)
  }

  lemma {:induction false} OneLinkMore(queries: seq<Query>, a: string, x: string, y: string)
    requires IdsAreNoClaims(queries) && IsReached(queries, a, x) && Adjacent(QueryLinks(queries), x, y)
    requires forall claim :: a != ClaimNode(claim)
    ensures IsReached(queries, a, y)
  {
    if (x, y) in QueryLinks(queries) {
      LinkIsGold(queries, x, y);
      var claim :| HasGold(queries, x, claim) && y == ClaimNode(claim);
      HasNoClaimId(queries, x, claim);
      assert AreChained(queries, a, x);
    } else {
      LinkIsGold(queries, y, x);
      var claim :| HasGold(queries, y, claim) && x == ClaimNode(claim);
      var id := BeforeClaim(queries, a, claim);
      assert ShareGold(queries, id, y);
      ChainGrows(queries, a, id, y);
    }
  }

  lemma {:induction false} HasNoClaimId(queries: seq<Query>, id: string, claim: string)
    requires IdsAreNoClaims(queries) && HasGold(queries, id, claim)
    ensures forall c :: id != ClaimNode(c)
  {
  }

  lemma {:induction false} ChainGrows(queries: seq<Query>, a: string, id: string, y: string)
    requires AreChained(queries, a, id) && ShareGold(queries, id, y)
    ensures AreChained(queries, a, y)
  {
    var ids :| IsChain(queries, ids) && ids[0] == a && ids[|ids| - 1] == id;
    assert IsChain(queries, ids + [y]);
  }

  // A reached claim was reached from a query that has it.
  lemma {:induction false} BeforeClaim(queries: seq<Query>, a: string, claim: string) returns (id: string)
    requires IdsAreNoClaims(queries) && IsReached(queries, a, ClaimNode(claim))
    requires forall c :: a != ClaimNode(c)
    ensures AreChained(queries, a, id) && HasGold(queries, id, claim)
  {
    ChainsAvoidClaims(queries, a, claim);
    var i, c :| AreChained(queries, a, i) && HasGold(queries, i, c) && ClaimNode(claim) == ClaimNode(c);
    NodesTellClaims(claim, c);
    id := i;
  }

  lemma {:induction false} ChainsAvoidClaims(queries: seq<Query>, a: string, claim: string)
    requires IdsAreNoClaims(queries) && forall c :: a != ClaimNode(c)
    ensures !AreChained(queries, a, ClaimNode(claim))
  {
    forall ids | IsChain(queries, ids) && ids[0] == a ensures ids[|ids| - 1] != ClaimNode(claim) {
      var last := |ids| - 1;
      if last > 0 {
        assert ShareGold(queries, ids[last - 1], ids[last - 1 + 1]);
        var c :| HasGold(queries, ids[last - 1], c) && HasGold(queries, ids[last], c);
        HasNoClaimId(queries, ids[last], c);
      }
    }
  }

  lemma {:induction false} WalkReaches(queries: seq<Query>, walk: seq<string>)
    requires IdsAreNoClaims(queries) && IsWalk(QueryLinks(queries), walk)
    requires forall claim :: walk[0] != ClaimNode(claim)
    ensures IsReached(queries, walk[0], walk[|walk| - 1])
  {
    var last := |walk| - 1;
    if last == 0 {
      assert IsChain(queries, [walk[0]]);
    } else {
      WalkReaches(queries, walk[..last]);
      assert Adjacent(QueryLinks(queries), walk[last - 1], walk[last - 1 + 1]);
      OneLinkMore(queries, walk[0], walk[last - 1], walk[last]);
    }
  }

  // Queries are connected exactly if a chain of queries that share gold claims leads from one to
  // the other, as long as no query has the id of a claim's node.
  lemma {:induction false} ConnectedIffChained(queries: seq<Query>, i: nat, j: nat)
    requires i < |queries| && j < |queries| && IdsAreNoClaims(queries)
    ensures Connected(QueryLinks(queries), queries[i].id, queries[j].id)
            <==> AreChained(queries, queries[i].id, queries[j].id)
  {
    var a, b := queries[i].id, queries[j].id;
    assert queries[i] in queries && queries[j] in queries;
    if AreChained(queries, a, b) {
      var ids :| IsChain(queries, ids) && ids[0] == a && ids[|ids| - 1] == b;
      ChainConnects(queries, ids);
    }
    if Connected(QueryLinks(queries), a, b) {
      var walk :| Joins(QueryLinks(queries), walk, a, b);
      WalkReaches(queries, walk);
    }
  }

  lemma {:induction false} ClaimLinksGrow(id: string, group: seq<string>, c: nat)
    requires c < |group|
    ensures ClaimLinks(id, group[..c + 1]) == ClaimLinks(id, group[..c]) + {(id, ClaimNode(group[c]))}
  {
    assert group[..c + 1] == group[..c] + [group[c]];
  }

  lemma {:induction false} GroupLinksGrow(id: string, groups: seq<seq<string>>, g: nat)
    requires g < |groups|
    ensures GroupLinks(id, groups[..g + 1]) == GroupLinks(id, groups[..g]) + ClaimLinks(id, groups[g])
  {
    assert groups[..g + 1] == groups[..g] + [groups[g]];
  }

  lemma {:induction false} QueryLinksGrow(queries: seq<Query>, r: nat)
    requires r < |queries|
    ensures QueryLinks(queries[..r + 1]) == QueryLinks(queries[..r]) + GroupLinks(queries[r].id, queries[r].goldGroups)
  {
    assert queries[..r + 1] == queries[..r] + [queries[r]];
  }

  method UniteGroup(sets: DisjointSets, id: string, group: seq<string>)
    requires sets.Valid()
    modifies sets
    ensures sets.Valid() && old(sets.parent.Keys) <= sets.parent.Keys
    ensures sets.links == old(sets.links) + ClaimLinks(id, group)
  {
    for c := 0 to |group|
      invariant sets.Valid() && old(sets.parent.Keys) <= sets.parent.Keys
      invariant sets.links == old(sets.links) + ClaimLinks(id, group[..c])
    {
      sets.Union(id, ClaimNode(group[c]));
      ClaimLinksGrow(id, group, c);
    }
    assert group[..|group|] == group;
  }

  method UniteQuery(sets: DisjointSets, query: Query)
    requires sets.Valid()
    modifies sets
    ensures sets.Valid() && old(sets.parent.Keys) + {query.id} <= sets.parent.Keys
    ensures sets.links == old(sets.links) + GroupLinks(query.id, query.goldGroups)
  {
    var _ := sets.Find(query.id);
    for g := 0 to |query.goldGroups|
      invariant sets.Valid() && old(sets.parent.Keys) + {query.id} <= sets.parent.Keys
      invariant sets.links == old(sets.links) + GroupLinks(query.id, query.goldGroups[..g])
    {
      UniteGroup(sets, query.id, query.goldGroups[g]);
      GroupLinksGrow(query.id, query.goldGroups, g);
    }
    assert query.goldGroups[..|query.goldGroups|] == query.goldGroups;
  }

  method UniteQueries(queries: seq<Query>) returns (sets: DisjointSets)
    ensures fresh(sets) && sets.Valid()
    ensures Elements(Ids(queries)) <= sets.parent.Keys && sets.links == QueryLinks(queries)
  {
    sets := new DisjointSets();
    for r := 0 to |queries|
      invariant sets.Valid() && fresh(sets)
      invariant Elements(Ids(queries)[..r]) <= sets.parent.Keys
      invariant sets.links == QueryLinks(queries[..r])
    {
      UniteQuery(sets, queries[r]);
      QueryLinksGrow(queries, r);
      ElementsUpTo(Ids(queries), r);
    }
    assert queries[..|queries|] == queries && Ids(queries)[..|queries|] == Ids(queries);
  }

  // Raises exactly when no split of that size keeps every chain of shared gold claims on one
  // side; otherwise writes such a split, with exactly testSize test rows, into the rows.
  method AssignSplits(rows: array<Row<Query>>, testSize: int, digest: seq<nat> -> string) returns (ok: bool)
    modifies rows
    ensures var queries := Items(old(rows[..]));
            && (ok <==> HasExactSplit(QueryLinks(queries), Ids(queries), testSize))
            && (ok ==> IsSplitOf(QueryLinks(queries), Ids(queries), testSize, old(rows[..]), rows[..]))
    ensures !ok ==> rows[..] == old(rows[..])
  {
    var queries := Items(rows[..]);
    var sets := UniteQueries(queries);
    ok := SplitByComponent(rows, sets, Ids(queries), testSize, digest);
  }
}

module PairSplits {
  import opened Sequences
  import opened Connectivity
  import opened UnionFind
  import opened SplitAllocation

  datatype ClaimPair = ClaimPair(left: string, right: string)

  function PairLinks(pairs: seq<ClaimPair>): Links {
    set p | p in pairs :: (p.left, p.right)
  }

  function Items(rows: seq<Row<ClaimPair>>): (pairs: seq<ClaimPair>)
    ensures |pairs| == |rows| && forall i | 0 <= i < |rows| :: pairs[i] == rows[i].item
  {
    if rows == [] then [] else [rows[0].item] + Items(rows[1..])
  }

  function Lefts(pairs: seq<ClaimPair>): (nodes: seq<string>)
    ensures |nodes| == |pairs| && forall i | 0 <= i < |pairs| :: nodes[i] == pairs[i].left
  {
    if pairs == [] then [] else [pairs[0].left] + Lefts(pairs[1..])
  }

  lemma {:induction false} PairLinksGrow(pairs: seq<ClaimPair>, r: nat)
    requires r < |pairs|
    ensures PairLinks(pairs[..r + 1]) == PairLinks(pairs[..r]) + {(pairs[r].left, pairs[r].right)}
  {
    assert pairs[..r + 1] == pairs[..r] + [pairs[r]];
  }

  method UnitePairs(pairs: seq<ClaimPair>) returns (sets: DisjointSets)
    ensures fresh(sets) && sets.Valid()
    ensures Elements(Lefts(pairs)) <= sets.parent.Keys && sets.links == PairLinks(pairs)
  {
    sets := new DisjointSets();
    for r := 0 to |pairs|
      invariant sets.Valid() && fresh(sets)
      invariant Elements(Lefts(pairs)[..r]) <= sets.parent.Keys
      invariant sets.links == PairLinks(pairs[..r])
    {
      sets.Union(pairs[r].left, pairs[r].right);
      PairLinksGrow(pairs, r);
      ElementsUpTo(Lefts(pairs), r);
    }
    assert pairs[..|pairs|] == pairs && Lefts(pairs)[..|pairs|] == Lefts(pairs);
  }

  // As for queries; a pair stands at its left claim, which its own edge joins to the right one.
  method AssignSplits(rows: array<Row<ClaimPair>>, testSize: int, digest: seq<nat> -> string) returns (ok: bool)
    modifies rows
    ensures var pairs := Items(old(rows[..]));
            && (ok <==> HasExactSplit(PairLinks(pairs), Lefts(pairs), testSize))
            && (ok ==> IsSplitOf(PairLinks(pairs), Lefts(pairs), testSize, old(rows[..]), rows[..]))
    ensures !ok ==> rows[..] == old(rows[..])
  {
    var pairs := Items(rows[..]);
    var sets := UnitePairs(pairs);
    ok := SplitByComponent(rows, sets, Lefts(pairs), testSize, digest);
  }

  lemma {:induction false} SidesAreConnected(pairs: seq<ClaimPair>, i: nat, side: string)
    requires i < |pairs| && (side == pairs[i].left || side == pairs[i].right)
    ensures Connected(PairLinks(pairs), pairs[i].left, side)
  {
    ConnectedRefl(PairLinks(pairs), side);
    assert (pairs[i].left, pairs[i].right) in PairLinks(pairs);
    ConnectedEdge(PairLinks(pairs), pairs[i].left, pairs[i].right);
  }

  // Two pairs that mention one claim, on whichever side, are connected, so no split parts them.
  lemma {:induction false} ClaimConnectsPairs(pairs: seq<ClaimPair>, i: nat, j: nat, claim: string)
    requires i < |pairs| && j < |pairs|
    requires claim == pairs[i].left || claim == pairs[i].right
    requires claim == pairs[j].left || claim == pairs[j].right
    ensures Connected(PairLinks(pairs), Lefts(pairs)[i], Lefts(pairs)[j])
  {
    var links := PairLinks(pairs);
    SidesAreConnected(pairs, i, claim);
    SidesAreConnected(pairs, j, claim);
    ConnectedSym(links, pairs[j].left, claim);
    ConnectedTrans(links, pairs[i].left, claim, pairs[j].left);
  }
}

/**
  The category-stratified split of the entailment evaluation set: every category puts a fixed
  number of its events into the test split, and a dynamic program over attainable pair counts
  finds the choice whose pair count is nearest to two fifths of all pairs.
 */
module Combinations {
  import opened Orders
  import opened Sequences

  // itertools.combinations(pool, n), in its order.
  function Combos(pool: seq<string>, n: nat): seq<seq<string>> {
    if n == 0 then [[]]
    else if pool == [] then []
    else Prefixed(pool[0], Combos(pool[1..], n - 1)) + Combos(pool[1..], n)
  }

  function Prefixed(x: string, lists: seq<seq<string>>): (r: seq<seq<string>>)
    ensures |r| == |lists| && forall i | 0 <= i < |lists| :: r[i] == [x] + lists[i]
  {
    if lists == [] then [] else [[x] + lists[0]] + Prefixed(x, lists[1..])
  }

  function Filter(pool: seq<string>, chosen: set<string>): seq<string> {
    if pool == [] then []
    else (if pool[0] in chosen then [pool[0]] else []) + Filter(pool[1..], chosen)
  }

  lemma {:induction false} FilterMember(pool: seq<string>, chosen: set<string>, x: string)
    ensures x in Filter(pool, chosen) <==> x in pool && x in chosen
  {
    if pool != [] { FilterMember(pool[1..], chosen, x); }
  }

  // The events of a pool that lie in a set form one of its combinations.
  lemma {:induction false} FilterIsCombo(pool: seq<string>, chosen: set<string>)
    ensures Filter(pool, chosen) in Combos(pool, |Filter(pool, chosen)|)
  {
    if pool != [] {
      var rest := Filter(pool[1..], chosen);
      FilterIsCombo(pool[1..], chosen);
      if pool[0] in chosen {
        var lists := Combos(pool[1..], |rest|);
        var i :| 0 <= i < |lists| && lists[i] == rest;
        assert Prefixed(pool[0], lists)[i] == [pool[0]] + rest;
        assert Filter(pool, chosen) == [pool[0]] + rest;
      } else {
        assert Filter(pool, chosen) == rest;
      }
    }
  }

  // A combination of a nonempty pool leaves its first event out or starts with it.
  lemma {:induction false} ComboCases(pool: seq<string>, n: nat, combo: seq<string>)
    requires n > 0 && pool != [] && combo in Combos(pool, n)
    ensures combo in Combos(pool[1..], n)
            || (combo != [] && combo[0] == pool[0] && combo[1..] in Combos(pool[1..], n - 1))
  {
    var lists := Combos(pool[1..], n - 1);
    if combo !in Combos(pool[1..], n) {
      assert combo in Prefixed(pool[0], lists);
      var i :| 0 <= i < |lists| && combo == [pool[0]] + lists[i];
      assert combo[1..] == lists[i];
    }
  }

  // The only combination of nothing, or of an empty pool, is the empty one.
  lemma {:induction false} ComboBase(pool: seq<string>, n: nat, combo: seq<string>)
    requires (n == 0 || pool == []) && combo in Combos(pool, n)
    ensures n == 0 && combo == []
  {
    if n == 0 { assert Combos(pool, n) == [[]]; }
  }

  lemma {:induction false} ComboSize(pool: seq<string>, n: nat, combo: seq<string>)
    requires combo in Combos(pool, n)
    ensures |combo| == n
  {
    hide Combos;
    if n == 0 || pool == [] {
      ComboBase(pool, n, combo);
    } else {
      ComboCases(pool, n, combo);
      if combo in Combos(pool[1..], n) {
        ComboSize(pool[1..], n, combo);
      } else {
        ComboSize(pool[1..], n - 1, combo[1..]);
      }
    }
  }

  lemma {:induction false} ComboMember(pool: seq<string>, n: nat, combo: seq<string>, x: string)
    requires combo in Combos(pool, n) && x in combo
    ensures x in pool
  {
    hide Combos;
    if n == 0 || pool == [] {
      ComboBase(pool, n, combo);
    } else {
      ComboCases(pool, n, combo);
      if combo in Combos(pool[1..], n) {
        ComboMember(pool[1..], n, combo, x);
      } else if x != combo[0] {
        assert combo == [combo[0]] + combo[1..];
        ComboMember(pool[1..], n - 1, combo[1..], x);
      }
    }
  }

  lemma {:induction false} ComboMembers(pool: seq<string>, n: nat, combo: seq<string>)
    requires combo in Combos(pool, n)
    ensures |combo| == n && forall x | x in combo :: x in pool
  {
    hide Combos;
    ComboSize(pool, n, combo);
    forall x | x in combo ensures x in pool {
      ComboMember(pool, n, combo, x);
    }
  }

  ghost predicate Agrees(pool: seq<string>, combo: seq<string>, chosen: set<string>) {
    forall x | x in pool :: x in chosen <==> x in combo
  }

  lemma {:induction false} AgreesOnRest(pool: seq<string>, combo: seq<string>, chosen: set<string>, rest: seq<string>)
    requires AllDistinct(pool) && pool != [] && Agrees(pool, combo, chosen)
    requires rest == combo || (combo != [] && combo[0] == pool[0] && rest == combo[1..])
    ensures AllDistinct(pool[1..]) && pool[0] !in pool[1..] && Agrees(pool[1..], rest, chosen)
    ensures pool[0] in chosen <==> pool[0] in combo
  {
    assert pool[0] in pool;
    forall x | x in pool[1..] ensures x in chosen <==> x in rest {
      assert x in pool && x != pool[0];
      if rest != combo { assert combo == [combo[0]] + rest; }
    }
  }

  // A combination of distinct events is what its own set of events selects from the pool.
  lemma {:induction false} ComboIsFilter(pool: seq<string>, n: nat, combo: seq<string>, chosen: set<string>)
    requires AllDistinct(pool) && combo in Combos(pool, n) && Agrees(pool, combo, chosen)
    ensures Filter(pool, chosen) == combo
  {
    hide Combos, Agrees, AllDistinct;
    if n == 0 || pool == [] {
      ComboBase(pool, n, combo);
      NothingChosen(pool, chosen);
    } else {
      ComboCases(pool, n, combo);
      if combo in Combos(pool[1..], n) {
        AgreesOnRest(pool, combo, chosen, combo);
        if pool[0] in combo { ComboMember(pool[1..], n, combo, pool[0]); }
        ComboIsFilter(pool[1..], n, combo, chosen);
      } else {
        AgreesOnRest(pool, combo, chosen, combo[1..]);
        ComboIsFilter(pool[1..], n - 1, combo[1..], chosen);
        assert combo == [combo[0]] + combo[1..];
      }
    }
  }

  lemma {:induction false} NothingChosen(pool: seq<string>, chosen: set<string>)
    requires Agrees(pool, [], chosen)
    ensures Filter(pool, chosen) == []
  {
    if pool != [] {
      assert pool[0] in pool && Agrees(pool[1..], [], chosen);
      NothingChosen(pool[1..], chosen);
    }
  }

  // There is no combination exactly when the pool is too small.
  lemma {:induction false} NoCombos(pool: seq<string>, n: nat)
    ensures Combos(pool, n) == [] <==> |pool| < n
  {
    if n > 0 && pool != [] {
      NoCombos(pool[1..], n - 1);
      NoCombos(pool[1..], n);
    }
  }
}

module EntailmentSplits {
  import opened Common
  import opened Orders
  import opened Sequences
  import opened Combinations

  // The events of one category, in the order given, and how many of them are test events.
  datatype Pool = Pool(events: seq<string>, quota: nat)

  // A list of event ids and its pair count.
  datatype Choice = Choice(weight: int, ids: seq<string>)

  function Weight(ids: seq<string>, weight: string -> int): int {
    if ids == [] then 0 else weight(ids[0]) + Weight(ids[1..], weight)
  }

  // A combination as the program keeps it: its pair count, and its events in rank order.
  function Ranked(combo: seq<string>, weight: string -> int, rank: string -> string): Choice {
    Choice(Weight(combo, weight), SortByKey(combo, rank))
  }

  function Joined(a: Choice, b: Choice): Choice { Choice(a.weight + b.weight, a.ids + b.ids) }

  /******* The choices that respect every quota *******/

  // One combination of quota events from each of the first k pools.
  ghost predicate IsPick(pools: seq<Pool>, k: nat, combos: seq<seq<string>>) {
    && |combos| == k <= |pools|
    && forall i | 0 <= i < k :: combos[i] in Combos(pools[i].events, pools[i].quota)
  }

  function Total(combos: seq<seq<string>>, weight: string -> int, rank: string -> string): Choice {
    if combos == [] then Choice(0, [])
    else
      var last := |combos| - 1;
      Joined(Total(combos[..last], weight, rank), Ranked(combos[last], weight, rank))
  }

  function QuotaSum(pools: seq<Pool>, k: nat): nat
    requires k <= |pools|
  {
    if k == 0 then 0 else QuotaSum(pools, k - 1) + pools[k - 1].quota
  }

  lemma {:induction false} RankedLength(pool: Pool, weight: string -> int, rank: string -> string, combo: seq<string>)
    requires combo in Combos(pool.events, pool.quota)
    ensures |Ranked(combo, weight, rank).ids| == pool.quota
  {
    ComboMembers(pool.events, pool.quota, combo);
    SortPermutes(combo, rank);
  }

  // All quota-respecting choices have one length, which makes the tuple order compatible with
  // appending further events.
  lemma {:induction false} PickLength(pools: seq<Pool>, weight: string -> int, rank: string -> string, k: nat,
                                      combos: seq<seq<string>>)
    requires IsPick(pools, k, combos)
    ensures |Total(combos, weight, rank).ids| == QuotaSum(pools, k)
  {
    if k > 0 {
      PickLength(pools, weight, rank, k - 1, combos[..k - 1]);
      RankedLength(pools[k - 1], weight, rank, combos[k - 1]);
    }
  }

  /******* The table of the dynamic program *******/

  ghost predicate IsTotal(pools: seq<Pool>, weight: string -> int, rank: string -> string, k: nat, c: Choice) {
    exists combos :: IsPick(pools, k, combos) && Total(combos, weight, rank) == c
  }

  // Every attainable pair count has its least choice in tuple order, and nothing else is kept.
  ghost predicate IsLeastTable(pools: seq<Pool>, weight: string -> int, rank: string -> string, k: nat,
                               table: map<int, seq<string>>)
  {
    && (forall w {:trigger table[w]} | w in table :: IsTotal(pools, weight, rank, k, Choice(w, table[w])))
    && (forall c {:trigger IsTotal(pools, weight, rank, k, c)} | IsTotal(pools, weight, rank, k, c) ::
          KeepsAtMost(table, c))
  }

  ghost predicate KeepsAtMost(table: map<int, seq<string>>, c: Choice) {
    c.weight in table && TupleAtMost(table[c.weight], c.ids)
  }

  // table keeps, for each weight offered so far, the least list offered for it.
  ghost predicate LeastOver(offers: seq<Choice>, table: map<int, seq<string>>) {
    && (forall c | c in offers :: KeepsAtMost(table, c))
    && (forall w {:trigger table[w]} | w in table :: Choice(w, table[w]) in offers)
  }

  function Better(table: map<int, seq<string>>, c: Choice): map<int, seq<string>> {
    if c.weight !in table || TupleLess(c.ids, table[c.weight]) then table[c.weight := c.ids] else table
  }

  lemma {:induction false} AtMostTransitive(a: seq<string>, b: seq<string>, c: seq<string>)
    requires TupleAtMost(a, b) && TupleAtMost(b, c)
    ensures TupleAtMost(a, c)
  {
    if a != b && b != c { TupleTransitive(a, b, c); }
  }

  lemma {:induction false} OfferKeepsLeast(offers: seq<Choice>, table: map<int, seq<string>>, c: Choice)
    requires LeastOver(offers, table)
    ensures LeastOver(offers + [c], Better(table, c))
  {
    var next := Better(table, c);
    if c.weight in table { TupleTotal(c.ids, table[c.weight]); }
    forall d | d in offers + [c] ensures KeepsAtMost(next, d) {
      if d != c {
        assert KeepsAtMost(table, d);
        if d.weight == c.weight { AtMostTransitive(next[d.weight], table[d.weight], d.ids); }
      }
    }
    forall w | w in next ensures Choice(w, next[w]) in offers + [c] {
      if w != c.weight || next == table { assert Choice(w, table[w]) in offers; }
    }
  }

  // Every entry of the table joined with every option has been offered, and nothing else.
  ghost predicate IsOffer(table: map<int, seq<string>>, options: seq<Choice>, w: int, o: nat, c: Choice) {
    w in table && o < |options| && c == Joined(Choice(w, table[w]), options[o])
  }

  ghost predicate OffersFor(table: map<int, seq<string>>, options: seq<Choice>, w: int, n: nat, offers: seq<Choice>) {
    w in table && n <= |options| && forall o: nat | o < n :: Joined(Choice(w, table[w]), options[o]) in offers
  }

  ghost predicate AreOffers(table: map<int, seq<string>>, options: seq<Choice>, offers: seq<Choice>) {
    forall c | c in offers :: exists w, o: nat :: IsOffer(table, options, w, o, c)
  }

  lemma {:induction false} OfferExtends(table: map<int, seq<string>>, options: seq<Choice>, w: int, o: nat,
                                        offers: seq<Choice>)
    requires AreOffers(table, options, offers) && OffersFor(table, options, w, o, offers) && o < |options|
    ensures var more := offers + [Joined(Choice(w, table[w]), options[o])];
            AreOffers(table, options, more) && OffersFor(table, options, w, o + 1, more)
  {
    var candidate := Joined(Choice(w, table[w]), options[o]);
    assert IsOffer(table, options, w, o, candidate);
  }

  method OfferAll(table: map<int, seq<string>>, options: seq<Choice>, w: int, next: map<int, seq<string>>,
                  ghost offers: seq<Choice>)
    returns (next': map<int, seq<string>>, ghost offers': seq<Choice>)
    requires w in table && LeastOver(offers, next) && AreOffers(table, options, offers)
    ensures LeastOver(offers', next') && AreOffers(table, options, offers')
    ensures offers <= offers' && OffersFor(table, options, w, |options|, offers')
  {
    hide LeastOver, AreOffers;
    next', offers' := next, offers;
    for o := 0 to |options|
      invariant LeastOver(offers', next') && AreOffers(table, options, offers')
      invariant offers <= offers' && OffersFor(table, options, w, o, offers')
    {
      var candidate := Joined(Choice(w, table[w]), options[o]);
      OfferKeepsLeast(offers', next', candidate);
      OfferExtends(table, options, w, o, offers');
      if candidate.weight !in next' || TupleLess(candidate.ids, next'[candidate.weight]) {
        next' := next'[candidate.weight := candidate.ids];
      }
      offers' := offers' + [candidate];
    }
  }

  ghost predicate AllOffered(table: map<int, seq<string>>, options: seq<Choice>, visited: set<int>,
                             offers: seq<Choice>)
  {
    forall w | w in visited :: OffersFor(table, options, w, |options|, offers)
  }

  lemma {:induction false} OfferedStays(table: map<int, seq<string>>, options: seq<Choice>, visited: set<int>, w: int,
                     offers: seq<Choice>, more: seq<Choice>)
    requires AllOffered(table, options, visited, offers) && offers <= more
    requires OffersFor(table, options, w, |options|, more)
    ensures AllOffered(table, options, visited + {w}, more)
  {
    forall v | v in visited ensures OffersFor(table, options, v, |options|, more) {
      assert OffersFor(table, options, v, |options|, offers);
    }
  }

  method NextTable(table: map<int, seq<string>>, options: seq<Choice>)
    returns (next: map<int, seq<string>>, ghost offers: seq<Choice>)
    ensures LeastOver(offers, next) && AreOffers(table, options, offers)
    ensures AllOffered(table, options, table.Keys, offers)
  {
    next, offers := map[], [];
    var pending := table.Keys;
    ghost var visited: set<int> := {};
    while pending != {}
      invariant pending + visited == table.Keys
      invariant LeastOver(offers, next) && AreOffers(table, options, offers)
      invariant AllOffered(table, options, visited, offers)
    {
      ghost var some := Pick(pending);
      assert some in pending;
      var w: int :| w in pending;
      ghost var before := offers;
      next, offers := OfferAll(table, options, w, next, offers);
      OfferedStays(table, options, visited, w, before, offers);
      pending, visited := pending - {w}, visited + {w};
    }
  }

  // Joining least choices with every option of the next pool gives the least choices again.
  lemma {:induction false} OffersAreNextTable(pools: seq<Pool>, weight: string -> int, rank: string -> string, k: nat,
                           table: map<int, seq<string>>, options: seq<Choice>, offers: seq<Choice>,
                           next: map<int, seq<string>>)
    requires k < |pools| && IsLeastTable(pools, weight, rank, k, table)
    requires AreOptions(pools[k], weight, rank, options)
    requires LeastOver(offers, next) && AreOffers(table, options, offers)
    requires AllOffered(table, options, table.Keys, offers)
    ensures IsLeastTable(pools, weight, rank, k + 1, next)
  {
    NextEntriesAreTotals(pools, weight, rank, k, table, options, offers, next);
    NextEntriesAreLeast(pools, weight, rank, k, table, options, offers, next);
  }

  lemma {:induction false} NextEntriesAreTotals(pools: seq<Pool>, weight: string -> int, rank: string -> string, k: nat,
                             table: map<int, seq<string>>, options: seq<Choice>, offers: seq<Choice>,
                             next: map<int, seq<string>>)
    requires k < |pools| && IsLeastTable(pools, weight, rank, k, table)
    requires AreOptions(pools[k], weight, rank, options)
    requires LeastOver(offers, next) && AreOffers(table, options, offers)
    ensures forall w {:trigger next[w]} | w in next :: IsTotal(pools, weight, rank, k + 1, Choice(w, next[w]))
  {
    forall w | w in next ensures IsTotal(pools, weight, rank, k + 1, Choice(w, next[w])) {
      assert Choice(w, next[w]) in offers;
      var v, o: nat :| IsOffer(table, options, v, o, Choice(w, next[w]));
      OfferIsTotal(pools, weight, rank, k, table, options, v, o);
    }
  }

  lemma {:induction false} NextEntriesAreLeast(pools: seq<Pool>, weight: string -> int, rank: string -> string, k: nat,
                            table: map<int, seq<string>>, options: seq<Choice>, offers: seq<Choice>,
                            next: map<int, seq<string>>)
    requires k < |pools| && IsLeastTable(pools, weight, rank, k, table)
    requires AreOptions(pools[k], weight, rank, options)
    requires LeastOver(offers, next) && AllOffered(table, options, table.Keys, offers)
    ensures forall c {:trigger IsTotal(pools, weight, rank, k + 1, c)} | IsTotal(pools, weight, rank, k + 1, c) ::
              KeepsAtMost(next, c)
  {
    forall c | IsTotal(pools, weight, rank, k + 1, c) ensures KeepsAtMost(next, c) {
      var d := TotalIsBeaten(pools, weight, rank, k, table, options, offers, c);
      LeastBeats(offers, next, d, c);
    }
  }

  lemma {:induction false} LeastBeats(offers: seq<Choice>, table: map<int, seq<string>>, d: Choice, c: Choice)
    requires LeastOver(offers, table) && d in offers && d.weight == c.weight && TupleAtMost(d.ids, c.ids)
    ensures KeepsAtMost(table, c)
  {
    AtMostTransitive(table[c.weight], d.ids, c.ids);
  }

  // The ranked combinations of a pool, in the order of the combinations.
  ghost predicate AreOptions(pool: Pool, weight: string -> int, rank: string -> string, options: seq<Choice>) {
    var combos := Combos(pool.events, pool.quota);
    |options| == |combos| && forall o | 0 <= o < |combos| :: options[o] == Ranked(combos[o], weight, rank)
  }

  lemma {:induction false} PickGrows(pools: seq<Pool>, weight: string -> int, rank: string -> string, k: nat,
                  combos: seq<seq<string>>, combo: seq<string>)
    requires k < |pools| && IsPick(pools, k, combos) && combo in Combos(pools[k].events, pools[k].quota)
    ensures IsPick(pools, k + 1, combos + [combo])
    ensures Total(combos + [combo], weight, rank) == Joined(Total(combos, weight, rank), Ranked(combo, weight, rank))
  {
    assert (combos + [combo])[..k] == combos;
  }

  lemma {:induction false} OfferIsTotal(pools: seq<Pool>, weight: string -> int, rank: string -> string, k: nat,
                     table: map<int, seq<string>>, options: seq<Choice>, w: int, o: nat)
    requires k < |pools| && IsLeastTable(pools, weight, rank, k, table)
    requires AreOptions(pools[k], weight, rank, options) && w in table && o < |options|
    ensures IsTotal(pools, weight, rank, k + 1, Joined(Choice(w, table[w]), options[o]))
  {
    assert IsTotal(pools, weight, rank, k, Choice(w, table[w]));
    var combos :| IsPick(pools, k, combos) && Total(combos, weight, rank) == Choice(w, table[w]);
    PickGrows(pools, weight, rank, k, combos, Combos(pools[k].events, pools[k].quota)[o]);
  }

  // For every choice over k + 1 pools, something offered has its weight and is no greater.
  lemma {:induction false} TotalIsBeaten(pools: seq<Pool>, weight: string -> int, rank: string -> string, k: nat,
                      table: map<int, seq<string>>, options: seq<Choice>, offers: seq<Choice>, c: Choice)
    returns (d: Choice)
    requires k < |pools| && IsLeastTable(pools, weight, rank, k, table)
    requires AreOptions(pools[k], weight, rank, options)
    requires AllOffered(table, options, table.Keys, offers)
    requires IsTotal(pools, weight, rank, k + 1, c)
    ensures d in offers && d.weight == c.weight && TupleAtMost(d.ids, c.ids)
  {
    hide Combos, Total, KeepsAtMost, TupleLess, Ranked;
    var combos :| IsPick(pools, k + 1, combos) && Total(combos, weight, rank) == c;
    var prev, combo := Total(combos[..k], weight, rank), combos[k];
    LastOfTotal(combos, weight, rank);
    assert IsPick(pools, k, combos[..k]);
    assert IsTotal(pools, weight, rank, k, prev);
    var o :| 0 <= o < |options| && Combos(pools[k].events, pools[k].quota)[o] == combo;
    assert options[o] == Ranked(combo, weight, rank);
    assert OffersFor(table, options, prev.weight, |options|, offers) by { KeptIsIn(table, prev); }
    KeptIsIn(table, prev);
    d := Joined(Choice(prev.weight, table[prev.weight]), options[o]);
    SameLength(pools, weight, rank, k, prev, Choice(prev.weight, table[prev.weight]));
    if table[prev.weight] != prev.ids {
      TupleLessAppend(table[prev.weight], prev.ids, options[o].ids, options[o].ids);
    }
  }

  lemma {:induction false} KeptIsIn(table: map<int, seq<string>>, c: Choice)
    requires KeepsAtMost(table, c)
    ensures c.weight in table && TupleAtMost(table[c.weight], c.ids)
  {
  }

  lemma {:induction false} LastOfTotal(combos: seq<seq<string>>, weight: string -> int, rank: string -> string)
    requires combos != []
    ensures Total(combos, weight, rank)
            == Joined(Total(combos[..|combos| - 1], weight, rank), Ranked(combos[|combos| - 1], weight, rank))
  {
  }

  lemma {:induction false} SameLength(pools: seq<Pool>, weight: string -> int, rank: string -> string, k: nat,
                                      c: Choice, d: Choice)
    requires IsTotal(pools, weight, rank, k, c) && IsTotal(pools, weight, rank, k, d)
    ensures |c.ids| == |d.ids|
  {
    var a :| IsPick(pools, k, a) && Total(a, weight, rank) == c;
    var b :| IsPick(pools, k, b) && Total(b, weight, rank) == d;
    PickLength(pools, weight, rank, k, a);
    PickLength(pools, weight, rank, k, b);
  }

  method Options(pool: Pool, weight: string -> int, rank: string -> string) returns (options: seq<Choice>)
    ensures AreOptions(pool, weight, rank, options)
  {
    var combos := Combos(pool.events, pool.quota);
    options := [];
    for o := 0 to |combos|
      invariant |options| == o && forall j | 0 <= j < o :: options[j] == Ranked(combos[j], weight, rank)
    {
      options := options + [Ranked(combos[o], weight, rank)];
    }
  }

  method LeastTable(pools: seq<Pool>, weight: string -> int, rank: string -> string)
    returns (table: map<int, seq<string>>)
    ensures IsLeastTable(pools, weight, rank, |pools|, table)
  {
    table := map[0 := []];
    assert IsPick(pools, 0, []) && Total([], weight, rank) == Choice(0, []);
    for k := 0 to |pools|
      invariant IsLeastTable(pools, weight, rank, k, table)
    {
      var options := Options(pools[k], weight, rank);
      ghost var offers;
      ghost var before := table;
      table, offers := NextTable(table, options);
      OffersAreNextTable(pools, weight, rank, k, before, options, offers, table);
    }
  }

  /******* Choosing the nearest pair count *******/

  // round(total * 0.40): two fifths of an integer are never halfway between two integers.
  function TwoFifths(total: int): (r: int)
    ensures -2 <= 5 * r - 2 * total <= 2
  {
    (4 * total + 5) / 10
  }

  function Distance(a: int, b: int): nat { if a < b then b - a else a - b }

  // The key by which the final choice is made: distance to the target, pair count, event list.
  predicate KeyAtMost(target: int, a: Choice, b: Choice) {
    || Distance(a.weight, target) < Distance(b.weight, target)
    || (Distance(a.weight, target) == Distance(b.weight, target)
        && (a.weight < b.weight || (a.weight == b.weight && TupleAtMost(a.ids, b.ids))))
  }

  // c is the best of all quota-respecting choices, not only of those the table keeps.
  ghost predicate IsBest(pools: seq<Pool>, weight: string -> int, rank: string -> string, target: int, c: Choice) {
    && IsTotal(pools, weight, rank, |pools|, c)
    && forall d {:trigger IsTotal(pools, weight, rank, |pools|, d)} | IsTotal(pools, weight, rank, |pools|, d) ::
         KeyAtMost(target, c, d)
  }

  predicate Nearest(table: map<int, seq<string>>, among: set<int>, target: int, best: int) {
    && best in among && best in table
    && forall w | w in among && w in table :: KeyAtMost(target, Choice(best, table[best]), Choice(w, table[w]))
  }

  lemma {:induction false} KeyTransitive(target: int, a: Choice, b: Choice, c: Choice)
    requires KeyAtMost(target, a, b) && KeyAtMost(target, b, c)
    ensures KeyAtMost(target, a, c)
  {
    if a.weight == b.weight == c.weight { AtMostTransitive(a.ids, b.ids, c.ids); }
  }

  method NearestWeight(table: map<int, seq<string>>, target: int) returns (best: int)
    requires table != map[]
    ensures Nearest(table, table.Keys, target, best)
  {
    ghost var some := Pick(table.Keys);
    assert some in table.Keys;
    best :| best in table.Keys;
    var pending := table.Keys - {best};
    ghost var visited := {best};
    while pending != {}
      invariant pending + visited == table.Keys && Nearest(table, visited, target, best)
    {
      some := Pick(pending);
      assert some in pending;
      var w: int :| w in pending;
      NearestGrows(table, visited, target, best, w);
      if Distance(w, target) < Distance(best, target)
         || (Distance(w, target) == Distance(best, target) && w < best) {
        best := w;
      }
      pending, visited := pending - {w}, visited + {w};
    }
  }

  lemma {:induction false} NearestGrows(table: map<int, seq<string>>, visited: set<int>, target: int, best: int, w: int)
    requires Nearest(table, visited, target, best) && w in table
    ensures var closer := Distance(w, target) < Distance(best, target)
                          || (Distance(w, target) == Distance(best, target) && w < best);
            Nearest(table, visited + {w}, target, if closer then w else best)
  {
    var b, c := Choice(best, table[best]), Choice(w, table[w]);
    forall v | v in visited && v in table
      ensures KeyAtMost(target, c, b) ==> KeyAtMost(target, c, Choice(v, table[v]))
    {
      if KeyAtMost(target, c, b) { KeyTransitive(target, c, b, Choice(v, table[v])); }
    }
  }

  lemma {:induction false} NearestIsBest(pools: seq<Pool>, weight: string -> int, rank: string -> string,
                      table: map<int, seq<string>>, target: int, best: int)
    requires IsLeastTable(pools, weight, rank, |pools|, table) && Nearest(table, table.Keys, target, best)
    ensures IsBest(pools, weight, rank, target, Choice(best, table[best]))
  {
    forall d | IsTotal(pools, weight, rank, |pools|, d) ensures KeyAtMost(target, Choice(best, table[best]), d) {
      assert KeepsAtMost(table, d);
      KeyTransitive(target, Choice(best, table[best]), Choice(d.weight, table[d.weight]), d);
    }
  }

  /******* The best choice in terms of test sets *******/

  // No event is listed twice, within a pool or across pools.
  ghost predicate ArePools(pools: seq<Pool>) {
    && (forall i | 0 <= i < |pools| :: AllDistinct(pools[i].events))
    && (forall i, j, x | 0 <= i < |pools| && 0 <= j < |pools| && x in pools[i].events && x in pools[j].events :: i == j)
  }

  // test puts exactly the quota of every pool into the test split.
  ghost predicate Respects(pools: seq<Pool>, test: set<string>) {
    forall i | 0 <= i < |pools| :: |Filter(pools[i].events, test)| == pools[i].quota
  }

  // The pairs of the test events of the first k pools.
  function PairCount(pools: seq<Pool>, weight: string -> int, k: nat, test: set<string>): int
    requires k <= |pools|
  {
    if k == 0 then 0 else PairCount(pools, weight, k - 1, test) + Weight(Filter(pools[k - 1].events, test), weight)
  }

  // The test events, pool by pool, each pool's in rank order.
  function RankedList(pools: seq<Pool>, rank: string -> string, k: nat, test: set<string>): seq<string>
    requires k <= |pools|
  {
    if k == 0 then []
    else RankedList(pools, rank, k - 1, test) + SortByKey(Filter(pools[k - 1].events, test), rank)
  }

  lemma {:induction false} TotalStep(combos: seq<seq<string>>, weight: string -> int, rank: string -> string,
                                     x: string)
    requires combos != []
    ensures var last := |combos| - 1;
            x in Total(combos, weight, rank).ids
            <==> x in Total(combos[..last], weight, rank).ids || x in combos[last]
  {
    var last := |combos| - 1;
    SortPermutes(combos[last], rank);
    assert x in SortByKey(combos[last], rank) <==> x in multiset(combos[last]);
  }

  lemma {:induction false} TotalMember(combos: seq<seq<string>>, weight: string -> int, rank: string -> string,
                                       x: string)
    ensures x in Total(combos, weight, rank).ids <==> exists i :: 0 <= i < |combos| && x in combos[i]
  {
    if combos != [] {
      var last := |combos| - 1;
      TotalMember(combos[..last], weight, rank, x);
      TotalStep(combos, weight, rank, x);
      hide Total;
      assert forall i | 0 <= i < last :: combos[..last][i] == combos[i];
    }
  }

  lemma {:induction false} PicksCountPairs(pools: seq<Pool>, weight: string -> int, rank: string -> string, k: nat,
                                           combos: seq<seq<string>>, test: set<string>)
    requires k == |combos| <= |pools|
    requires forall i | 0 <= i < k :: combos[i] == Filter(pools[i].events, test)
    ensures Total(combos, weight, rank).weight == PairCount(pools, weight, k, test)
    ensures Total(combos, weight, rank).ids == RankedList(pools, rank, k, test)
  {
    if k > 0 { PicksCountPairs(pools, weight, rank, k - 1, combos[..k - 1], test); }
  }

  // A pick's own events select each of its combinations from its pool.
  lemma {:induction false} PickSelectsItself(pools: seq<Pool>, weight: string -> int, rank: string -> string,
                          combos: seq<seq<string>>, i: nat)
    requires ArePools(pools) && IsPick(pools, |pools|, combos) && i < |pools|
    ensures Filter(pools[i].events, Elements(Total(combos, weight, rank).ids)) == combos[i]
  {
    var test := Elements(Total(combos, weight, rank).ids);
    forall x | x in pools[i].events ensures x in test <==> x in combos[i] {
      TotalMember(combos, weight, rank, x);
      if x in test {
        var j :| 0 <= j < |combos| && x in combos[j];
        ComboMembers(pools[j].events, pools[j].quota, combos[j]);
      }
    }
    ComboIsFilter(pools[i].events, pools[i].quota, combos[i], test);
  }

  function Filters(pools: seq<Pool>, test: set<string>): (r: seq<seq<string>>)
    ensures |r| == |pools| && forall i | 0 <= i < |pools| :: r[i] == Filter(pools[i].events, test)
  {
    if pools == [] then [] else [Filter(pools[0].events, test)] + Filters(pools[1..], test)
  }

  lemma {:induction false} RespectingSetIsTotal(pools: seq<Pool>, weight: string -> int, rank: string -> string,
                                                test: set<string>)
    returns (c: Choice)
    requires Respects(pools, test)
    ensures IsTotal(pools, weight, rank, |pools|, c) && c.weight == PairCount(pools, weight, |pools|, test)
    ensures c.ids == RankedList(pools, rank, |pools|, test)
  {
    var combos := Filters(pools, test);
    forall i | 0 <= i < |pools| ensures combos[i] in Combos(pools[i].events, pools[i].quota) {
      FilterIsCombo(pools[i].events, test);
    }
    PicksCountPairs(pools, weight, rank, |pools|, combos, test);
    c := Total(combos, weight, rank);
    assert IsPick(pools, |pools|, combos);
  }

  // other's pair count is farther from the target; or as far and larger; or it is the same and
  // its list comes no earlier.
  ghost predicate IsNoBetter(pools: seq<Pool>, weight: string -> int, rank: string -> string, target: int,
                             test: set<string>, other: set<string>) {
    var a, b := PairCount(pools, weight, |pools|, test), PairCount(pools, weight, |pools|, other);
    || Distance(a, target) < Distance(b, target)
    || (Distance(a, target) == Distance(b, target) && a < b)
    || (a == b && TupleAtMost(RankedList(pools, rank, |pools|, test), RankedList(pools, rank, |pools|, other)))
  }

  // Among all sets of events that meet every quota, the chosen test set has the pair count
  // nearest to the target, and the smaller one of two equally near.
  lemma {:induction false} BestIsOptimal(pools: seq<Pool>, weight: string -> int, rank: string -> string, target: int,
                                         c: Choice)
    requires ArePools(pools) && IsBest(pools, weight, rank, target, c)
    ensures Respects(pools, Elements(c.ids)) && PairCount(pools, weight, |pools|, Elements(c.ids)) == c.weight
    ensures c.ids == RankedList(pools, rank, |pools|, Elements(c.ids))
    ensures forall other | Respects(pools, other) :: IsNoBetter(pools, weight, rank, target, Elements(c.ids), other)
  {
    var combos :| IsPick(pools, |pools|, combos) && Total(combos, weight, rank) == c;
    forall i | 0 <= i < |pools| ensures combos[i] == Filter(pools[i].events, Elements(c.ids))
        && |combos[i]| == pools[i].quota {
      PickSelectsItself(pools, weight, rank, combos, i);
      ComboMembers(pools[i].events, pools[i].quota, combos[i]);
    }
    PicksCountPairs(pools, weight, rank, |pools|, combos, Elements(c.ids));
    forall other | Respects(pools, other) ensures IsNoBetter(pools, weight, rank, target, Elements(c.ids), other) {
      var d := RespectingSetIsTotal(pools, weight, rank, other);
    }
  }

  /******* From events to pools and back *******/

  datatype Event = Event(id: string, category: string)

  datatype Failure = MissingQuota | NoSelection

  const TEST_COUNTS: map<string, nat> :=
    map["user_pref" := 4, "project_config" := 4, "tool_workflow" := 4,
        "status_report" := 2, "chat_confirm" := 2, "long_content" := 4]

  function Ids(events: seq<Event>): (ids: seq<string>)
    ensures |ids| == |events| && forall i | 0 <= i < |events| :: ids[i] == events[i].id
  {
    if events == [] then [] else [events[0].id] + Ids(events[1..])
  }

  // The events of a category, in order.
  function InCategory(events: seq<Event>, category: string): seq<string> {
    if events == [] then []
    else
      var last := |events| - 1;
      InCategory(events[..last], category) + if events[last].category == category then [events[last].id] else []
  }

  // The categories, as first seen.
  function FirstSeen(events: seq<Event>): seq<string> {
    if events == [] then []
    else
      var earlier := FirstSeen(events[..|events| - 1]);
      var category := events[|events| - 1].category;
      if category in earlier then earlier else earlier + [category]
  }

  function Categories(events: seq<Event>): seq<string> { SortByKey(FirstSeen(events), c => c) }

  function PoolsOf(events: seq<Event>, categories: seq<string>, quotas: map<string, nat>): (pools: seq<Pool>)
    requires forall c | c in categories :: c in quotas
    ensures |pools| == |categories|
    ensures forall i | 0 <= i < |categories| ::
              categories[i] in quotas && pools[i] == Pool(InCategory(events, categories[i]), quotas[categories[i]])
  {
    if categories == [] then []
    else [Pool(InCategory(events, categories[0]), quotas[categories[0]])] + PoolsOf(events, categories[1..], quotas)
  }

  lemma {:induction false} FirstSeenDistinct(events: seq<Event>)
    ensures AllDistinct(FirstSeen(events))
  {
    if events != [] { FirstSeenDistinct(events[..|events| - 1]); }
  }

  lemma {:induction false} DistinctCounts(s: seq<string>, x: string)
    requires AllDistinct(s)
    ensures multiset(s)[x] <= 1
  {
    if s != [] {
      var last := |s| - 1;
      DistinctCounts(s[..last], x);
      assert s == s[..last] + [s[last]];
      assert s[last] !in s[..last];
    }
  }

  lemma {:induction false} SortedStaysDistinct(s: seq<string>, key: string -> string)
    requires AllDistinct(s)
    ensures AllDistinct(SortByKey(s, key))
  {
    var t := SortByKey(s, key);
    SortPermutes(s, key);
    hide SortByKey;
    forall j, k | 0 <= j < k < |t| ensures t[j] != t[k] {
      DistinctCounts(s, t[k]);
      if t[j] == t[k] { TwiceCounts(t, j, k); }
    }
  }

  lemma {:induction false} TwiceCounts(t: seq<string>, j: nat, k: nat)
    requires j < k < |t| && t[j] == t[k]
    ensures multiset(t)[t[k]] >= 2
  {
    assert t == t[..k] + [t[k]] + t[k + 1..];
    assert multiset(t)[t[k]] == multiset(t[..k])[t[k]] + 1 + multiset(t[k + 1..])[t[k]];
    assert t[..k][j] in t[..k];
  }

  lemma {:induction false} InCategoryMember(events: seq<Event>, category: string, id: string)
    ensures id in InCategory(events, category) ==> exists i :: 0 <= i < |events| && events[i] == Event(id, category)
  {
    if events != [] {
      var last := |events| - 1;
      InCategoryMember(events[..last], category, id);
      if id in InCategory(events[..last], category) {
        var i :| 0 <= i < last && events[..last][i] == Event(id, category);
        assert events[i] == Event(id, category);
      } else if id in InCategory(events, category) {
        assert events[last] == Event(id, category);
      }
    }
  }

  // The positions of the events of a category.
  function At(events: seq<Event>, category: string): set<nat> {
    set i: nat | i < |events| && events[i].category == category
  }

  // Those of its test events.
  function TestAt(events: seq<Event>, category: string, test: set<string>): set<nat> {
    set i: nat | i < |events| && events[i].category == category && events[i].id in test
  }

  // What a category holds: exactly its events, each as often as it is listed.
  lemma {:induction false} InCategoryHolds(events: seq<Event>, category: string)
    ensures forall id :: id in InCategory(events, category)
                         <==> exists i :: 0 <= i < |events| && events[i] == Event(id, category)
    ensures |InCategory(events, category)| == |At(events, category)|
  {
    forall id ensures id in InCategory(events, category)
                      <==> exists i :: 0 <= i < |events| && events[i] == Event(id, category)
    {
      InCategoryMember(events, category, id);
      if i :| 0 <= i < |events| && events[i] == Event(id, category) { InCategoryListed(events, i); }
    }
    TestEventsOfCategory(events, category, set e | e in events :: e.id);
    AllChosen(InCategory(events, category), set e | e in events :: e.id);
    assert TestAt(events, category, set e | e in events :: e.id) == At(events, category);
  }

  lemma {:induction false} InCategoryListed(events: seq<Event>, i: nat)
    requires i < |events|
    ensures events[i].id in InCategory(events, events[i].category)
  {
    if i < |events| - 1 { InCategoryListed(events[..|events| - 1], i); }
  }

  lemma {:induction false} FilterAppend(a: seq<string>, b: seq<string>, chosen: set<string>)
    ensures Filter(a + b, chosen) == Filter(a, chosen) + Filter(b, chosen)
  {
    if a == [] {
      assert a + b == b;
    } else {
      FilterAppend(a[1..], b, chosen);
      FirstOfConcat(a, b);
      Associative(if a[0] in chosen then [a[0]] else [], Filter(a[1..], chosen), Filter(b, chosen));
    }
  }

  lemma {:induction false} AllChosen(pool: seq<string>, chosen: set<string>)
    requires forall x | x in pool :: x in chosen
    ensures Filter(pool, chosen) == pool
  {
    if pool != [] { AllChosen(pool[1..], chosen); }
  }

  lemma {:induction false} WeightAppend(a: seq<string>, b: seq<string>, weight: string -> int)
    ensures Weight(a + b, weight) == Weight(a, weight) + Weight(b, weight)
  {
    if a == [] {
      assert a + b == b;
    } else {
      WeightAppend(a[1..], b, weight);
      assert (a + b)[1..] == a[1..] + b;
    }
  }

  // The test events of a category's pool, as positions.
  lemma {:induction false} TestEventsOfCategory(events: seq<Event>, category: string, test: set<string>)
    ensures |Filter(InCategory(events, category), test)| == |TestAt(events, category, test)|
  {
    if events != [] {
      var last := |events| - 1;
      var earlier, e := events[..last], events[last];
      TestEventsOfCategory(earlier, category, test);
      var more := if e.category == category then [e.id] else [];
      assert InCategory(events, category) == InCategory(earlier, category) + more;
      assert |Filter(more, test)| == if e.category == category && e.id in test then 1 else 0;
      FilterAppend(InCategory(earlier, category), more, test);
      hide InCategory, Filter, TestAt;
      LastTestEvent(events, category, test);
    }
  }

  lemma {:induction false} LastTestEvent(events: seq<Event>, category: string, test: set<string>)
    requires events != []
    ensures var last := |events| - 1;
            |TestAt(events, category, test)| == |TestAt(events[..last], category, test)|
            + if events[last].category == category && events[last].id in test then 1 else 0
  {
    var last := |events| - 1;
    var earlier := TestAt(events[..last], category, test);
    assert last !in earlier;
    assert TestAt(events, category, test)
        == earlier + if events[last].category == category && events[last].id in test then {last} else {};
  }

  lemma {:induction false} InCategoryDistinct(events: seq<Event>, category: string)
    requires AllDistinct(Ids(events))
    ensures AllDistinct(InCategory(events, category))
  {
    if events != [] {
      var last := |events| - 1;
      assert Ids(events[..last]) == Ids(events)[..last];
      InCategoryDistinct(events[..last], category);
      InCategoryMember(events[..last], category, events[last].id);
      assert forall i | 0 <= i < last :: Ids(events)[i] != Ids(events)[last];
    }
  }

  // Distinct event ids make distinct, disjoint pools.
  lemma {:induction false} EventsMakePools(events: seq<Event>, quotas: map<string, nat>)
    requires AllDistinct(Ids(events)) && forall c | c in Categories(events) :: c in quotas
    ensures ArePools(PoolsOf(events, Categories(events), quotas))
  {
    var categories := Categories(events);
    var pools := PoolsOf(events, categories, quotas);
    FirstSeenDistinct(events);
    SortedStaysDistinct(FirstSeen(events), c => c);
    forall i | 0 <= i < |pools| ensures AllDistinct(pools[i].events) {
      InCategoryDistinct(events, categories[i]);
    }
    forall i, j, x | 0 <= i < |pools| && 0 <= j < |pools| && x in pools[i].events && x in pools[j].events
      ensures i == j
    {
      OneCategory(events, categories[i], categories[j], x);
    }
  }

  lemma {:induction false} OneCategory(events: seq<Event>, a: string, b: string, id: string)
    requires AllDistinct(Ids(events)) && id in InCategory(events, a) && id in InCategory(events, b)
    ensures a == b
  {
    InCategoryMember(events, a, id);
    InCategoryMember(events, b, id);
    var i :| 0 <= i < |events| && events[i] == Event(id, a);
    var j :| 0 <= j < |events| && events[j] == Event(id, b);
    assert Ids(events)[i] == Ids(events)[j];
  }

  // Some choice meets every quota exactly when every category has enough events.
  lemma {:induction false} SelectionExists(pools: seq<Pool>, weight: string -> int, rank: string -> string, k: nat)
    requires k <= |pools|
    ensures (exists c :: IsTotal(pools, weight, rank, k, c))
            <==> forall i | 0 <= i < k :: |pools[i].events| >= pools[i].quota
  {
    forall c | IsTotal(pools, weight, rank, k, c) ensures forall i | 0 <= i < k :: |pools[i].events| >= pools[i].quota {
      var combos :| IsPick(pools, k, combos) && Total(combos, weight, rank) == c;
      forall i | 0 <= i < k ensures |pools[i].events| >= pools[i].quota {
        NoCombos(pools[i].events, pools[i].quota);
      }
    }
    if forall i | 0 <= i < k :: |pools[i].events| >= pools[i].quota {
      var combos := FirstCombos(pools, k);
      assert IsTotal(pools, weight, rank, k, Total(combos, weight, rank));
    }
  }

  lemma {:induction false} FirstCombos(pools: seq<Pool>, k: nat) returns (combos: seq<seq<string>>)
    requires k <= |pools| && forall i | 0 <= i < k :: |pools[i].events| >= pools[i].quota
    ensures IsPick(pools, k, combos)
  {
    combos := [];
    if k > 0 {
      combos := FirstCombos(pools, k - 1);
      NoCombos(pools[k - 1].events, pools[k - 1].quota);
      combos := combos + [Combos(pools[k - 1].events, pools[k - 1].quota)[0]];
    }
  }

  method GroupByCategory(events: seq<Event>) returns (byCategory: map<string, seq<string>>, order: seq<string>)
    ensures order == FirstSeen(events)
    ensures forall c | c in order :: c in byCategory && byCategory[c] == InCategory(events, c)
  {
    byCategory, order := map[], [];
    for n := 0 to |events|
      invariant order == FirstSeen(events[..n])
      invariant forall c :: c in order <==> c in byCategory
      invariant forall c | c in byCategory :: byCategory[c] == InCategory(events[..n], c)
    {
      assert events[..n + 1][..n] == events[..n];
      var category := events[n].category;
      if category !in byCategory {
        NotYetSeen(events[..n], category);
        byCategory, order := byCategory[category := []], order + [category];
      }
      byCategory := byCategory[category := byCategory[category] + [events[n].id]];
    }
    assert events[..|events|] == events;
  }

  lemma {:induction false} NotYetSeen(events: seq<Event>, category: string)
    requires category !in FirstSeen(events)
    ensures InCategory(events, category) == []
  {
    if events != [] { NotYetSeen(events[..|events| - 1], category); }
  }

  // true stands for test.
  function Labels(events: seq<Event>, test: set<string>): map<string, bool> {
    map e | e in events :: e.id := e.id in test
  }

  ghost predicate IsBestSplit(events: seq<Event>, weight: string -> int, rank: string -> string,
                              pools: seq<Pool>, labels: map<string, bool>)
  {
    exists c :: IsBest(pools, weight, rank, TwoFifths(Weight(Ids(events), weight)), c)
                && labels == Labels(events, Elements(c.ids))
  }

  lemma {:induction false} CategoriesAreSeen(events: seq<Event>)
    ensures forall c :: c in Categories(events) <==> c in FirstSeen(events)
  {
    SortPermutes(FirstSeen(events), c => c);
    forall c ensures c in Categories(events) <==> c in FirstSeen(events) {
      assert c in multiset(Categories(events)) <==> c in multiset(FirstSeen(events));
    }
  }

  // The categories of the events, each once and in string order.
  lemma {:induction false} CategoriesAreThoseOfEvents(events: seq<Event>)
    ensures forall c :: c in Categories(events) <==> exists i :: 0 <= i < |events| && events[i].category == c
    ensures forall j, k | 0 <= j < k < |Categories(events)| :: StrLess(Categories(events)[j], Categories(events)[k])
  {
    forall c ensures c in Categories(events) <==> exists i :: 0 <= i < |events| && events[i].category == c {
      CategoriesAreSeen(events);
      SeenIsListed(events, c);
    }
    var categories := Categories(events);
    FirstSeenDistinct(events);
    SortedStaysDistinct(FirstSeen(events), c => c);
    SortSorts(FirstSeen(events), c => c);
    assert IsSortedBy(categories, c => c);
    forall j, k | 0 <= j < k < |categories| ensures StrLess(categories[j], categories[k]) {
      StrTotal(categories[j], categories[k]);
    }
  }

  lemma {:induction false} CategoryOfEvent(events: seq<Event>, i: nat) returns (k: nat)
    requires i < |events|
    ensures k < |Categories(events)| && Categories(events)[k] == events[i].category
  {
    CategoriesAreThoseOfEvents(events);
    assert events[i].category in Categories(events);
    k :| k < |Categories(events)| && Categories(events)[k] == events[i].category;
  }

  lemma {:induction false} EventOfCategory(events: seq<Event>, k: nat) returns (i: nat)
    requires k < |Categories(events)|
    ensures i < |events| && events[i].category == Categories(events)[k]
  {
    CategoriesAreThoseOfEvents(events);
    assert Categories(events)[k] in Categories(events);
    i :| i < |events| && events[i].category == Categories(events)[k];
  }

  lemma {:induction false} SeenIsListed(events: seq<Event>, category: string)
    ensures category in FirstSeen(events) <==> exists i :: 0 <= i < |events| && events[i].category == category
  {
    if events != [] {
      var last := |events| - 1;
      SeenIsListed(events[..last], category);
      if i :| 0 <= i < last && events[..last][i].category == category { assert events[i].category == category; }
      if i :| 0 <= i < |events| && events[i].category == category {
        if i < last { assert events[..last][i].category == category; }
      }
    }
  }

  method MakePools(events: seq<Event>, quotas: map<string, nat>) returns (r: Result<seq<Pool>, Failure>)
    ensures r.Ok? <==> forall c | c in Categories(events) :: c in quotas
    ensures r.Ok? ==> r.value == PoolsOf(events, Categories(events), quotas)
    ensures r.Err? ==> r.error == MissingQuota
  {
    var byCategory, order := GroupByCategory(events);
    var categories := SortByKey(order, c => c);
    CategoriesAreSeen(events);
    r := TakePools(events, categories, byCategory, quotas);
  }

  method TakePools(events: seq<Event>, categories: seq<string>, byCategory: map<string, seq<string>>,
                   quotas: map<string, nat>)
    returns (r: Result<seq<Pool>, Failure>)
    requires forall c | c in categories :: c in byCategory && byCategory[c] == InCategory(events, c)
    ensures r.Ok? <==> forall c | c in categories :: c in quotas
    ensures r.Ok? ==> r.value == PoolsOf(events, categories, quotas)
    ensures r.Err? ==> r.error == MissingQuota
  {
    var pools: seq<Pool> := [];
    for k := 0 to |categories|
      invariant |pools| == k && forall i | 0 <= i < k :: categories[i] in quotas
      invariant forall i | 0 <= i < k :: pools[i] == Pool(InCategory(events, categories[i]), quotas[categories[i]])
    {
      if categories[k] !in quotas { return Err(MissingQuota); }
      pools := pools + [Pool(byCategory[categories[k]], quotas[categories[k]])];
    }
    return Ok(pools);
  }

  /******* The split in terms of the events *******/

  function TestIds(labels: map<string, bool>): set<string> {
    set id | id in labels && labels[id]
  }

  // Each category puts its quota of events into the test split.
  ghost predicate MeetsQuotas(events: seq<Event>, quotas: map<string, nat>, test: set<string>) {
    forall i | 0 <= i < |events| ::
      && events[i].category in quotas
      && |TestAt(events, events[i].category, test)| == quotas[events[i].category]
  }

  // The pairs of the events in a set.
  function PairsOf(events: seq<Event>, weight: string -> int, test: set<string>): int {
    if events == [] then 0
    else
      var last := events[|events| - 1];
      PairsOf(events[..|events| - 1], weight, test) + if last.id in test then weight(last.id) else 0
  }

  function AllIds(events: seq<Event>): set<string> { set e | e in events :: e.id }

  // The test events, category by category, each category's in rank order.
  function TestList(events: seq<Event>, categories: seq<string>, rank: string -> string, test: set<string>)
    : seq<string>
  {
    if categories == [] then []
    else
      var last := |categories| - 1;
      TestList(events, categories[..last], rank, test)
      + SortByKey(Filter(InCategory(events, categories[last]), test), rank)
  }

  // test's pair count is nearer to two fifths of all pairs than that of other; or as near and
  // smaller; or it is the same and its list comes no later.
  ghost predicate IsAsGood(events: seq<Event>, weight: string -> int, rank: string -> string, test: set<string>,
                           other: set<string>) {
    var a, b := PairsOf(events, weight, test), PairsOf(events, weight, other);
    var target := TwoFifths(PairsOf(events, weight, AllIds(events)));
    || Distance(a, target) < Distance(b, target)
    || (Distance(a, target) == Distance(b, target) && a < b)
    || (a == b && TupleAtMost(TestList(events, Categories(events), rank, test),
                              TestList(events, Categories(events), rank, other)))
  }

  // Every event gets one label, the quotas are met, and no other choice that meets them has a
  // pair count nearer to two fifths, or is preferred among those as near.
  ghost predicate IsOptimalSplit(events: seq<Event>, weight: string -> int, rank: string -> string,
                                 quotas: map<string, nat>, labels: map<string, bool>)
  {
    && labels.Keys == AllIds(events) && MeetsQuotas(events, quotas, TestIds(labels))
    && forall other | MeetsQuotas(events, quotas, other) :: IsAsGood(events, weight, rank, TestIds(labels), other)
  }

  // Listed pool by pool or category by category, the events are the same.
  lemma {:induction false} ListByPool(events: seq<Event>, categories: seq<string>, quotas: map<string, nat>,
                                      rank: string -> string, k: nat, test: set<string>)
    requires k <= |categories| && forall c | c in categories :: c in quotas
    ensures RankedList(PoolsOf(events, categories, quotas), rank, k, test)
            == TestList(events, categories[..k], rank, test)
  {
    if k > 0 {
      ListByPool(events, categories, quotas, rank, k - 1, test);
      assert categories[..k][..k - 1] == categories[..k - 1];
    }
  }

  lemma {:induction false} RespectsIffMeets(events: seq<Event>, quotas: map<string, nat>, test: set<string>)
    requires forall c | c in Categories(events) :: c in quotas
    ensures Respects(PoolsOf(events, Categories(events), quotas), test) <==> MeetsQuotas(events, quotas, test)
  {
    var categories := Categories(events);
    var pools := PoolsOf(events, categories, quotas);
    hide Categories, TestAt, InCategory, Filter;
    forall k | 0 <= k < |pools|
      ensures |Filter(pools[k].events, test)| == |TestAt(events, categories[k], test)|
    {
      TestEventsOfCategory(events, categories[k], test);
    }
    if Respects(pools, test) {
      forall i | 0 <= i < |events|
        ensures events[i].category in quotas
        ensures |TestAt(events, events[i].category, test)| == quotas[events[i].category]
      {
        var k := CategoryOfEvent(events, i);
        assert |Filter(pools[k].events, test)| == pools[k].quota;
      }
    }
    if MeetsQuotas(events, quotas, test) {
      forall k | 0 <= k < |pools| ensures |Filter(pools[k].events, test)| == pools[k].quota {
        var i := EventOfCategory(events, k);
        assert |TestAt(events, events[i].category, test)| == quotas[events[i].category];
      }
    }
  }

  // One more event adds its pairs to the pool of its category.
  lemma {:induction false} OneEventMore(events: seq<Event>, e: Event, categories: seq<string>,
                                        quotas: map<string, nat>, weight: string -> int, k: nat, test: set<string>)
    requires AllDistinct(categories) && k <= |categories| && forall c | c in categories :: c in quotas
    ensures PairCount(PoolsOf(events + [e], categories, quotas), weight, k, test)
            == PairCount(PoolsOf(events, categories, quotas), weight, k, test)
               + if e.category in categories[..k] && e.id in test then weight(e.id) else 0
  {
    hide PairCount, PoolsOf, AllDistinct, InCategory, Filter, Weight;
    if k == 0 {
      NoPools(PoolsOf(events + [e], categories, quotas), weight, test);
      NoPools(PoolsOf(events, categories, quotas), weight, test);
    } else {
      OneEventMore(events, e, categories, quotas, weight, k - 1, test);
      var c := categories[k - 1];
      OneEventInPool(events, e, c, weight, test);
      InLongerPrefix(categories, k, e.category);
      LastPool(events + [e], categories, quotas, weight, k, test);
      LastPool(events, categories, quotas, weight, k, test);
    }
  }

  lemma {:induction false} NoPools(pools: seq<Pool>, weight: string -> int, test: set<string>)
    ensures PairCount(pools, weight, 0, test) == 0
  {
  }

  lemma {:induction false} LastPool(events: seq<Event>, categories: seq<string>, quotas: map<string, nat>,
                                    weight: string -> int, k: nat, test: set<string>)
    requires 0 < k <= |categories| && forall c | c in categories :: c in quotas
    ensures PairCount(PoolsOf(events, categories, quotas), weight, k, test)
            == PairCount(PoolsOf(events, categories, quotas), weight, k - 1, test)
               + Weight(Filter(InCategory(events, categories[k - 1]), test), weight)
  {
  }

  lemma {:induction false} InLongerPrefix(categories: seq<string>, k: nat, category: string)
    requires AllDistinct(categories) && 0 < k <= |categories|
    ensures category in categories[..k] <==> category in categories[..k - 1] || category == categories[k - 1]
    ensures category == categories[k - 1] ==> category !in categories[..k - 1]
  {
    assert categories[..k] == categories[..k - 1] + [categories[k - 1]];
  }

  lemma {:induction false} OneEventInPool(events: seq<Event>, e: Event, category: string, weight: string -> int,
                                          test: set<string>)
    ensures Weight(Filter(InCategory(events + [e], category), test), weight)
            == Weight(Filter(InCategory(events, category), test), weight)
               + if e.category == category && e.id in test then weight(e.id) else 0
  {
    var ids, more := InCategory(events, category), if e.category == category then [e.id] else [];
    assert (events + [e])[..|events|] == events;
    assert InCategory(events + [e], category) == ids + more;
    FilterAppend(ids, more, test);
    WeightAppend(Filter(ids, test), Filter(more, test), weight);
  }

  lemma {:induction false} NoEvents(categories: seq<string>, quotas: map<string, nat>, weight: string -> int, k: nat,
                                    test: set<string>)
    requires k <= |categories| && forall c | c in categories :: c in quotas
    ensures PairCount(PoolsOf([], categories, quotas), weight, k, test) == 0
  {
    if k > 0 { NoEvents(categories, quotas, weight, k - 1, test); }
  }

  // Counted pool by pool or event by event, the pairs are the same.
  lemma {:induction false} PairsByPool(events: seq<Event>, categories: seq<string>, quotas: map<string, nat>,
                                       weight: string -> int, test: set<string>)
    requires AllDistinct(categories) && forall c | c in categories :: c in quotas
    requires forall e | e in events :: e.category in categories
    ensures PairCount(PoolsOf(events, categories, quotas), weight, |categories|, test) == PairsOf(events, weight, test)
  {
    hide PairCount, PoolsOf;
    if events == [] {
      NoEvents(categories, quotas, weight, |categories|, test);
    } else {
      var last := |events| - 1;
      PairsByPool(events[..last], categories, quotas, weight, test);
      OneEventMore(events[..last], events[last], categories, quotas, weight, |categories|, test);
      assert events == events[..last] + [events[last]];
      assert categories[..|categories|] == categories;
    }
  }

  lemma {:induction false} AllPairs(events: seq<Event>, weight: string -> int, test: set<string>)
    requires forall e | e in events :: e.id in test
    ensures Weight(Ids(events), weight) == PairsOf(events, weight, test)
  {
    if events != [] {
      var last := |events| - 1;
      AllPairs(events[..last], weight, test);
      assert events[last] in events;
      assert Ids(events) == Ids(events[..last]) + [events[last].id] by { hide Weight, PairsOf; }
      assert Weight([events[last].id], weight) == weight(events[last].id);
      hide Weight, Ids;
      WeightAppend(Ids(events[..last]), [events[last].id], weight);
    }
  }

  ghost predicate AgreeOn(pools: seq<Pool>, a: set<string>, b: set<string>) {
    forall i, x | 0 <= i < |pools| && x in pools[i].events :: x in a <==> x in b
  }

  lemma {:induction false} SameFilter(pool: seq<string>, a: set<string>, b: set<string>)
    requires forall x | x in pool :: x in a <==> x in b
    ensures Filter(pool, a) == Filter(pool, b)
  {
    if pool != [] { SameFilter(pool[1..], a, b); }
  }

  lemma {:induction false} SamePairCount(pools: seq<Pool>, weight: string -> int, k: nat, a: set<string>,
                                         b: set<string>)
    requires AgreeOn(pools, a, b) && k <= |pools|
    ensures PairCount(pools, weight, k, a) == PairCount(pools, weight, k, b)
    ensures forall rank :: RankedList(pools, rank, k, a) == RankedList(pools, rank, k, b)
    ensures forall i | 0 <= i < k :: Filter(pools[i].events, a) == Filter(pools[i].events, b)
  {
    if k > 0 {
      SamePairCount(pools, weight, k - 1, a, b);
      SameFilter(pools[k - 1].events, a, b);
    }
  }

  lemma {:induction false} LabelsAgree(events: seq<Event>, quotas: map<string, nat>, test: set<string>)
    requires forall c | c in Categories(events) :: c in quotas
    ensures Labels(events, test).Keys == AllIds(events)
    ensures AgreeOn(PoolsOf(events, Categories(events), quotas), test, TestIds(Labels(events, test)))
  {
    var labels, categories := Labels(events, test), Categories(events);
    forall i, x | 0 <= i < |categories| && x in InCategory(events, categories[i])
      ensures x in test <==> x in TestIds(labels)
    {
      InCategoryMember(events, categories[i], x);
    }
  }

  lemma {:induction false} BestSplitIsOptimal(events: seq<Event>, weight: string -> int, rank: string -> string,
                                              quotas: map<string, nat>, labels: map<string, bool>)
    requires AllDistinct(Ids(events)) && forall c | c in Categories(events) :: c in quotas
    requires IsBestSplit(events, weight, rank, PoolsOf(events, Categories(events), quotas), labels)
    ensures IsOptimalSplit(events, weight, rank, quotas, labels)
  {
    var test := BestSplitIsOptimalPerPool(events, weight, rank, quotas, labels);
    hide Categories, AllDistinct, IsBestSplit, IsNoBetter, IsAsGood, PoolsOf, Respects, MeetsQuotas;
    RespectsIffMeets(events, quotas, test);
    forall other | MeetsQuotas(events, quotas, other) ensures IsAsGood(events, weight, rank, test, other) {
      RespectsIffMeets(events, quotas, other);
      NoBetterIsAsGood(events, weight, rank, quotas, test, other);
    }
  }

  lemma {:induction false} NoBetterIsAsGood(events: seq<Event>, weight: string -> int, rank: string -> string,
                                            quotas: map<string, nat>, test: set<string>, other: set<string>)
    requires forall c | c in Categories(events) :: c in quotas
    requires IsNoBetter(PoolsOf(events, Categories(events), quotas), weight, rank,
                        TwoFifths(Weight(Ids(events), weight)), test, other)
    ensures IsAsGood(events, weight, rank, test, other)
  {
    hide Categories, AllDistinct, Weight, TwoFifths, PairCount, PairsOf, Distance, RankedList, TestList, TupleAtMost;
    CategoriesAreDistinct(events);
    ListByPool(events, Categories(events), quotas, rank, |Categories(events)|, test);
    ListByPool(events, Categories(events), quotas, rank, |Categories(events)|, other);
    assert Categories(events)[..|Categories(events)|] == Categories(events);
    PairsByPool(events, Categories(events), quotas, weight, test);
    PairsByPool(events, Categories(events), quotas, weight, other);
    AllPairs(events, weight, AllIds(events));
  }

  lemma {:induction false} CategoriesAreDistinct(events: seq<Event>)
    ensures AllDistinct(Categories(events)) && forall e | e in events :: e.category in Categories(events)
  {
    FirstSeenDistinct(events);
    SortedStaysDistinct(FirstSeen(events), c => c);
    CategoriesAreThoseOfEvents(events);
  }

  lemma {:induction false} BestSplitIsOptimalPerPool(events: seq<Event>, weight: string -> int,
                                                     rank: string -> string, quotas: map<string, nat>,
                                                     labels: map<string, bool>)
    returns (test: set<string>)
    requires AllDistinct(Ids(events)) && forall c | c in Categories(events) :: c in quotas
    requires IsBestSplit(events, weight, rank, PoolsOf(events, Categories(events), quotas), labels)
    ensures test == TestIds(labels) && labels.Keys == AllIds(events)
    ensures var pools := PoolsOf(events, Categories(events), quotas);
            && Respects(pools, test)
            && forall other | Respects(pools, other) ::
                 IsNoBetter(pools, weight, rank, TwoFifths(Weight(Ids(events), weight)), test, other)
  {
    hide IsBest, PairCount, Filter, InCategory, ArePools, AllDistinct, TwoFifths, AgreeOn, Categories, Weight;
    var pools, target := PoolsOf(events, Categories(events), quotas), TwoFifths(Weight(Ids(events), weight));
    var c :| IsBest(pools, weight, rank, target, c) && labels == Labels(events, Elements(c.ids));
    test := TestIds(labels);
    EventsMakePools(events, quotas);
    BestIsOptimal(pools, weight, rank, target, c);
    LabelsAgree(events, quotas, Elements(c.ids));
    SamePairCount(pools, weight, |pools|, Elements(c.ids), test);
    forall other | Respects(pools, other) ensures IsNoBetter(pools, weight, rank, target, test, other) {
      assert IsNoBetter(pools, weight, rank, target, Elements(c.ids), other);
    }
  }

  // The splits under the quotas of the evaluation set.  Distinct event ids are split optimally.
  method MakeSplits(events: seq<Event>, weight: string -> int, rank: string -> string)
    returns (r: Result<map<string, bool>, Failure>)
    ensures r == Err(MissingQuota) <==> exists i :: 0 <= i < |events| && events[i].category !in TEST_COUNTS
    ensures r == Err(NoSelection) <==>
              && (forall i | 0 <= i < |events| :: events[i].category in TEST_COUNTS)
              && exists i :: 0 <= i < |events| && IsTooSmall(events, TEST_COUNTS, events[i].category)
    ensures r.Ok? ==>
              && (forall c | c in Categories(events) :: c in TEST_COUNTS)
              && IsBestSplit(events, weight, rank, PoolsOf(events, Categories(events), TEST_COUNTS), r.value)
              && (AllDistinct(Ids(events)) ==> IsOptimalSplit(events, weight, rank, TEST_COUNTS, r.value))
  {
    r := SplitByQuotas(events, weight, rank, TEST_COUNTS);
  }

  // The category has fewer events than its quota.
  predicate IsTooSmall(events: seq<Event>, quotas: map<string, nat>, category: string) {
    category in quotas && |At(events, category)| < quotas[category]
  }

  // weight gives an event's pair count; rank is the SHA-256 rank of an event id.
  method SplitByQuotas(events: seq<Event>, weight: string -> int, rank: string -> string, quotas: map<string, nat>)
    returns (r: Result<map<string, bool>, Failure>)
    ensures r == Err(MissingQuota) <==> exists i :: 0 <= i < |events| && events[i].category !in quotas
    ensures r == Err(NoSelection) <==>
              && (forall i | 0 <= i < |events| :: events[i].category in quotas)
              && exists i :: 0 <= i < |events| && IsTooSmall(events, quotas, events[i].category)
    ensures r.Ok? ==> && (forall c | c in Categories(events) :: c in quotas)
                      && IsBestSplit(events, weight, rank, PoolsOf(events, Categories(events), quotas), r.value)
                      && (AllDistinct(Ids(events)) ==> IsOptimalSplit(events, weight, rank, quotas, r.value))
  {
    var made := MakePools(events, quotas);
    CategoriesAreThoseOfEvents(events);
    if made.Err? { return Err(MissingQuota); }
    var pools := made.value;
    SomePoolIsTooSmall(events, quotas);
    var table := LeastTable(pools, weight, rank);
    SelectionExists(pools, weight, rank, |pools|);
    if table == map[] {
      assert forall c | IsTotal(pools, weight, rank, |pools|, c) :: KeepsAtMost(table, c);
      return Err(NoSelection);
    }
    var target := TwoFifths(Weight(Ids(events), weight));
    var best := NearestWeight(table, target);
    NearestIsBest(pools, weight, rank, table, target, best);
    assert IsTotal(pools, weight, rank, |pools|, Choice(best, table[best]));
    r := Ok(Labels(events, Elements(table[best])));
    if AllDistinct(Ids(events)) { BestSplitIsOptimal(events, weight, rank, quotas, r.value); }
  }

  lemma {:induction false} SomePoolIsTooSmall(events: seq<Event>, quotas: map<string, nat>)
    requires forall c | c in Categories(events) :: c in quotas
    ensures (exists i :: 0 <= i < |events| && IsTooSmall(events, quotas, events[i].category))
            <==> exists k :: 0 <= k < |Categories(events)|
                             && |InCategory(events, Categories(events)[k])| < quotas[Categories(events)[k]]
  {
    var categories := Categories(events);
    hide Categories, InCategory, At;
    forall k | 0 <= k < |categories|
      ensures |InCategory(events, categories[k])| == |At(events, categories[k])|
    {
      InCategoryHolds(events, categories[k]);
    }
    if i :| 0 <= i < |events| && IsTooSmall(events, quotas, events[i].category) {
      var k := CategoryOfEvent(events, i);
      assert |InCategory(events, categories[k])| < quotas[categories[k]];
    }
    if k :| 0 <= k < |categories| && |InCategory(events, categories[k])| < quotas[categories[k]] {
      var i := EventOfCategory(events, k);
      assert IsTooSmall(events, quotas, events[i].category);
    }
  }
}

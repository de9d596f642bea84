/**
  Picking a diverse set of candidate pairs: greedy, with a quota for every claim and every slot.
 */
module DiversePairs {
  import opened Sequences

  datatype Candidate = Candidate(left: string, right: string, leftSlot: string, rightSlot: string)

  const NO_SLOT := "<none>"
  const CLAIM_QUOTA := 2

  // The slot the two claims share, or that of the one that has any.
  function SlotOf(c: Candidate): (slot: string)
    ensures c.leftSlot == c.rightSlot && c.leftSlot != "" ==> slot == c.leftSlot == c.rightSlot
    ensures c.leftSlot == "" && c.rightSlot == "" <==> slot == NO_SLOT && slot != c.leftSlot && slot != c.rightSlot
    ensures slot == NO_SLOT || slot == c.leftSlot || (slot == c.rightSlot && c.leftSlot == "")
  {
    if |c.leftSlot| > 0 then c.leftSlot else if |c.rightSlot| > 0 then c.rightSlot else NO_SLOT
  }

  // A quarter of the limit, but at least three.
  function SlotQuota(limit: int): (q: int)
    ensures q >= 3 && limit < 4 * (q + 1) && (q == 3 || 4 * q <= limit)
  {
    if limit / 4 < 3 then 3 else limit / 4
  }

  // How often a claim is an endpoint; a pair of a claim with itself uses it twice.
  function ClaimUses(pairs: seq<Candidate>, claim: string): nat {
    if pairs == [] then 0
    else
      var last := pairs[|pairs| - 1];
      ClaimUses(pairs[..|pairs| - 1], claim)
      + (if last.left == claim then 1 else 0) + (if last.right == claim then 1 else 0)
  }

  function SlotUses(pairs: seq<Candidate>, slot: string): nat {
    if pairs == [] then 0
    else SlotUses(pairs[..|pairs| - 1], slot) + if SlotOf(pairs[|pairs| - 1]) == slot then 1 else 0
  }

  function Uses(uses: map<string, nat>, key: string): nat {
    if key in uses then uses[key] else 0
  }

  // The pair can still be taken without breaking a quota.
  predicate Fits(selected: seq<Candidate>, c: Candidate, limit: int) {
    && ClaimUses(selected, c.left) < CLAIM_QUOTA && ClaimUses(selected, c.right) < CLAIM_QUOTA
    && SlotUses(selected, SlotOf(c)) < SlotQuota(limit)
  }

  // The selected pairs at increasing positions of the candidates.
  ghost predicate IsSelection(candidates: seq<Candidate>, at: seq<nat>, selected: seq<Candidate>) {
    && |at| == |selected|
    && (forall i, j | 0 <= i < j < |at| :: at[i] < at[j])
    && forall i | 0 <= i < |at| :: at[i] < |candidates| && candidates[at[i]] == selected[i]
  }

  lemma {:induction false} TakingKeepsQuotas(selected: seq<Candidate>, c: Candidate, limit: int)
    requires Fits(selected, c, limit)
    ensures (forall slot :: SlotUses(selected, slot) <= SlotQuota(limit)) ==>
              forall slot :: SlotUses(selected + [c], slot) <= SlotQuota(limit)
    ensures c.left != c.right && (forall claim :: ClaimUses(selected, claim) <= CLAIM_QUOTA) ==>
              forall claim :: ClaimUses(selected + [c], claim) <= CLAIM_QUOTA
  {
    OneMoreUse(selected, c);
    hide ClaimUses, SlotUses;
  }

  lemma {:induction false} UsesGrow(selected: seq<Candidate>, more: seq<Candidate>, c: Candidate, limit: int)
    requires selected <= more && !Fits(selected, c, limit)
    ensures !Fits(more, c, limit)
    decreases |more|
  {
    if |selected| < |more| {
      UsesGrow(selected, more[..|more| - 1], c, limit);
    } else {
      assert selected == more;
    }
  }

  // n pairs were selected before candidate k; k was taken exactly when there was room and it
  // still fitted.
  ghost predicate IsJudged(candidates: seq<Candidate>, at: seq<nat>, selected: seq<Candidate>, limit: int, k: nat,
                           n: nat) {
    && n <= |at| == |selected| && k < |candidates|
    && (forall i | 0 <= i < n :: at[i] < k) && (forall i | n <= i < |at| :: at[i] >= k)
    && (k in at <==> (limit < 1 || n < limit) && Fits(selected[..n], candidates[k], limit))
  }

  ghost predicate IsGreedy(candidates: seq<Candidate>, at: seq<nat>, selected: seq<Candidate>, limit: int, k: nat) {
    exists n: nat :: IsJudged(candidates, at, selected, limit, k, n)
  }

  predicate HasDistinctEnds(candidates: seq<Candidate>) {
    forall c | c in candidates :: c.left != c.right
  }

  ghost predicate IsWithinQuotas(candidates: seq<Candidate>, selected: seq<Candidate>, limit: int) {
    && (forall slot :: SlotUses(selected, slot) <= SlotQuota(limit))
    && (HasDistinctEnds(candidates) ==> forall claim :: ClaimUses(selected, claim) <= CLAIM_QUOTA)
  }

  // Candidate k was taken, or does not fit any more.
  ghost predicate IsExhausted(candidates: seq<Candidate>, at: seq<nat>, selected: seq<Candidate>, limit: int, k: nat) {
    k < |candidates| && k !in at ==> !Fits(selected, candidates[k], limit)
  }

  // What the loop has established before candidate i.
  ghost predicate IsSelectedUpTo(candidates: seq<Candidate>, at: seq<nat>, selected: seq<Candidate>, limit: int,
                                 i: nat) {
    && i <= |candidates| && IsSelection(candidates, at, selected)
    && (forall k | 0 <= k < |at| :: at[k] < i)
    && IsWithinQuotas(candidates, selected, limit)
    && (forall k: nat | k < i :: IsExhausted(candidates, at, selected, limit, k))
    && (forall k: nat | k < i :: IsGreedy(candidates, at, selected, limit, k))
  }

  lemma {:induction false} SkipKeeps(candidates: seq<Candidate>, at: seq<nat>, selected: seq<Candidate>, limit: int,
                                     i: nat)
    requires IsSelectedUpTo(candidates, at, selected, limit, i) && i < |candidates|
    requires !Fits(selected, candidates[i], limit)
    ensures IsSelectedUpTo(candidates, at, selected, limit, i + 1)
  {
    hide Fits;
    assert selected[..|at|] == selected;
    assert IsJudged(candidates, at, selected, limit, i, |at|);
  }

  lemma {:induction false} TakeKeeps(candidates: seq<Candidate>, at: seq<nat>, selected: seq<Candidate>, limit: int,
                                     i: nat)
    requires IsSelectedUpTo(candidates, at, selected, limit, i) && i < |candidates|
    requires Fits(selected, candidates[i], limit) && (limit < 1 || |selected| < limit)
    ensures IsSelectedUpTo(candidates, at + [i], selected + [candidates[i]], limit, i + 1)
  {
    TakingKeepsQuotas(selected, candidates[i], limit);
    assert candidates[i] in candidates;
    assert IsWithinQuotas(candidates, selected + [candidates[i]], limit);
    hide Fits, IsGreedy, IsExhausted, IsWithinQuotas;
    forall k: nat | k < i + 1
      ensures IsGreedy(candidates, at + [i], selected + [candidates[i]], limit, k)
      ensures IsExhausted(candidates, at + [i], selected + [candidates[i]], limit, k)
    {
      TakeKeepsOne(candidates, at, selected, limit, i, k);
    }
  }

  lemma {:induction false} TakeKeepsOne(candidates: seq<Candidate>, at: seq<nat>, selected: seq<Candidate>, limit: int,
                                        i: nat, k: nat)
    requires IsSelectedUpTo(candidates, at, selected, limit, i) && k <= i < |candidates|
    requires Fits(selected, candidates[i], limit) && (limit < 1 || |selected| < limit)
    ensures IsGreedy(candidates, at + [i], selected + [candidates[i]], limit, k)
    ensures IsExhausted(candidates, at + [i], selected + [candidates[i]], limit, k)
  {
    hide Fits, SlotUses, ClaimUses;
    var more, at' := selected + [candidates[i]], at + [i];
    assert at'[|at|] == i && forall x :: x in at' <==> x == i || x in at;
    if k < i {
      assert IsExhausted(candidates, at, selected, limit, k);
      if k !in at { UsesGrow(selected, more, candidates[k], limit); }
      assert IsGreedy(candidates, at, selected, limit, k);
      var n: nat :| IsJudged(candidates, at, selected, limit, k, n);
      assert more[..n] == selected[..n];
      assert IsJudged(candidates, at', more, limit, k, n);
    } else {
      assert more[..|at|] == selected;
      assert IsJudged(candidates, at', more, limit, k, |at|);
    }
  }

  lemma {:induction false} RestIsLeft(candidates: seq<Candidate>, at: seq<nat>, selected: seq<Candidate>, limit: int,
                                      i: nat, k: nat)
    requires IsSelectedUpTo(candidates, at, selected, limit, i) && i <= k < |candidates|
    requires limit >= 1 && |selected| == limit
    ensures IsGreedy(candidates, at, selected, limit, k)
  {
    hide Fits;
    assert IsJudged(candidates, at, selected, limit, k, |at|);
  }

  /**
    The greedy selection.  It stops at the limit, or when nothing that was left out could be
    added without breaking a quota.
   */
  method Diverse(candidates: seq<Candidate>, limit: int) returns (selected: seq<Candidate>, ghost at: seq<nat>)
    ensures IsSelection(candidates, at, selected) && (limit >= 1 ==> |selected| <= limit)
    ensures IsWithinQuotas(candidates, selected, limit)
    ensures limit < 1 || |selected| < limit ==>
              forall k: nat | k < |candidates| :: IsExhausted(candidates, at, selected, limit, k)
    ensures forall k: nat | k < |candidates| :: IsGreedy(candidates, at, selected, limit, k)
  {
    hide ClaimUses, SlotUses, IsGreedy, IsExhausted, IsWithinQuotas;
    selected, at := [], [];
    var claimUses: map<string, nat>, slotUses: map<string, nat> := map[], map[];
    NothingUsed(candidates, limit);
    for i := 0 to |candidates|
      invariant limit < 1 || |selected| < limit
      invariant IsSelectedUpTo(candidates, at, selected, limit, i)
      invariant forall claim :: Uses(claimUses, claim) == ClaimUses(selected, claim)
      invariant forall slot :: Uses(slotUses, slot) == SlotUses(selected, slot)
    {
      var c := candidates[i];
      var slot := SlotOf(c);
      if Uses(claimUses, c.left) >= CLAIM_QUOTA || Uses(claimUses, c.right) >= CLAIM_QUOTA {
        SkipKeeps(candidates, at, selected, limit, i);
        continue;
      }
      if Uses(slotUses, slot) >= SlotQuota(limit) {
        SkipKeeps(candidates, at, selected, limit, i);
        continue;
      }
      TakeKeeps(candidates, at, selected, limit, i);
      OneMoreUse(selected, c);
      selected, at := selected + [c], at + [i];
      claimUses := claimUses[c.left := Uses(claimUses, c.left) + 1];
      claimUses := claimUses[c.right := Uses(claimUses, c.right) + 1];
      slotUses := slotUses[slot := Uses(slotUses, slot) + 1];
      if |selected| == limit {
        forall k: nat | i < k < |candidates| ensures IsGreedy(candidates, at, selected, limit, k) {
          RestIsLeft(candidates, at, selected, limit, i + 1, k);
        }
        return;
      }
    }
  }

  lemma {:induction false} NothingUsed(candidates: seq<Candidate>, limit: int)
    ensures IsSelectedUpTo(candidates, [], [], limit, 0)
    ensures (forall claim :: ClaimUses([], claim) == 0) && forall slot :: SlotUses([], slot) == 0
  {
  }

  lemma {:induction false} OneMoreUse(selected: seq<Candidate>, c: Candidate)
    ensures forall claim :: ClaimUses(selected + [c], claim)
              == ClaimUses(selected, claim) + (if c.left == claim then 1 else 0) + (if c.right == claim then 1 else 0)
    ensures forall slot ::
        SlotUses(selected + [c], slot) == SlotUses(selected, slot) + if SlotOf(c) == slot then 1 else 0
  {
    assert (selected + [c])[..|selected|] == selected;
  }

  /******* When the quota of the claims holds *******/

  // Candidates pair a claim with a later one of a list.
  ghost predicate AreLaterPairs(candidates: seq<Candidate>, claims: seq<string>) {
    forall c | c in candidates :: exists i, j :: 0 <= i < j < |claims| && claims[i] == c.left && claims[j] == c.right
  }

  lemma {:induction false} LaterPairsHaveDistinctEnds(candidates: seq<Candidate>, claims: seq<string>)
    requires AllDistinct(claims) && AreLaterPairs(candidates, claims)
    ensures HasDistinctEnds(candidates)
  {
    forall c | c in candidates ensures c.left != c.right {
      var i, j :| 0 <= i < j < |claims| && claims[i] == c.left && claims[j] == c.right;
    }
  }

  ghost predicate IsRunOf(candidates: seq<Candidate>, at: seq<nat>, selected: seq<Candidate>, limit: int) {
    && IsSelection(candidates, at, selected)
    && forall k: nat | k < |candidates| :: IsGreedy(candidates, at, selected, limit, k)
  }

  // A pair of a claim with itself was selected before the claim was used.
  predicate IsFreshSelfPair(selected: seq<Candidate>, i: nat)
    requires i < |selected|
  {
    selected[i].left == selected[i].right ==> ClaimUses(selected[..i], selected[i].left) == 0
  }

  lemma {:induction false} SelectedFitted(candidates: seq<Candidate>, at: seq<nat>, selected: seq<Candidate>,
                                          limit: int, i: nat)
    requires IsRunOf(candidates, at, selected, limit) && i < |selected|
    ensures Fits(selected[..i], selected[i], limit)
  {
    hide Fits;
    assert IsGreedy(candidates, at, selected, limit, at[i]);
    var n: nat :| IsJudged(candidates, at, selected, limit, at[i], n);
    assert n < |at| ==> at[n] >= at[i];
    assert n == i;
    assert at[i] in at;
  }

  lemma {:induction false} UsesOfPrefix(selected: seq<Candidate>, m: nat, claim: string)
    requires m < |selected|
    ensures ClaimUses(selected[..m + 1], claim)
            == ClaimUses(selected[..m], claim) + (if selected[m].left == claim then 1 else 0)
               + (if selected[m].right == claim then 1 else 0)
  {
    assert selected[..m + 1][..m] == selected[..m];
  }

  lemma {:induction false} UsesOnlyGrow(selected: seq<Candidate>, m: nat, claim: string)
    requires m <= |selected|
    ensures ClaimUses(selected[..m], claim) <= ClaimUses(selected, claim)
    decreases |selected| - m
  {
    if m < |selected| {
      UsesOfPrefix(selected, m, claim);
      UsesOnlyGrow(selected, m + 1, claim);
    } else {
      assert selected[..m] == selected;
    }
  }

  lemma {:induction false} PrefixKeepsQuota(selected: seq<Candidate>, limit: int, m: nat, claim: string)
    requires m <= |selected|
    requires forall i | 0 <= i < m :: Fits(selected[..i], selected[i], limit) && IsFreshSelfPair(selected, i)
    ensures ClaimUses(selected[..m], claim) <= CLAIM_QUOTA
  {
    if m > 0 {
      PrefixKeepsQuota(selected, limit, m - 1, claim);
      UsesOfPrefix(selected, m - 1, claim);
      assert Fits(selected[..m - 1], selected[m - 1], limit) && IsFreshSelfPair(selected, m - 1);
    }
  }

  lemma {:induction false} StaleSelfPairOverdraws(selected: seq<Candidate>, i: nat)
    requires i < |selected| && !IsFreshSelfPair(selected, i)
    ensures ClaimUses(selected, selected[i].left) > CLAIM_QUOTA
  {
    UsesOfPrefix(selected, i, selected[i].left);
    UsesOnlyGrow(selected, i + 1, selected[i].left);
  }

  // Whatever the candidates: a run keeps every claim within its quota exactly if each pair of a
  // claim with itself that it took came before any other use of the claim.
  lemma {:induction false} QuotaHoldsExactly(candidates: seq<Candidate>, at: seq<nat>, selected: seq<Candidate>,
                                             limit: int)
    requires IsRunOf(candidates, at, selected, limit)
    ensures (forall claim :: ClaimUses(selected, claim) <= CLAIM_QUOTA)
            <==> forall i: nat | i < |selected| :: IsFreshSelfPair(selected, i)
  {
    hide ClaimUses, IsRunOf, Fits, IsFreshSelfPair;
    forall i: nat | i < |selected| ensures Fits(selected[..i], selected[i], limit) {
      SelectedFitted(candidates, at, selected, limit, i);
    }
    if forall i: nat | i < |selected| :: IsFreshSelfPair(selected, i) {
      forall claim ensures ClaimUses(selected, claim) <= CLAIM_QUOTA {
        PrefixKeepsQuota(selected, limit, |selected|, claim);
        assert selected[..|selected|] == selected;
      }
    } else {
      var i: nat :| i < |selected| && !IsFreshSelfPair(selected, i);
      StaleSelfPairOverdraws(selected, i);
    }
  }

  // A candidate that fits while there is room for one more is taken.
  lemma {:induction false} FittingIsTaken(candidates: seq<Candidate>, at: seq<nat>, selected: seq<Candidate>,
                                          limit: int, k: nat)
    requires IsRunOf(candidates, at, selected, limit) && k < |candidates| && (limit < 1 || k < limit)
    requires forall n: nat | n <= k && n <= |selected| :: Fits(selected[..n], candidates[k], limit)
    ensures k in at
  {
    hide Fits;
    assert IsGreedy(candidates, at, selected, limit, k);
    var n: nat :| IsJudged(candidates, at, selected, limit, k, n);
    PositionsRise(at, n);
    assert n > 0 ==> at[n - 1] < k;
  }

  lemma {:induction false} PositionsRise(at: seq<nat>, n: nat)
    requires n <= |at| && forall i, j | 0 <= i < j < |at| :: at[i] < at[j]
    ensures n > 0 ==> at[n - 1] >= n - 1
  {
    if n > 1 { PositionsRise(at, n - 1); }
  }

  // A run that takes each of two candidates takes nothing else.
  lemma {:induction false} BothAreTaken(c: Candidate, d: Candidate, at: seq<nat>, selected: seq<Candidate>)
    requires IsSelection([c, d], at, selected) && 0 in at && 1 in at
    ensures selected == [c, d]
  {
    var i :| 0 <= i < |at| && at[i] == 0;
    var j :| 0 <= j < |at| && at[j] == 1;
    PositionsRise(at, i + 1);
    PositionsRise(at, j + 1);
    PositionsRise(at, |at|);
    assert i == 0 && j == 1 && |at| == 2;
  }

  lemma {:induction false} PairFits(c: Candidate, d: Candidate, limit: int)
    requires c.left != c.right && d.left == d.right == c.left
    ensures Fits([], c, limit) && Fits([], d, limit) && Fits([c], d, limit)
    ensures ClaimUses([c, d], c.left) == CLAIM_QUOTA + 1
  {
    assert [c][..0] == [] && [c, d][..1] == [c];
  }

  // For the candidates (a, b), (a, a) every run with room for both takes both, and a three times.
  lemma {:induction false} SelfPairOverdraws(c: Candidate, d: Candidate, at: seq<nat>, selected: seq<Candidate>,
                                             limit: int)
    requires c.left != c.right && d.left == d.right == c.left && (limit < 1 || limit >= 2)
    requires IsRunOf([c, d], at, selected, limit)
    ensures selected == [c, d] && ClaimUses(selected, c.left) == CLAIM_QUOTA + 1
  {
    hide Fits, ClaimUses, IsGreedy;
    PairFits(c, d, limit);
    assert selected[..0] == [];
    FittingIsTaken([c, d], at, selected, limit, 0);
    assert selected != [] && selected[0] == c by { FirstIsTaken(c, d, at, selected); }
    assert selected[..1] == [c];
    FittingIsTaken([c, d], at, selected, limit, 1);
    BothAreTaken(c, d, at, selected);
  }

  lemma {:induction false} FirstIsTaken(c: Candidate, d: Candidate, at: seq<nat>, selected: seq<Candidate>)
    requires IsSelection([c, d], at, selected) && 0 in at
    ensures selected != [] && selected[0] == c
  {
    var i :| 0 <= i < |at| && at[i] == 0;
    PositionsRise(at, i + 1);
  }
}

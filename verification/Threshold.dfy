/**
  Choosing a decision threshold: finitely many candidates stand for all real thresholds.
 */
module Thresholds {
  import opened Common

  /******* Sorted values *******/

  predicate IsIncreasing(s: seq<real>) {
    forall i, j | 0 <= i < j < |s| :: s[i] < s[j]
  }

  function Insert(x: real, s: seq<real>): seq<real> {
    if s == [] || x < s[0] then [x] + s
    else if x == s[0] then s
    else [s[0]] + Insert(x, s[1..])
  }

  // The distinct values, in ascending order.
  function Unique(values: seq<real>): seq<real> {
    if values == [] then [] else Insert(values[0], Unique(values[1..]))
  }

  lemma {:induction false} InsertKeepsOrder(x: real, s: seq<real>)
    requires IsIncreasing(s)
    ensures IsIncreasing(Insert(x, s)) && forall y :: y in Insert(x, s) <==> y == x || y in s
  {
    if s != [] && x > s[0] {
      InsertKeepsOrder(x, s[1..]);
      var rest := Insert(x, s[1..]);
      assert s == [s[0]] + s[1..];
      forall j | 0 <= j < |rest| ensures s[0] < rest[j] {
        assert rest[j] in rest;
      }
    }
  }

  lemma {:induction false} UniqueIsSorted(values: seq<real>)
    ensures IsIncreasing(Unique(values)) && forall x :: x in Unique(values) <==> x in values
  {
    if values != [] {
      UniqueIsSorted(values[1..]);
      InsertKeepsOrder(values[0], Unique(values[1..]));
      assert values == [values[0]] + values[1..];
    }
  }

  lemma {:induction false} InUnique(values: seq<real>, x: real)
    requires x in values
    ensures x in Unique(values) && Unique(values) != []
  {
    UniqueIsSorted(values);
  }

  function Place(x: real, s: seq<real>): seq<real> {
    if s == [] || x <= s[0] then [x] + s else [s[0]] + Place(x, s[1..])
  }

  function Sorted(values: seq<real>): (r: seq<real>)
    ensures |r| == |values|
  {
    if values == [] then [] else PlaceLength(values[0], Sorted(values[1..])); Place(values[0], Sorted(values[1..]))
  }

  lemma {:induction false} PlaceLength(x: real, s: seq<real>)
    ensures |Place(x, s)| == |s| + 1
  {
    if s != [] { PlaceLength(x, s[1..]); }
  }

  predicate IsSorted(s: seq<real>) {
    forall i, j | 0 <= i < j < |s| :: s[i] <= s[j]
  }

  lemma {:induction false} PlaceKeepsItems(x: real, s: seq<real>)
    ensures multiset(Place(x, s)) == multiset(s) + multiset{x}
  {
    if s != [] && x > s[0] {
      PlaceKeepsItems(x, s[1..]);
      assert s == [s[0]] + s[1..];
    } else {
      assert multiset([x] + s) == multiset{x} + multiset(s);
    }
  }

  lemma {:induction false} PlaceKeepsOrder(x: real, s: seq<real>)
    requires IsSorted(s)
    ensures IsSorted(Place(x, s)) && (s != [] && x > s[0] ==> Place(x, s)[0] == s[0])
  {
    if s != [] && x > s[0] {
      var rest := Place(x, s[1..]);
      PlaceKeepsOrder(x, s[1..]);
      assert rest[0] == x || rest[0] == s[1];
    }
  }

  lemma {:induction false} SortedIsSorted(values: seq<real>)
    ensures IsSorted(Sorted(values)) && multiset(Sorted(values)) == multiset(values)
  {
    if values != [] {
      SortedIsSorted(values[1..]);
      hide Place, IsSorted;
      PlaceKeepsOrder(values[0], Sorted(values[1..]));
      PlaceKeepsItems(values[0], Sorted(values[1..]));
      assert values == [values[0]] + values[1..];
    }
  }

  function Median(values: seq<real>): real
    requires values != []
  {
    var s := Sorted(values);
    var middle := |s| / 2;
    if |s| % 2 == 1 then s[middle] else (s[middle - 1] + s[middle]) / 2.0
  }

  function Smaller(values: seq<real>, x: real): nat {
    if values == [] then 0 else (if values[0] < x then 1 else 0) + Smaller(values[1..], x)
  }

  function Larger(values: seq<real>, x: real): nat {
    if values == [] then 0 else (if values[0] > x then 1 else 0) + Larger(values[1..], x)
  }

  // x is item k of the values in ascending order.
  predicate IsItem(values: seq<real>, k: nat, x: real) {
    x in values && Smaller(values, x) <= k && Larger(values, x) <= |values| - 1 - k
  }

  lemma {:induction false} PlaceCounts(y: real, s: seq<real>, x: real)
    ensures Smaller(Place(y, s), x) == Smaller(s, x) + if y < x then 1 else 0
    ensures Larger(Place(y, s), x) == Larger(s, x) + if y > x then 1 else 0
  {
    if s != [] && y > s[0] {
      PlaceCounts(y, s[1..], x);
      assert Place(y, s)[1..] == Place(y, s[1..]);
    } else {
      assert ([y] + s)[1..] == s;
    }
  }

  lemma {:induction false} SortedCounts(values: seq<real>, x: real)
    ensures Smaller(Sorted(values), x) == Smaller(values, x) && Larger(Sorted(values), x) == Larger(values, x)
  {
    if values != [] {
      SortedCounts(values[1..], x);
      PlaceCounts(values[0], Sorted(values[1..]), x);
    }
  }

  lemma {:induction false} FewSmaller(s: seq<real>, k: nat, x: real)
    requires forall j | k <= j < |s| :: s[j] >= x
    ensures Smaller(s, x) <= k
  {
    if s != [] { FewSmaller(s[1..], if k == 0 then 0 else k - 1, x); }
  }

  lemma {:induction false} FewLarger(s: seq<real>, k: nat, x: real)
    requires k <= |s| && forall j | 0 <= j < k :: s[j] <= x
    ensures Larger(s, x) <= |s| - k
  {
    if s != [] { FewLarger(s[1..], if k == 0 then 0 else k - 1, x); }
  }

  lemma {:induction false} SortedItem(values: seq<real>, k: nat)
    requires k < |values|
    ensures IsItem(values, k, Sorted(values)[k])
  {
    var s := Sorted(values);
    SortedIsSorted(values);
    SortedCounts(values, s[k]);
    FewSmaller(s, k, s[k]);
    FewLarger(s, k + 1, s[k]);
    assert s[k] in multiset(s);
  }

  // The median is halfway between the two middle values, which for an odd number of them are one.
  lemma {:induction false} MedianIsMiddle(values: seq<real>) returns (low: real, high: real)
    requires values != []
    ensures IsItem(values, (|values| - 1) / 2, low) && IsItem(values, |values| / 2, high)
    ensures Median(values) == (low + high) / 2.0
  {
    SortedItem(values, (|values| - 1) / 2);
    SortedItem(values, |values| / 2);
    low, high := Sorted(values)[(|values| - 1) / 2], Sorted(values)[|values| / 2];
    assert |values| % 2 == 1 ==> (|values| - 1) / 2 == |values| / 2;
    assert |values| % 2 == 0 ==> (|values| - 1) / 2 == |values| / 2 - 1;
  }

  /******* Metrics *******/

  datatype Metrics = Metrics(threshold: real, precision: real, recall: real, f1: real, accuracy: real,
                             tp: nat, fp: nat, fn: nat, tn: nat)

  predicate Predicts(value: real, threshold: real, positiveWhenLow: bool) {
    if positiveWhenLow then value < threshold else value >= threshold
  }

  // How many items are positive or not, and predicted positive or not.
  function Count(labels: seq<int>, scores: seq<real>, threshold: real, low: bool, positive: bool, predicted: bool): nat
    requires |labels| == |scores|
  {
    if labels == [] then 0
    else
      Count(labels[1..], scores[1..], threshold, low, positive, predicted)
      + if (labels[0] == 1) == positive && Predicts(scores[0], threshold, low) == predicted then 1 else 0
  }

  function SafeRatio(numerator: real, denominator: real): real {
    if denominator == 0.0 then 0.0 else numerator / denominator
  }

  // Twice the product over the sum.
  function F1(precision: real, recall: real): real {
    SafeRatio(2.0 * precision * recall, precision + recall)
  }

  function Evaluate(labels: seq<int>, scores: seq<real>, threshold: real, low: bool): Metrics
    requires |labels| == |scores|
  {
    var tp, fp := Count(labels, scores, threshold, low, true, true), Count(labels, scores, threshold, low, false, true);
    var fn, tn := Count(labels, scores, threshold, low, true, false), Count(labels, scores, threshold, low, false,
        false);
    var precision, recall := SafeRatio(tp as real, (tp + fp) as real), SafeRatio(tp as real, (tp + fn) as real);
    Metrics(threshold, precision, recall, F1(precision, recall), SafeRatio((tp + tn) as real, |labels| as real),
            tp, fp, fn, tn)
  }

  // The items that are positive or not, and predicted positive or not.
  function Items(labels: seq<int>, scores: seq<real>, threshold: real, low: bool, positive: bool,
                 predicted: bool): set<nat>
    requires |labels| == |scores|
  {
    set i: nat | i < |labels| && (labels[i] == 1) == positive
                 && (if low then scores[i] < threshold else scores[i] >= threshold) == predicted
  }

  function ItemsFrom(labels: seq<int>, scores: seq<real>, threshold: real, low: bool, positive: bool,
                     predicted: bool, k: nat): set<nat>
    requires |labels| == |scores|
  {
    set i: nat | k <= i && i in Items(labels, scores, threshold, low, positive, predicted)
  }

  lemma {:induction false} CountFrom(labels: seq<int>, scores: seq<real>, threshold: real, low: bool,
                                     positive: bool, predicted: bool, k: nat)
    requires k <= |labels| == |scores|
    ensures Count(labels[k..], scores[k..], threshold, low, positive, predicted)
            == |ItemsFrom(labels, scores, threshold, low, positive, predicted, k)|
    decreases |labels| - k
  {
    if k < |labels| {
      CountFrom(labels, scores, threshold, low, positive, predicted, k + 1);
      assert labels[k..][1..] == labels[k + 1..] && scores[k..][1..] == scores[k + 1..];
      assert labels[k..][0] == labels[k] && scores[k..][0] == scores[k];
      OneItemMore(labels, scores, threshold, low, positive, predicted, k);
      hide ItemsFrom;
    } else {
      assert ItemsFrom(labels, scores, threshold, low, positive, predicted, k) == {};
    }
  }

  lemma {:induction false} OneItemMore(labels: seq<int>, scores: seq<real>, threshold: real, low: bool,
                                       positive: bool, predicted: bool, k: nat)
    requires k < |labels| == |scores|
    ensures |ItemsFrom(labels, scores, threshold, low, positive, predicted, k)|
            == |ItemsFrom(labels, scores, threshold, low, positive, predicted, k + 1)|
               + if k in Items(labels, scores, threshold, low, positive, predicted) then 1 else 0
    ensures k in Items(labels, scores, threshold, low, positive, predicted)
            <==> (labels[k] == 1) == positive && Predicts(scores[k], threshold, low) == predicted
  {
    var items, rest := Items(labels, scores, threshold, low, positive, predicted),
        ItemsFrom(labels, scores, threshold, low, positive, predicted, k + 1);
    assert ItemsFrom(labels, scores, threshold, low, positive, predicted, k) == rest + if k in items then {k} else {};
  }

  lemma {:induction false} CountIsSize(labels: seq<int>, scores: seq<real>, threshold: real, low: bool,
                                       positive: bool, predicted: bool)
    requires |labels| == |scores|
    ensures Count(labels, scores, threshold, low, positive, predicted)
            == |Items(labels, scores, threshold, low, positive, predicted)|
  {
    CountFrom(labels, scores, threshold, low, positive, predicted, 0);
    assert labels[0..] == labels && scores[0..] == scores;
    assert ItemsFrom(labels, scores, threshold, low, positive, predicted, 0)
        == Items(labels, scores, threshold, low, positive, predicted);
  }

  lemma {:induction false} CountsAddUp(labels: seq<int>, scores: seq<real>, threshold: real, low: bool)
    requires |labels| == |scores|
    ensures Count(labels, scores, threshold, low, true, true) + Count(labels, scores, threshold, low, false, true)
            + Count(labels, scores, threshold, low, true, false) + Count(labels, scores, threshold, low, false, false)
            == |labels|
  {
    if labels != [] { CountsAddUp(labels[1..], scores[1..], threshold, low); }
  }

  // r is the ratio of a and b, and 0 when there is nothing to divide by.
  predicate IsRatio(r: real, a: real, b: real) {
    r * b == a && (b == 0.0 ==> r == 0.0)
  }

  lemma {:induction false} SafeRatioIsRatio(a: real, b: real)
    requires b == 0.0 ==> a == 0.0
    ensures IsRatio(SafeRatio(a, b), a, b)
  {
  }

  // What the metrics are: the counts are numbers of items, precision and recall are their ratios
  // and F1 is the harmonic mean of the two, 2 tp / (2 tp + fp + fn).
  lemma {:induction false} MetricsAreThose(labels: seq<int>, scores: seq<real>, threshold: real, low: bool)
    requires |labels| == |scores|
    ensures var m := Evaluate(labels, scores, threshold, low);
            && m.threshold == threshold && m.tp + m.fp + m.fn + m.tn == |labels|
            && m.tp == |Items(labels, scores, threshold, low, true, true)|
            && m.fp == |Items(labels, scores, threshold, low, false, true)|
            && m.fn == |Items(labels, scores, threshold, low, true, false)|
            && m.tn == |Items(labels, scores, threshold, low, false, false)|
            && IsRatio(m.precision, m.tp as real, (m.tp + m.fp) as real)
            && IsRatio(m.recall, m.tp as real, (m.tp + m.fn) as real)
            && IsRatio(m.f1, (2 * m.tp) as real, (2 * m.tp + m.fp + m.fn) as real)
            && IsRatio(m.accuracy, (m.tp + m.tn) as real, |labels| as real)
  {
    hide Count, SafeRatio, F1, IsRatio, Items;
    CountIsSize(labels, scores, threshold, low, true, true);
    CountIsSize(labels, scores, threshold, low, false, true);
    CountIsSize(labels, scores, threshold, low, true, false);
    CountIsSize(labels, scores, threshold, low, false, false);
    CountsAddUp(labels, scores, threshold, low);
    var m := Evaluate(labels, scores, threshold, low);
    SafeRatioIsRatio(m.tp as real, (m.tp + m.fp) as real);
    SafeRatioIsRatio(m.tp as real, (m.tp + m.fn) as real);
    SafeRatioIsRatio((m.tp + m.tn) as real, |labels| as real);
    HarmonicMean(m.tp, m.fp, m.fn, m.precision, m.recall);
  }

  lemma {:induction false} HarmonicMean(tp: nat, fp: nat, fn: nat, precision: real, recall: real)
    requires IsRatio(precision, tp as real, (tp + fp) as real) && IsRatio(recall, tp as real, (tp + fn) as real)
    ensures IsRatio(F1(precision, recall), (2 * tp) as real, (2 * tp + fp + fn) as real)
  {
    var a, b, c := tp as real, (tp + fp) as real, (tp + fn) as real;
    var f := F1(precision, recall);
    if tp == 0 {
      NoRatio(precision, b);
      NoRatio(recall, c);
    } else {
      PositiveRatio(precision, a, b);
      PositiveRatio(recall, a, c);
      assert f * (precision + recall) == 2.0 * precision * recall;
      MeanOfRatios(a, b, c, precision, recall, f);
      assert f * (b + c) == 2.0 * a;
    }
  }

  lemma {:induction false} NoRatio(r: real, b: real)
    requires IsRatio(r, 0.0, b)
    ensures r == 0.0
  {
  }

  lemma {:induction false} PositiveRatio(r: real, a: real, b: real)
    requires IsRatio(r, a, b) && a > 0.0 && b > 0.0
    ensures r > 0.0
  {
  }

  lemma {:induction false} MeanOfRatios(a: real, b: real, c: real, p: real, q: real, f: real)
    requires p * b == a && q * c == a && a > 0.0 && f * (p + q) == 2.0 * p * q
    ensures f * (b + c) == 2.0 * a
  {
    var t := f * (p + q);
    TimesSum(f, p, q, b, c, t, a, a);
    TimesProduct(p, q, b, c, t, a, a);
    Factored(f, a, b, c);
    Cancel(f * (b + c), 2.0 * a, a);
  }

  lemma {:induction false} TimesSum(f: real, p: real, q: real, b: real, c: real, t: real, pb: real, qc: real)
    requires t == f * (p + q) && pb == p * b && qc == q * c
    ensures t * (b * c) == f * (c * pb + b * qc)
  {
  }

  lemma {:induction false} TimesProduct(p: real, q: real, b: real, c: real, t: real, pb: real, qc: real)
    requires t == 2.0 * p * q && pb == p * b && qc == q * c
    ensures t * (b * c) == (2.0 * pb) * qc
  {
  }

  lemma {:induction false} Factored(f: real, a: real, b: real, c: real)
    ensures f * (c * a + b * a) == (f * (b + c)) * a
  {
  }

  lemma {:induction false} Cancel(x: real, y: real, a: real)
    requires x * a == y * a && a > 0.0
    ensures x == y
  {
    assert (x - y) * a == 0.0;
  }

  // Two thresholds that no score tells apart.
  predicate SamePredictions(scores: seq<real>, t: real, u: real, low: bool) {
    forall i | 0 <= i < |scores| :: Predicts(scores[i], t, low) == Predicts(scores[i], u, low)
  }

  lemma {:induction false} SameCounts(labels: seq<int>, scores: seq<real>, t: real, u: real, low: bool,
                                      positive: bool, predicted: bool)
    requires |labels| == |scores| && SamePredictions(scores, t, u, low)
    ensures Count(labels, scores, t, low, positive, predicted) == Count(labels, scores, u, low, positive, predicted)
  {
    if labels != [] {
      assert Predicts(scores[0], t, low) == Predicts(scores[0], u, low);
      assert SamePredictions(scores[1..], t, u, low) by {
        forall i | 0 <= i < |scores[1..]| ensures Predicts(scores[1..][i], t, low) == Predicts(scores[1..][i], u, low) {
          assert scores[1..][i] == scores[i + 1];
        }
      }
      SameCounts(labels[1..], scores[1..], t, u, low, positive, predicted);
    }
  }

  lemma {:induction false} SameMetrics(labels: seq<int>, scores: seq<real>, t: real, u: real, low: bool)
    requires |labels| == |scores| && SamePredictions(scores, t, u, low)
    ensures Evaluate(labels, scores, t, low) == Evaluate(labels, scores, u, low).(threshold := t)
  {
    hide Count, SamePredictions;
    SameCounts(labels, scores, t, u, low, true, true);
    SameCounts(labels, scores, t, u, low, false, true);
    SameCounts(labels, scores, t, u, low, true, false);
    SameCounts(labels, scores, t, u, low, false, false);
  }

  /******* Candidates *******/

  function Midpoints(u: seq<real>): seq<real> {
    if |u| < 2 then [] else [(u[0] + u[1]) / 2.0] + Midpoints(u[1..])
  }

  function Epsilon(u: seq<real>): (e: real)
    requires u != []
    ensures e > 0.0 && e >= 0.000000000001 && e >= (u[|u| - 1] - u[0]) * 0.000000001
    ensures e == 0.000000000001 || e == (u[|u| - 1] - u[0]) * 0.000000001
  {
    var spread := (u[|u| - 1] - u[0]) * 0.000000001;
    if spread > 0.000000000001 then spread else 0.000000000001
  }

  function Candidates(u: seq<real>): seq<real>
    requires u != []
  {
    [u[0] - Epsilon(u), u[|u| - 1] + Epsilon(u)] + Midpoints(u) + u
  }

  // c lies halfway between two neighbouring values.
  ghost predicate IsMidpoint(u: seq<real>, c: real) {
    exists i :: 0 <= i < |u| - 1 && c == (u[i] + u[i + 1]) / 2.0
  }

  // The candidates are the distinct values, the midpoints of neighbouring ones, and one threshold
  // beyond each end.
  lemma {:induction false} CandidatesAreThose(values: seq<real>)
    requires values != []
    ensures var u := Unique(values);
            && u != [] && IsIncreasing(u) && (forall x :: x in u <==> x in values)
            && forall c :: c in Candidates(u) <==>
                 c == u[0] - Epsilon(u) || c == u[|u| - 1] + Epsilon(u) || c in values || IsMidpoint(u, c)
  {
    InUnique(values, values[0]);
    UniqueIsSorted(values);
    var u := Unique(values);
    hide Unique, Epsilon, IsMidpoint, Candidates;
    forall c ensures c in Candidates(u) <==>
        c == u[0] - Epsilon(u) || c == u[|u| - 1] + Epsilon(u) || c in values || IsMidpoint(u, c)
    {
      InCandidates(u, c);
      InMidpoints(u, c);
    }
  }

  lemma {:induction false} InCandidates(u: seq<real>, c: real)
    requires u != []
    ensures c in Candidates(u)
            <==> c == u[0] - Epsilon(u) || c == u[|u| - 1] + Epsilon(u) || c in Midpoints(u) || c in u
  {
    hide Midpoints, Epsilon;
    var ends := [u[0] - Epsilon(u), u[|u| - 1] + Epsilon(u)];
    assert c in ends <==> c == ends[0] || c == ends[1];
  }

  lemma {:induction false} InMidpoints(u: seq<real>, c: real)
    ensures c in Midpoints(u) <==> IsMidpoint(u, c)
  {
    MidpointsAt(u);
    hide Midpoints;
    if c in Midpoints(u) {
      var i :| 0 <= i < |Midpoints(u)| && Midpoints(u)[i] == c;
      assert c == (u[i] + u[i + 1]) / 2.0;
    }
    if IsMidpoint(u, c) {
      var i :| 0 <= i < |u| - 1 && c == (u[i] + u[i + 1]) / 2.0;
      assert Midpoints(u)[i] == c;
    }
  }

  lemma {:induction false} MidpointsAt(u: seq<real>)
    ensures |Midpoints(u)| == if |u| == 0 then 0 else |u| - 1
    ensures forall i | 0 <= i < |u| - 1 :: Midpoints(u)[i] == (u[i] + u[i + 1]) / 2.0
  {
    if |u| >= 2 { MidpointsAt(u[1..]); }
  }

  // Where a real threshold falls among the values.
  lemma {:induction false} FirstAtLeast(u: seq<real>, t: real) returns (k: nat)
    requires u != [] && t <= u[|u| - 1]
    ensures k < |u| && t <= u[k] && forall m | 0 <= m < k :: u[m] < t
  {
    k := 0;
    while u[k] < t
      invariant k < |u| && forall m | 0 <= m < k :: u[m] < t
      decreases |u| - k
    {
      k := k + 1;
    }
  }

  ghost predicate IsRealised(values: seq<real>, candidates: seq<real>, t: real, low: bool) {
    exists c :: c in candidates && SamePredictions(values, t, c, low)
  }

  // Whatever a real threshold predicts, some candidate predicts too, in both directions.
  lemma {:induction false} CandidatesRealiseAll(values: seq<real>, t: real, low: bool)
    requires values != []
    ensures Unique(values) != [] && IsRealised(values, Candidates(Unique(values)), t, low)
  {
    hide Unique, Midpoints, Epsilon;
    var u := Unique(values);
    UniqueIsSorted(values);
    InUnique(values, values[0]);
    var last := |u| - 1;
    var c: real;
    if t > u[last] {
      c := u[last] + Epsilon(u);
      assert Candidates(u)[1] == c;
      forall i | 0 <= i < |values| ensures Predicts(values[i], t, low) == Predicts(values[i], c, low) {
        InUnique(values, values[i]);
      }
    } else {
      var k := FirstAtLeast(u, t);
      c := u[k];
      assert c in u;
      forall i | 0 <= i < |values| ensures Predicts(values[i], t, low) == Predicts(values[i], c, low) {
        InUnique(values, values[i]);
        var m :| 0 <= m < |u| && u[m] == values[i];
      }
    }
    assert c in Candidates(u) && SamePredictions(values, t, c, low);
  }

  /******* The choice *******/

  datatype Key = Key(f1: real, accuracy: real, precision: real, closeness: real)

  function KeyOf(m: Metrics, median: real): Key {
    Key(m.f1, m.accuracy, m.precision, if m.threshold < median then m.threshold - median else median - m.threshold)
  }

  // Tuples are compared from the left.
  predicate Less(a: Key, b: Key) {
    || a.f1 < b.f1
    || (a.f1 == b.f1 && a.accuracy < b.accuracy)
    || (a.f1 == b.f1 && a.accuracy == b.accuracy && a.precision < b.precision)
    || (a.f1 == b.f1 && a.accuracy == b.accuracy && a.precision == b.precision && a.closeness < b.closeness)
  }

  // The first of the greatest.
  function Best(items: seq<Metrics>, median: real): Metrics
    requires items != []
  {
    var last := |items| - 1;
    if last == 0 then items[0]
    else
      var best := Best(items[..last], median);
      if Less(KeyOf(best, median), KeyOf(items[last], median)) then items[last] else best
  }

  lemma {:induction false} BestIsGreatest(items: seq<Metrics>, median: real)
    requires items != []
    ensures exists i :: 0 <= i < |items| && items[i] == Best(items, median) && IsFirstGreatest(items, median, i)
  {
    var last := |items| - 1;
    if last == 0 {
      assert IsFirstGreatest(items, median, 0);
    } else {
      var earlier := items[..last];
      BestIsGreatest(earlier, median);
      var i :| 0 <= i < last && earlier[i] == Best(earlier, median) && IsFirstGreatest(earlier, median, i);
      var k := if Less(KeyOf(earlier[i], median), KeyOf(items[last], median)) then last else i;
      forall j | 0 <= j < |items|
        ensures !Less(KeyOf(items[k], median), KeyOf(items[j], median))
                && (j < k ==> KeyOf(items[j], median) != KeyOf(items[k], median))
      {
        if j < last { assert earlier[j] == items[j]; }
      }
      assert items[k] == Best(items, median) && IsFirstGreatest(items, median, k);
    }
  }

  ghost predicate IsFirstGreatest(items: seq<Metrics>, median: real, i: nat) {
    && i < |items|
    && forall j | 0 <= j < |items| ::
         && !Less(KeyOf(items[i], median), KeyOf(items[j], median))
         && (j < i ==> KeyOf(items[j], median) != KeyOf(items[i], median))
  }

  function EvaluateAll(labels: seq<int>, scores: seq<real>, thresholds: seq<real>, low: bool): (r: seq<Metrics>)
    requires |labels| == |scores|
    ensures |r| == |thresholds| && forall i | 0 <= i < |r| :: r[i] == Evaluate(labels, scores, thresholds[i], low)
  {
    if thresholds == [] then []
    else [Evaluate(labels, scores, thresholds[0], low)] + EvaluateAll(labels, scores, thresholds[1..], low)
  }

  lemma {:induction false} AllEvaluated(labels: seq<int>, scores: seq<real>, thresholds: seq<real>, low: bool, i: nat)
    requires |labels| == |scores| && i < |thresholds|
    ensures EvaluateAll(labels, scores, thresholds, low)[i] == Evaluate(labels, scores, thresholds[i], low)
    ensures Evaluate(labels, scores, thresholds[i], low).threshold == thresholds[i]
  {
    hide Count;
  }

  datatype Failure = NotAligned

  function SelectThreshold(labels: seq<int>, scores: seq<real>, low: bool): (r: Result<Metrics, Failure>)
    ensures r.Err? <==> |labels| == 0 || |labels| != |scores|
  {
    if |labels| == 0 || |labels| != |scores| then Err(NotAligned)
    else
      InUnique(scores, scores[0]);
      var candidates := Candidates(Unique(scores));
      InUnique(candidates, candidates[0]);
      Ok(Best(EvaluateAll(labels, scores, Unique(candidates), low), Median(scores)))
  }

  lemma {:induction false} SelectionIsBest(labels: seq<int>, scores: seq<real>, low: bool)
    requires |labels| == |scores| > 0
    ensures Unique(scores) != [] && Unique(Candidates(Unique(scores))) != []
    ensures SelectThreshold(labels, scores, low)
            == Ok(Best(EvaluateAll(labels, scores, Unique(Candidates(Unique(scores))), low), Median(scores)))
  {
    InUnique(scores, scores[0]);
    var candidates := Candidates(Unique(scores));
    InUnique(candidates, candidates[0]);
  }

  // Better in F1, then accuracy, then precision.
  predicate IsBetter(m: Metrics, n: Metrics) {
    || m.f1 > n.f1
    || (m.f1 == n.f1 && m.accuracy > n.accuracy)
    || (m.f1 == n.f1 && m.accuracy == n.accuracy && m.precision > n.precision)
  }

  // No real threshold at all does better than the selected one.
  lemma {:induction false} SelectionIsOptimal(labels: seq<int>, scores: seq<real>, low: bool)
    requires |labels| == |scores| > 0
    ensures var r := SelectThreshold(labels, scores, low);
            && r.Ok? && r.value == Evaluate(labels, scores, r.value.threshold, low)
            && forall t: real :: !IsBetter(Evaluate(labels, scores, t, low), r.value)
  {
    hide Evaluate, Candidates, Best, Unique, SamePredictions, EvaluateAll, Median;
    SelectionIsBest(labels, scores, low);
    var r := SelectThreshold(labels, scores, low).value;
    var thresholds := Unique(Candidates(Unique(scores)));
    var items := EvaluateAll(labels, scores, thresholds, low);
    BestIsGreatest(items, Median(scores));
    var i :| 0 <= i < |items| && items[i] == r && IsFirstGreatest(items, Median(scores), i);
    forall t: real ensures !IsBetter(Evaluate(labels, scores, t, low), r) {
      CandidatesRealiseAll(scores, t, low);
      var c :| c in Candidates(Unique(scores)) && SamePredictions(scores, t, c, low);
      InUnique(Candidates(Unique(scores)), c);
      var j :| 0 <= j < |thresholds| && thresholds[j] == c;
      SameMetrics(labels, scores, t, c, low);
      AllEvaluated(labels, scores, thresholds, low, j);
    }
    AllEvaluated(labels, scores, thresholds, low, i);
  }

  function Distance(a: real, b: real): real { if a < b then b - a else a - b }

  // Among the candidates that do equally well, the selected one is nearest to the median, and
  // the least of those.
  lemma {:induction false} TiesGoToTheMedian(labels: seq<int>, scores: seq<real>, low: bool, c: real)
    requires |labels| == |scores| > 0 && Unique(scores) != [] && c in Candidates(Unique(scores))
    ensures var r := SelectThreshold(labels, scores, low);
            && r.Ok?
            && (IsBetter(r.value, Evaluate(labels, scores, c, low))
                || Distance(r.value.threshold, Median(scores)) < Distance(c, Median(scores))
                || (Distance(r.value.threshold, Median(scores)) == Distance(c, Median(scores))
                    && r.value.threshold <= c))
  {
    hide Candidates, Best, Unique, SamePredictions, EvaluateAll, Median, Count, SafeRatio;
    SelectionIsBest(labels, scores, low);
    var r := SelectThreshold(labels, scores, low).value;
    var candidates := Candidates(Unique(scores));
    var thresholds := Unique(candidates);
    var items := EvaluateAll(labels, scores, thresholds, low);
    BestIsGreatest(items, Median(scores));
    var i :| 0 <= i < |items| && items[i] == r && IsFirstGreatest(items, Median(scores), i);
    InUnique(candidates, c);
    UniqueIsSorted(candidates);
    var j :| 0 <= j < |thresholds| && thresholds[j] == c;
    AllEvaluated(labels, scores, thresholds, low, i);
    AllEvaluated(labels, scores, thresholds, low, j);
    assert !Less(KeyOf(items[i], Median(scores)), KeyOf(items[j], Median(scores)));
    assert j < i ==> KeyOf(items[j], Median(scores)) != KeyOf(items[i], Median(scores));
    assert i < j ==> thresholds[i] < thresholds[j];
  }
}

/**
  Sparse rows: sums over shared features, the inverted index that computes them, and the
  compressed form in which rows are stored.
 */
module SparseSums {
  import opened Common

  type SparseRow = map<int, real>

  ghost function SumOver(keys: set<int>, f: int -> real): real {
    if keys == {} then 0.0
    else
      var k := Pick(keys);
      f(k) + SumOver(keys - {k}, f)
  }

  // The sum does not depend on the order of the keys.
  lemma {:induction false} SumRemove(keys: set<int>, k: int, f: int -> real)
    requires k in keys
    ensures SumOver(keys, f) == f(k) + SumOver(keys - {k}, f)
    decreases keys
  {
    var first := Pick(keys);
    if first != k {
      SumRemove(keys - {first}, k, f);
      SumRemove(keys - {k}, first, f);
      assert keys - {first} - {k} == keys - {k} - {first};
    }
  }

  function Product(q: SparseRow, d: SparseRow): int -> real {
    k => if k in q && k in d then q[k] * d[k] else 0.0
  }

  // The naive form: the sum of the products over the shared features.
  ghost function Dot(q: SparseRow, d: SparseRow): real {
    SumOver(q.Keys * d.Keys, Product(q, d))
  }

  // The part of the dot product that a set of features contributes.
  ghost function PartialDot(features: set<int>, q: SparseRow, d: SparseRow): real {
    SumOver(features * d.Keys, Product(q, d))
  }

  lemma {:induction false} NoFeatures(q: SparseRow, d: SparseRow)
    ensures PartialDot({}, q, d) == 0.0
  {
    assert {} * d.Keys == {};
  }

  lemma {:induction false} AllFeatures(features: set<int>, q: SparseRow, d: SparseRow)
    requires features == q.Keys
    ensures PartialDot(features, q, d) == Dot(q, d)
  {
  }

  lemma {:induction false} OneMoreFeature(features: set<int>, k: int, q: SparseRow, d: SparseRow)
    requires k !in features && k in q
    ensures PartialDot(features + {k}, q, d) == PartialDot(features, q, d) + if k in d then q[k] * d[k] else 0.0
  {
    if k in d {
      SumRemove((features + {k}) * d.Keys, k, Product(q, d));
      assert (features + {k}) * d.Keys - {k} == features * d.Keys;
    } else {
      assert (features + {k}) * d.Keys == features * d.Keys;
    }
  }
}

module InvertedIndex {
  import opened Common
  import opened SparseSums

  // The documents that have a feature, and their weights for it.
  datatype Posting = Posting(ids: seq<nat>, weights: seq<real>)

  const NO_POSTING := Posting([], [])

  function Append(p: Posting, id: nat, weight: real): Posting {
    Posting(p.ids + [id], p.weights + [weight])
  }

  // What the posting of a feature holds once the first n documents are indexed.
  function PostingOf(docs: seq<SparseRow>, n: nat, feature: int): (p: Posting)
    requires n <= |docs|
    ensures |p.ids| == |p.weights|
  {
    if n == 0 then NO_POSTING
    else
      var before := PostingOf(docs, n - 1, feature);
      if feature in docs[n - 1] then Append(before, n - 1, docs[n - 1][feature]) else before
  }

  function Find(postings: map<int, Posting>, feature: int): Posting {
    if feature in postings then postings[feature] else NO_POSTING
  }

  // Each document that has the feature is listed exactly once.
  ghost predicate IsPostingOf(docs: seq<SparseRow>, n: nat, feature: int, p: Posting)
    requires n <= |docs|
  {
    && |p.ids| == |p.weights|
    && (forall i, j | 0 <= i < j < |p.ids| :: p.ids[i] < p.ids[j])
    && (forall i | 0 <= i < |p.ids| ::
        p.ids[i] < n && feature in docs[p.ids[i]] && p.weights[i] == docs[p.ids[i]][feature])
    && (forall d: nat | d < n && feature in docs[d] :: d in p.ids)
  }

  lemma {:induction false} PostingListsOnce(docs: seq<SparseRow>, n: nat, feature: int)
    requires n <= |docs|
    ensures IsPostingOf(docs, n, feature, PostingOf(docs, n, feature))
  {
    if n > 0 {
      PostingListsOnce(docs, n - 1, feature);
      var before, p := PostingOf(docs, n - 1, feature), PostingOf(docs, n, feature);
      forall d: nat | d < n && feature in docs[d] ensures d in p.ids {
        if d < n - 1 {
          assert d in before.ids;
        } else {
          assert p.ids[|before.ids|] == d;
        }
      }
    }
  }

  method BuildPostings(docs: seq<SparseRow>) returns (postings: map<int, Posting>)
    ensures forall f :: Find(postings, f) == PostingOf(docs, |docs|, f)
    ensures forall f | f in postings :: postings[f] == PostingOf(docs, |docs|, f)
  {
    postings := map[];
    for n := 0 to |docs|
      invariant forall f :: Find(postings, f) == PostingOf(docs, n, f)
    {
      var row := docs[n];
      var pending := row.Keys;
      while pending != {}
        invariant pending <= row.Keys
        invariant forall f :: Find(postings, f) == PostingOf(docs, if f in row && f !in pending then n + 1 else n, f)
      {
        ghost var some := Pick(pending);
        assert some in pending;
        var feature: int :| feature in pending;
        postings := postings[feature := Append(Find(postings, feature), n, row[feature])];
        pending := pending - {feature};
      }
    }
  }

  /**
    output[query, ids] += scale * weights: all entries are read before any is written, so a
    document listed twice would be counted once.
   */
  method IndexedAdd(output: array2<real>, query: nat, ids: seq<nat>, weights: seq<real>, scale: real)
    requires query < output.Length0 && |ids| == |weights|
    requires forall i | 0 <= i < |ids| :: ids[i] < output.Length1
    requires forall i, j | 0 <= i < j < |ids| :: ids[i] < ids[j]
    modifies output
    ensures forall i | 0 <= i < |ids| :: output[query, ids[i]] == old(output[query, ids[i]]) + scale * weights[i]
    ensures forall d: nat | d < output.Length1 && d !in ids :: output[query, d] == old(output[query, d])
    ensures forall q: nat, d: nat | q < output.Length0 && d < output.Length1 && q != query ::
              output[q, d] == old(output[q, d])
  {
    var sums: seq<real> := [];
    for i := 0 to |ids|
      invariant |sums| == i && forall k | 0 <= k < i :: sums[k] == output[query, ids[k]] + scale * weights[k]
    {
      var product := scale * weights[i];
      ghost var before := sums;
      sums := sums + [output[query, ids[i]] + product];
      assert forall k | 0 <= k < i :: sums[k] == before[k];
    }
    for i := 0 to |ids|
      invariant forall k | 0 <= k < i :: output[query, ids[k]] == sums[k]
      invariant forall d: nat | d < output.Length1 && d !in ids :: output[query, d] == old(output[query, d])
      invariant forall q: nat, d: nat | q < output.Length0 && d < output.Length1 && q != query ::
                  output[q, d] == old(output[q, d])
    {
      output[query, ids[i]] := sums[i];
    }
  }

  // Every query is answered feature by feature from the postings.
  method SparseDotMatrix(queries: seq<SparseRow>, docs: seq<SparseRow>) returns (output: array2<real>)
    ensures fresh(output) && output.Length0 == |queries| && output.Length1 == |docs|
    ensures forall q: nat, d: nat | q < |queries| && d < |docs| :: output[q, d] == Dot(queries[q], docs[d])
  {
    var postings := BuildPostings(docs);
    output := new real[|queries|, |docs|]((_, _) => 0.0);
    for q := 0 to |queries|
      invariant forall p: nat, d: nat | p < q && d < |docs| :: output[p, d] == Dot(queries[p], docs[d])
      invariant forall p: nat, d: nat | q <= p < |queries| && d < |docs| :: output[p, d] == 0.0
    {
      AnswerQuery(queries[q], q, docs, postings, output);
    }
  }

  // One feature of a query: its posting is added to the row of the query, if there is one.
  method AddFeature(query: SparseRow, feature: int, ghost done: set<int>, q: nat, docs: seq<SparseRow>,
                    postings: map<int, Posting>, output: array2<real>)
    requires q < output.Length0 && output.Length1 == |docs|
    requires feature in query && feature !in done && Find(postings, feature) == PostingOf(docs, |docs|, feature)
    requires forall d: nat | d < |docs| :: output[q, d] == PartialDot(done, query, docs[d])
    modifies output
    ensures forall d: nat | d < |docs| :: output[q, d] == PartialDot(done + {feature}, query, docs[d])
    ensures forall p: nat, d: nat | p < output.Length0 && d < |docs| && p != q :: output[p, d] == old(output[p, d])
  {
    hide PartialDot, PostingOf;
    PostingListsOnce(docs, |docs|, feature);
    ghost var posting := Find(postings, feature);
    if feature in postings {
      var posting := postings[feature];
      IndexedAdd(output, q, posting.ids, posting.weights, query[feature]);
    }
    forall d: nat | d < |docs| ensures output[q, d] == PartialDot(done + {feature}, query, docs[d]) {
      OneMoreFeature(done, feature, query, docs[d]);
      if feature in docs[d] {
        assert d in posting.ids;
        var i :| 0 <= i < |posting.ids| && posting.ids[i] == d;
        assert posting.weights[i] == docs[d][feature];
      } else {
        assert d !in posting.ids;
      }
    }
  }

  method AnswerQuery(query: SparseRow, q: nat, docs: seq<SparseRow>, postings: map<int, Posting>, output: array2<real>)
    requires q < output.Length0 && output.Length1 == |docs|
    requires forall f :: Find(postings, f) == PostingOf(docs, |docs|, f)
    requires forall d: nat | d < |docs| :: output[q, d] == 0.0
    modifies output
    ensures forall d: nat | d < |docs| :: output[q, d] == Dot(query, docs[d])
    ensures forall p: nat, d: nat | p < output.Length0 && d < |docs| && p != q :: output[p, d] == old(output[p, d])
  {
    hide PartialDot, PostingOf;
    var pending := query.Keys;
    ghost var done: set<int> := {};
    forall d: nat | d < |docs| ensures output[q, d] == PartialDot(done, query, docs[d]) {
      NoFeatures(query, docs[d]);
    }
    while pending != {}
      invariant pending !! done && pending + done == query.Keys
      invariant forall d: nat | d < |docs| :: output[q, d] == PartialDot(done, query, docs[d])
      invariant forall p: nat, d: nat | p < output.Length0 && d < |docs| && p != q :: output[p, d] == old(output[p, d])
    {
      ghost var some := Pick(pending);
      assert some in pending;
      var feature: int :| feature in pending;
      AddFeature(query, feature, done, q, docs, postings, output);
      pending, done := pending - {feature}, done + {feature};
    }
    forall d: nat | d < |docs| ensures output[q, d] == Dot(query, docs[d]) {
      AllFeatures(done, query, docs[d]);
    }
  }
}

/** The compressed form of a list of sparse rows, and back. */
module CompressedRows {
  import opened Common
  import opened SparseSums

  predicate IsIncreasing(s: seq<int>) {
    forall i, j | 0 <= i < j < |s| :: s[i] < s[j]
  }

  // The arrays hold row r of the list between its two bounds, its indices in ascending order.
  ghost predicate HoldsRow(row: SparseRow, indptr: seq<nat>, indices: seq<int>, values: seq<real>, r: nat) {
    && r + 1 < |indptr| && indptr[r] <= indptr[r + 1] <= |indices| && |values| == |indices|
    && HoldsItems(row, indices[indptr[r]..indptr[r + 1]], values[indptr[r]..indptr[r + 1]])
  }

  ghost predicate HoldsItems(row: SparseRow, indices: seq<int>, values: seq<real>) {
    && |indices| == |values| && IsIncreasing(indices)
    && (forall k :: k in row <==> k in indices)
    && forall i | 0 <= i < |indices| :: indices[i] in row && row[indices[i]] == values[i]
  }

  ghost predicate IsCompressed(rows: seq<SparseRow>, indptr: seq<nat>, indices: seq<int>, values: seq<real>) {
    && |indptr| == |rows| + 1 && indptr[0] == 0 && indptr[|rows|] == |indices| == |values|
    && forall r: nat | r < |rows| :: HoldsRow(rows[r], indptr, indices, values, r)
  }

  function Repeated(count: nat): (r: seq<SparseRow>)
    ensures |r| == count && forall i | 0 <= i < count :: r[i] == map[]
  {
    if count == 0 then [] else [map[]] + Repeated(count - 1)
  }

  // No list, or an empty one, stands for that many empty rows.
  function RowsOrEmpty(sparse: Option<seq<SparseRow>>, count: nat): (rows: seq<SparseRow>)
    ensures sparse.Some? && |sparse.value| > 0 ==> rows == sparse.value
    ensures sparse.None? || |sparse.value| == 0 ==> |rows| == count && forall row | row in rows :: |row| == 0
  {
    if sparse.None? || sparse.value == [] then Repeated(count) else sparse.value
  }

  lemma {:induction false} LeastExists(keys: set<int>)
    requires keys != {}
    ensures exists k :: k in keys && forall j | j in keys :: k <= j
    decreases keys
  {
    var k := Pick(keys);
    if keys - {k} != {} {
      LeastExists(keys - {k});
      var m :| m in keys - {k} && forall j | j in keys - {k} :: m <= j;
      var least := if m < k then m else k;
      forall j | j in keys ensures least <= j {
        if j != k { assert j in keys - {k}; }
      }
      assert least in keys;
    } else {
      assert keys == {k};
    }
  }

  // The items of one row, sorted by index.
  method SortedItems(row: SparseRow) returns (indices: seq<int>, values: seq<real>)
    ensures HoldsItems(row, indices, values)
  {
    indices, values := [], [];
    var pending := row.Keys;
    while pending != {}
      invariant |indices| == |values| && IsIncreasing(indices) && pending <= row.Keys
      invariant forall k :: k in row <==> k in pending || k in indices
      invariant forall i | 0 <= i < |indices| :: indices[i] in row && row[indices[i]] == values[i]
      invariant forall i, k | 0 <= i < |indices| && k in pending :: indices[i] < k
    {
      LeastExists(pending);
      var k :| k in pending && forall j | j in pending :: k <= j;
      indices, values := indices + [k], values + [row[k]];
      pending := pending - {k};
    }
  }

  method SparseToArrays(sparse: Option<seq<SparseRow>>, count: nat)
    returns (indptr: seq<nat>, indices: seq<int>, values: seq<real>)
    ensures IsCompressed(RowsOrEmpty(sparse, count), indptr, indices, values)
  {
    var rows := RowsOrEmpty(sparse, count);
    indptr, indices, values := [0], [], [];
    for r := 0 to |rows|
      invariant |indptr| == r + 1 && indptr[0] == 0 && indptr[r] == |indices| == |values|
      invariant forall p: nat | p < r :: HoldsRow(rows[p], indptr, indices, values, p)
    {
      var more, weights := SortedItems(rows[r]);
      forall p: nat | p <= r
        ensures HoldsRow(rows[p], indptr + [|indices + more|], indices + more, values + weights, p)
      {
        AppendKeepsRow(rows, indptr, indices, values, more, weights, r, p);
      }
      indices, values := indices + more, values + weights;
      indptr := indptr + [|indices|];
    }
  }

  lemma {:induction false} AppendKeepsRow(rows: seq<SparseRow>, indptr: seq<nat>, indices: seq<int>, values: seq<real>,
                                          more: seq<int>, weights: seq<real>, r: nat, p: nat)
    requires p <= r < |rows| && |indptr| == r + 1 && indptr[r] == |indices| == |values|
    requires p < r ==> HoldsRow(rows[p], indptr, indices, values, p)
    requires p == r ==> HoldsItems(rows[r], more, weights)
    requires |more| == |weights|
    ensures HoldsRow(rows[p], indptr + [|indices + more|], indices + more, values + weights, p)
  {
    hide HoldsItems;
    if p == r {
      var start, end := |indices|, |indices + more|;
      assert (indices + more)[start..end] == more && (values + weights)[start..end] == weights;
    } else {
      var start, end := indptr[p], indptr[p + 1];
      assert (indices + more)[start..end] == indices[start..end]
          && (values + weights)[start..end] == values[start..end];
    }
  }

  // A slice of a list: a negative bound counts from the end, and none reaches beyond the list.
  function Slice<T>(s: seq<T>, start: int, end: int): seq<T> {
    var from, to := Bound(start, |s|), Bound(end, |s|);
    if from < to then s[from..to] else []
  }

  function Bound(i: int, size: nat): (b: nat)
    ensures b <= size
  {
    if i > size then size else if i >= 0 then i else if i + size >= 0 then i + size else 0
  }

  predicate IsLastOfItsKey(indices: seq<int>, i: nat) {
    i < |indices| && forall j | i < j < |indices| :: indices[j] != indices[i]
  }

  ghost predicate HasItem(row: SparseRow, k: int, v: real) {
    k in row && row[k] == v
  }

  // The dictionary of the zipped items: the last of equal indices gives the value.
  ghost predicate IsDictionaryOf(row: SparseRow, indices: seq<int>, values: seq<real>) {
    && |indices| == |values|
    && (forall k :: k in row <==> k in indices)
    && forall i: nat | IsLastOfItsKey(indices, i) :: HasItem(row, indices[i], values[i])
  }

  // The slices between two bounds can be zipped strictly.
  predicate AreZippable(indptr: seq<int>, indices: seq<int>, values: seq<real>, r: nat)
    requires r + 1 < |indptr|
  {
    |Slice(indices, indptr[r], indptr[r + 1])| == |Slice(values, indptr[r], indptr[r + 1])|
  }

  ghost predicate IsDecodedRow(row: SparseRow, indptr: seq<int>, indices: seq<int>, values: seq<real>, r: nat) {
    && r + 1 < |indptr|
    && IsDictionaryOf(row, Slice(indices, indptr[r], indptr[r + 1]), Slice(values, indptr[r], indptr[r + 1]))
  }

  // A strict zip refuses lists of different lengths.
  method DictionaryOf(indices: seq<int>, values: seq<real>) returns (row: Option<SparseRow>)
    ensures row.Some? <==> |indices| == |values|
    ensures row.Some? ==> IsDictionaryOf(row.value, indices, values)
  {
    if |indices| != |values| { return None; }
    hide IsDictionaryOf;
    var items: SparseRow := map[];
    NoItems();
    for i := 0 to |indices|
      invariant IsDictionaryOf(items, indices[..i], values[..i])
    {
      OneMoreItem(items, indices, values, i);
      items := items[indices[i] := values[i]];
    }
    assert indices[..|indices|] == indices && values[..|indices|] == values;
    row := Some(items);
  }

  lemma {:induction false} NoItems()
    ensures IsDictionaryOf(map[], [], [])
  {
  }

  lemma {:induction false} OneMoreItem(row: SparseRow, indices: seq<int>, values: seq<real>, n: nat)
    requires n < |indices| == |values| && IsDictionaryOf(row, indices[..n], values[..n])
    ensures IsDictionaryOf(row[indices[n] := values[n]], indices[..n + 1], values[..n + 1])
  {
    var before, more, read := indices[..n], indices[..n + 1], row[indices[n] := values[n]];
    forall i: nat | IsLastOfItsKey(more, i) ensures HasItem(read, more[i], values[..n + 1][i]) {
      if i < n {
        assert more[n] == indices[n] && more[i] == before[i];
        forall j | i < j < n ensures before[j] != before[i] { assert more[j] == before[j]; }
        assert IsLastOfItsKey(before, i) && HasItem(row, before[i], values[..n][i]);
      }
    }
    assert more == before + [indices[n]];
    KeysGrow(before, indices[n]);
  }

  lemma {:induction false} KeysGrow(indices: seq<int>, k: int)
    ensures forall x :: x in indices + [k] <==> x in indices || x == k
  {
  }

  /** Whatever the bounds: it gives rows exactly if every two slices are equally long. */
  method ArraysToSparse(indptr: seq<int>, indices: seq<int>, values: seq<real>) returns (rows: Option<seq<SparseRow>>)
    ensures rows.Some? <==> forall r: nat | r + 1 < |indptr| :: AreZippable(indptr, indices, values, r)
    ensures rows.Some? ==> |rows.value| == if indptr == [] then 0 else |indptr| - 1
    ensures rows.Some? ==>
              forall r: nat | r < |rows.value| :: IsDecodedRow(rows.value[r], indptr, indices, values, r)
  {
    hide IsDictionaryOf, Slice;
    var result: seq<SparseRow> := [];
    var r := 0;
    while r < |indptr| - 1
      invariant |result| == r && (indptr == [] ==> r == 0) && (indptr != [] ==> r + 1 <= |indptr|)
      invariant forall p: nat | p < r && p + 1 < |indptr| :: AreZippable(indptr, indices, values, p)
      invariant forall p: nat | p < r :: IsDecodedRow(result[p], indptr, indices, values, p)
    {
      var start, end := indptr[r], indptr[r + 1];
      var row := DictionaryOf(Slice(indices, start, end), Slice(values, start, end));
      if row.None? {
        assert !AreZippable(indptr, indices, values, r);
        return None;
      }
      result, r := result + [row.value], r + 1;
    }
    rows := Some(result);
  }

  lemma {:induction false} DictionaryGivesBack(row: SparseRow, read: SparseRow, indices: seq<int>, values: seq<real>)
    requires HoldsItems(row, indices, values) && IsDictionaryOf(read, indices, values)
    ensures read == row
  {
    forall k | k in row ensures k in read && read[k] == row[k] {
      var i :| 0 <= i < |indices| && indices[i] == k;
      assert IsLastOfItsKey(indices, i) && HasItem(read, k, values[i]);
    }
    assert forall k :: k in read <==> k in row;
  }

  // Between the bounds of a row its own slices are found.
  lemma {:induction false} SlicesOfRow(row: SparseRow, indptr: seq<nat>, indices: seq<int>, values: seq<real>, r: nat)
    requires HoldsRow(row, indptr, indices, values, r)
    ensures AreZippable(indptr, indices, values, r)
    ensures HoldsItems(row, Slice(indices, indptr[r], indptr[r + 1]), Slice(values, indptr[r], indptr[r + 1]))
  {
    hide HoldsItems;
    if indptr[r] == indptr[r + 1] {
      assert indices[indptr[r]..indptr[r + 1]] == [] && values[indptr[r]..indptr[r + 1]] == [];
    }
  }

  // Writing rows out and reading them back gives the rows, empty ones included.
  method RoundTrip(sparse: Option<seq<SparseRow>>, count: nat) returns (rows: Option<seq<SparseRow>>)
    ensures rows.Some?
    ensures sparse.Some? && |sparse.value| > 0 ==> rows == sparse
    ensures sparse.None? || |sparse.value| == 0 ==>
              |rows.value| == count && forall row | row in rows.value :: |row| == 0
  {
    var indptr, indices, values := SparseToArrays(sparse, count);
    ghost var given := RowsOrEmpty(sparse, count);
    forall r: nat | r + 1 < |indptr| ensures AreZippable(indptr, indices, values, r) {
      SlicesOfRow(given[r], indptr, indices, values, r);
    }
    hide HoldsRow, HoldsItems, AreZippable, IsDictionaryOf, Slice;
    rows := ArraysToSparse(indptr, indices, values);
    forall r: nat | r < |given| ensures rows.value[r] == given[r] {
      assert IsDecodedRow(rows.value[r], indptr, indices, values, r);
      SlicesOfRow(given[r], indptr, indices, values, r);
      DictionaryGivesBack(given[r], rows.value[r], Slice(indices, indptr[r], indptr[r + 1]),
                          Slice(values, indptr[r], indptr[r + 1]));
    }
    assert rows.value == given;
  }
}

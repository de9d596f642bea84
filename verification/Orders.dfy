/**
  Python's orders on strings and on tuples of strings, and its stable sort by a string key.
 */
module Orders {

  // Strings compare by code point; a proper prefix comes first.
  predicate StrLess(a: string, b: string) {
    if b == [] then false
    else if a == [] then true
    else a[0] < b[0] || (a[0] == b[0] && StrLess(a[1..], b[1..]))
  }

  // Up to k the two agree, and there the first one ends or has the lesser character.
  ghost predicate DiffersAt(a: string, b: string, k: nat) {
    && k <= |a| && k < |b| && a[..k] == b[..k]
    && (k == |a| || a[k] < b[k])
  }

  lemma {:induction false} StrLessIff(a: string, b: string)
    ensures StrLess(a, b) <==> exists k: nat :: DiffersAt(a, b, k)
  {
    if b != [] && (a == [] || a[0] < b[0]) {
      assert DiffersAt(a, b, 0);
    } else if b != [] && a[0] == b[0] {
      StrLessIff(a[1..], b[1..]);
      assert a == [a[0]] + a[1..] && b == [b[0]] + b[1..];
      if k: nat :| DiffersAt(a[1..], b[1..], k) { assert DiffersAt(a, b, k + 1); }
      if k: nat :| DiffersAt(a, b, k) {
        assert k > 0;
        assert a[1..][..k - 1] == a[..k][1..] && b[1..][..k - 1] == b[..k][1..];
        assert DiffersAt(a[1..], b[1..], k - 1);
      }
    } else {
      forall k: nat ensures !DiffersAt(a, b, k) {
        if 0 < k <= |a| && k < |b| { assert a[..k][0] == a[0] && b[..k][0] == b[0]; }
      }
    }
  }

  lemma {:induction false} StrIrreflexive(a: string)
    ensures !StrLess(a, a)
  {
    if a != [] { StrIrreflexive(a[1..]); }
  }

  lemma {:induction false} StrTransitive(a: string, b: string, c: string)
    requires StrLess(a, b) && StrLess(b, c)
    ensures StrLess(a, c)
  {
    if a != [] && a[0] == b[0] == c[0] { StrTransitive(a[1..], b[1..], c[1..]); }
  }

  lemma {:induction false} StrTotal(a: string, b: string)
    ensures StrLess(a, b) || a == b || StrLess(b, a)
  {
    if a != [] && b != [] && a[0] == b[0] {
      StrTotal(a[1..], b[1..]);
      assert a == [a[0]] + a[1..] && b == [b[0]] + b[1..];
    }
  }

  predicate StrAtMost(a: string, b: string) { a == b || StrLess(a, b) }

  // Tuples of strings compare element by element; a proper prefix comes first.
  predicate TupleLess(a: seq<string>, b: seq<string>) {
    if b == [] then false
    else if a == [] then true
    else StrLess(a[0], b[0]) || (a[0] == b[0] && TupleLess(a[1..], b[1..]))
  }

  ghost predicate TuplesDifferAt(a: seq<string>, b: seq<string>, k: nat) {
    && k <= |a| && k < |b| && a[..k] == b[..k]
    && (k == |a| || StrLess(a[k], b[k]))
  }

  lemma {:induction false} TupleLessIff(a: seq<string>, b: seq<string>)
    ensures TupleLess(a, b) <==> exists k: nat :: TuplesDifferAt(a, b, k)
  {
    if b != [] && (a == [] || StrLess(a[0], b[0])) {
      assert TuplesDifferAt(a, b, 0);
    } else if b != [] && a[0] == b[0] {
      TupleLessIff(a[1..], b[1..]);
      StrIrreflexive(a[0]);
      assert a == [a[0]] + a[1..] && b == [b[0]] + b[1..];
      if k: nat :| TuplesDifferAt(a[1..], b[1..], k) { assert TuplesDifferAt(a, b, k + 1); }
      if k: nat :| TuplesDifferAt(a, b, k) {
        assert k > 0;
        assert a[1..][..k - 1] == a[..k][1..] && b[1..][..k - 1] == b[..k][1..];
        assert TuplesDifferAt(a[1..], b[1..], k - 1);
      }
    } else {
      forall k: nat ensures !TuplesDifferAt(a, b, k) {
        if 0 < k <= |a| && k < |b| { assert a[..k][0] == a[0] && b[..k][0] == b[0]; }
      }
    }
  }

  predicate TupleAtMost(a: seq<string>, b: seq<string>) { a == b || TupleLess(a, b) }

  lemma {:induction false} TupleIrreflexive(a: seq<string>)
    ensures !TupleLess(a, a)
  {
    if a != [] {
      StrIrreflexive(a[0]);
      TupleIrreflexive(a[1..]);
    }
  }

  lemma {:induction false} TupleTransitive(a: seq<string>, b: seq<string>, c: seq<string>)
    requires TupleLess(a, b) && TupleLess(b, c)
    ensures TupleLess(a, c)
  {
    if a != [] {
      if StrLess(a[0], b[0]) && StrLess(b[0], c[0]) {
        StrTransitive(a[0], b[0], c[0]);
      } else if a[0] == b[0] && b[0] == c[0] {
        TupleTransitive(a[1..], b[1..], c[1..]);
      }
    }
  }

  lemma {:induction false} TupleTotal(a: seq<string>, b: seq<string>)
    ensures TupleLess(a, b) || a == b || TupleLess(b, a)
  {
    if a != [] && b != [] {
      StrTotal(a[0], b[0]);
      if a[0] == b[0] {
        TupleTotal(a[1..], b[1..]);
        assert a == [a[0]] + a[1..] && b == [b[0]] + b[1..];
      }
    }
  }

  // Appending to tuples of equal length keeps their order; for unequal lengths it need not.
  lemma {:induction false} TupleLessAppend(a: seq<string>, b: seq<string>, x: seq<string>, y: seq<string>)
    requires |a| == |b|
    requires TupleLess(a, b) || (a == b && TupleLess(x, y))
    ensures TupleLess(a + x, b + y)
  {
    if a == [] {
      assert a + x == x && b + y == y;
    } else {
      assert (a + x)[1..] == a[1..] + x && (b + y)[1..] == b[1..] + y;
      if !StrLess(a[0], b[0]) {
        TupleLessAppend(a[1..], b[1..], x, y);
      }
    }
  }

  /******* sorted(xs, key=...) *******/

  function Insert<T>(x: T, xs: seq<T>, key: T -> string): seq<T> {
    if xs == [] || !StrLess(key(xs[0]), key(x)) then [x] + xs else [xs[0]] + Insert(x, xs[1..], key)
  }

  function SortByKey<T>(xs: seq<T>, key: T -> string): seq<T> {
    if xs == [] then [] else Insert(xs[0], SortByKey(xs[1..], key), key)
  }

  lemma {:induction false} InsertPermutes<T>(x: T, xs: seq<T>, key: T -> string)
    ensures multiset(Insert(x, xs, key)) == multiset{x} + multiset(xs)
  {
    if xs != [] && StrLess(key(xs[0]), key(x)) {
      InsertPermutes(x, xs[1..], key);
      assert xs == [xs[0]] + xs[1..];
    }
  }

  lemma {:induction false} SortPermutes<T>(xs: seq<T>, key: T -> string)
    ensures multiset(SortByKey(xs, key)) == multiset(xs)
    ensures |SortByKey(xs, key)| == |xs|
  {
    if xs != [] {
      SortPermutes(xs[1..], key);
      InsertPermutes(xs[0], SortByKey(xs[1..], key), key);
      assert xs == [xs[0]] + xs[1..];
    }
    assert |multiset(SortByKey(xs, key))| == |multiset(xs)|;
  }

  // No later key is less than an earlier one.
  predicate IsSortedBy<T>(xs: seq<T>, key: T -> string) {
    forall i, j | 0 <= i < j < |xs| :: !StrLess(key(xs[j]), key(xs[i]))
  }

  // The items with one key, in order.
  function WithKey<T>(xs: seq<T>, key: T -> string, k: string): seq<T> {
    if xs == [] then [] else (if key(xs[0]) == k then [xs[0]] else []) + WithKey(xs[1..], key, k)
  }

  lemma {:induction false} NotLessTransitive(a: string, b: string, c: string)
    requires !StrLess(b, a) && !StrLess(c, b)
    ensures !StrLess(c, a)
  {
    StrTotal(a, b);
    if a != b && StrLess(c, a) { StrTransitive(c, a, b); }
  }

  lemma {:induction false} InsertKeepsSorted<T>(x: T, xs: seq<T>, key: T -> string)
    requires IsSortedBy(xs, key)
    ensures IsSortedBy(Insert(x, xs, key), key)
    ensures Insert(x, xs, key)[0] == x || (xs != [] && Insert(x, xs, key)[0] == xs[0])
  {
    var r := Insert(x, xs, key);
    if xs == [] || !StrLess(key(xs[0]), key(x)) {
      forall i, j | 0 <= i < j < |r| ensures !StrLess(key(r[j]), key(r[i])) {
        if i == 0 && j > 1 { NotLessTransitive(key(x), key(xs[0]), key(xs[j - 1])); }
      }
    } else {
      var rest := Insert(x, xs[1..], key);
      InsertKeepsSorted(x, xs[1..], key);
      forall j | 0 <= j < |rest| ensures !StrLess(key(rest[j]), key(xs[0])) {
        assert !StrLess(key(rest[0]), key(xs[0])) by {
          if StrLess(key(x), key(xs[0])) {
            StrTransitive(key(x), key(xs[0]), key(x));
            StrIrreflexive(key(x));
          }
        }
        if j > 0 { NotLessTransitive(key(xs[0]), key(rest[0]), key(rest[j])); }
      }
    }
  }

  lemma {:induction false} WithKeyOfFirst<T>(x: T, xs: seq<T>, key: T -> string, k: string)
    ensures WithKey([x] + xs, key, k) == (if key(x) == k then [x] else []) + WithKey(xs, key, k)
  {
    assert ([x] + xs)[1..] == xs;
  }

  lemma {:induction false} InsertIsStable<T>(x: T, xs: seq<T>, key: T -> string, k: string)
    ensures WithKey(Insert(x, xs, key), key, k) == (if key(x) == k then [x] else []) + WithKey(xs, key, k)
  {
    if xs != [] && StrLess(key(xs[0]), key(x)) {
      InsertIsStable(x, xs[1..], key, k);
      StrIrreflexive(key(x));
      assert Insert(x, xs, key) == [xs[0]] + Insert(x, xs[1..], key) && xs == [xs[0]] + xs[1..];
      hide Insert, StrLess, WithKey;
      WithKeyOfFirst(xs[0], Insert(x, xs[1..], key), key, k);
      WithKeyOfFirst(xs[0], xs[1..], key, k);
    } else {
      WithKeyOfFirst(x, xs, key, k);
    }
  }

  // Sorting is by the key, and keeps the order of items with equal keys.
  lemma {:induction false} SortSorts<T>(xs: seq<T>, key: T -> string)
    ensures IsSortedBy(SortByKey(xs, key), key)
    ensures forall k :: WithKey(SortByKey(xs, key), key, k) == WithKey(xs, key, k)
  {
    if xs != [] {
      SortSorts(xs[1..], key);
      InsertKeepsSorted(xs[0], SortByKey(xs[1..], key), key);
      forall k ensures WithKey(SortByKey(xs, key), key, k) == WithKey(xs, key, k) {
        InsertIsStable(xs[0], SortByKey(xs[1..], key), key, k);
      }
    }
  }
}

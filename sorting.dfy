/**
 * Python's `sorted(xs, key=..., reverse=...)`: a stable sort by a key.
 * The key order is a strict total order `lt` on the keys; `reverse=True`
 * is the same sort under the flipped order, which keeps equal keys in
 * their original order as Python does.  The model sorts by insertion,
 * placing each element before the first one whose key is not smaller.
 */
module Sorting {

  /** `lt` is irreflexive, transitive and total: a strict total order. */
  ghost predicate StrictTotal<K(!new)>(lt: (K, K) -> bool) {
    && (forall a :: !lt(a, a))
    && (forall a, b, c :: lt(a, b) && lt(b, c) ==> lt(a, c))
    && (forall a, b :: a == b || lt(a, b) || lt(b, a))
  }

  /** No element's key is smaller than the key of an element before it. */
  ghost predicate Sorted<T, K>(xs: seq<T>, key: T -> K, lt: (K, K) -> bool) {
    forall i, j :: 0 <= i < j < |xs| ==> !lt(key(xs[j]), key(xs[i]))
  }

  /** The elements of xs whose key is c, in their order in xs. */
  function WithKey<T, K(==)>(xs: seq<T>, key: T -> K, c: K): (r: seq<T>)
    ensures |r| <= |xs|
  {
    if xs == [] then [] else (if key(xs[0]) == c then [xs[0]] else []) + WithKey(xs[1..], key, c)
  }

  /** Insert x before the first element whose key is not smaller than x's. */
  function Insert<T, K>(x: T, s: seq<T>, key: T -> K, lt: (K, K) -> bool): (r: seq<T>)
    ensures multiset(r) == multiset(s) + multiset{x}
  {
    if s == [] || !lt(key(s[0]), key(x)) then [x] + s
    else
      assert s == [s[0]] + s[1..];
      [s[0]] + Insert(x, s[1..], key, lt)
  }

  /** `sorted(xs, key=key)` under the order lt. */
  function SortBy<T, K>(xs: seq<T>, key: T -> K, lt: (K, K) -> bool): (r: seq<T>)
    ensures multiset(r) == multiset(xs)
  {
    if xs == [] then []
    else
      assert xs == [xs[0]] + xs[1..];
      Insert(xs[0], SortBy(xs[1..], key, lt), key, lt)
  }

  lemma {:induction false} InsertSorted<T, K(!new)>(x: T, s: seq<T>, key: T -> K, lt: (K, K) -> bool)
    requires StrictTotal(lt) && Sorted(s, key, lt)
    ensures Sorted(Insert(x, s, key, lt), key, lt)
    ensures Insert(x, s, key, lt) != [] && Insert(x, s, key, lt)[0] in {x} + (if s == [] then {} else {s[0]})
  {
    if s != [] && lt(key(s[0]), key(x)) {
      InsertSorted(x, s[1..], key, lt);
      var t := Insert(x, s[1..], key, lt);
      var r := [s[0]] + t;
      forall j | 0 < j < |r| ensures !lt(key(r[j]), key(r[0])) {
        if r[j] == x {
        } else {
          assert r[j] in multiset(t);
          assert r[j] in multiset(s[1..]);
          var m :| 0 <= m < |s[1..]| && s[1..][m] == r[j];
          assert s[m + 1] == r[j];
        }
      }
    }
  }

  /** The result of SortBy is sorted. */
  lemma {:induction false} SortBySorted<T, K(!new)>(xs: seq<T>, key: T -> K, lt: (K, K) -> bool)
    requires StrictTotal(lt)
    ensures Sorted(SortBy(xs, key, lt), key, lt)
  {
    if xs != [] {
      SortBySorted(xs[1..], key, lt);
      InsertSorted(xs[0], SortBy(xs[1..], key, lt), key, lt);
    }
  }

  lemma {:induction false} InsertStable<T, K(!new)>(x: T, s: seq<T>, key: T -> K, lt: (K, K) -> bool, c: K)
    requires StrictTotal(lt)
    ensures WithKey(Insert(x, s, key, lt), key, c) == WithKey([x] + s, key, c)
  {
    if s != [] && lt(key(s[0]), key(x)) {
      InsertStable(x, s[1..], key, lt, c);
      assert ([s[0]] + Insert(x, s[1..], key, lt))[1..] == Insert(x, s[1..], key, lt);
      assert ([x] + s)[1..] == s;
      assert ([x] + s[1..])[1..] == s[1..];
      assert s == [s[0]] + s[1..];
      if key(x) == c {
        assert key(s[0]) != c;
      }
    }
  }

  /** Stability: the elements with any one key keep their original order. */
  lemma {:induction false} SortByStable<T, K(!new)>(xs: seq<T>, key: T -> K, lt: (K, K) -> bool, c: K)
    requires StrictTotal(lt)
    ensures WithKey(SortBy(xs, key, lt), key, c) == WithKey(xs, key, c)
  {
    if xs != [] {
      SortByStable(xs[1..], key, lt, c);
      InsertStable(xs[0], SortBy(xs[1..], key, lt), key, lt, c);
      assert ([xs[0]] + SortBy(xs[1..], key, lt))[1..] == SortBy(xs[1..], key, lt);
    }
  }

  /** No two elements share a value of g. */
  ghost predicate DistinctBy<T, G>(xs: seq<T>, g: T -> G) {
    forall i, j :: 0 <= i < j < |xs| ==> g(xs[i]) != g(xs[j])
  }

  /** An element whose g-value differs from all of a distinct sequence's extends it. */
  lemma ConsDistinct<T, G>(x: T, rest: seq<T>, g: T -> G)
    requires DistinctBy(rest, g) && forall y :: y in rest ==> g(y) != g(x)
    ensures DistinctBy([x] + rest, g)
  {
    var r := [x] + rest;
    forall i, j | 0 <= i < j < |r| ensures g(r[i]) != g(r[j]) {
      assert r[j] == rest[j - 1];
      if i > 0 {
        assert r[i] == rest[i - 1];
      }
    }
  }

  lemma {:induction false} InsertDistinct<T, K, G>(x: T, s: seq<T>, key: T -> K, lt: (K, K) -> bool, g: T -> G)
    requires DistinctBy([x] + s, g)
    ensures DistinctBy(Insert(x, s, key, lt), g)
  {
    if s != [] && lt(key(s[0]), key(x)) {
      var t := s[1..];
      var xs, xt := [x] + s, [x] + t;
      forall i, j | 0 <= i < j < |xt| ensures g(xt[i]) != g(xt[j]) {
        var i' := if i == 0 then 0 else i + 1;
        assert xt[i] == xs[i'] && xt[j] == xs[j + 1];
      }
      InsertDistinct(x, t, key, lt, g);
      var u := Insert(x, t, key, lt);
      var r := [s[0]] + u;
      forall j | 0 < j < |r| ensures g(r[0]) != g(r[j]) {
        assert r[j] in multiset(u);
        assert xs[1] == s[0] == r[0];
        if r[j] != x {
          assert r[j] in multiset(t);
          var m :| 0 <= m < |t| && t[m] == r[j];
          assert xs[m + 2] == r[j];
        } else {
          assert xs[0] == r[j];
        }
      }
      forall i, j | 0 < i < j < |r| ensures g(r[i]) != g(r[j]) {
        assert r[i] == u[i - 1] && r[j] == u[j - 1];
      }
    }
  }

  /** Sorting keeps elements' g-values pairwise distinct. */
  lemma {:induction false} SortByDistinct<T, K, G>(xs: seq<T>, key: T -> K, lt: (K, K) -> bool, g: T -> G)
    requires DistinctBy(xs, g)
    ensures DistinctBy(SortBy(xs, key, lt), g)
  {
    if xs != [] {
      var t := xs[1..];
      assert forall i :: 0 <= i < |t| ==> t[i] == xs[i + 1];
      SortByDistinct(t, key, lt, g);
      var u := SortBy(t, key, lt);
      var r := [xs[0]] + u;
      forall j | 0 < j < |r| ensures g(r[0]) != g(r[j]) {
        assert r[j] in multiset(t);
        var m :| 0 <= m < |t| && t[m] == r[j];
      }
      forall i, j | 0 < i < j < |r| ensures g(r[i]) != g(r[j]) {
        assert r[i] == u[i - 1] && r[j] == u[j - 1];
      }
      InsertDistinct(xs[0], u, key, lt, g);
    }
  }

  /** Python's `<` on strings: lexicographic by code point, a proper prefix first. */
  predicate StrLt(a: string, b: string) {
    if a == [] then b != []
    else if b == [] then false
    else if a[0] != b[0] then a[0] < b[0]
    else StrLt(a[1..], b[1..])
  }

  lemma {:induction false} StrLtIrreflexive(a: string)
    ensures !StrLt(a, a)
  {
    if a != [] {
      StrLtIrreflexive(a[1..]);
    }
  }

  lemma {:induction false} StrLtTransitive(a: string, b: string, c: string)
    requires StrLt(a, b) && StrLt(b, c)
    ensures StrLt(a, c)
  {
    if a != [] && b != [] && c != [] && a[0] == b[0] && b[0] == c[0] {
      StrLtTransitive(a[1..], b[1..], c[1..]);
    }
  }

  lemma {:induction false} StrLtTotal(a: string, b: string)
    ensures a == b || StrLt(a, b) || StrLt(b, a)
  {
    if a != [] && b != [] && a[0] == b[0] {
      StrLtTotal(a[1..], b[1..]);
      if a[1..] == b[1..] {
        assert a == [a[0]] + a[1..] && b == [b[0]] + b[1..];
      }
    }
  }

  /** Strings whose first characters differ compare by them. */
  lemma StrLtFirst(a: string, b: string)
    requires a != "" && b != "" && a[0] < b[0]
    ensures StrLt(a, b)
  {
  }

  /** A proper prefix comes first. */
  lemma {:induction false} StrLtPrefix(a: string, b: string)
    requires |a| < |b| && b[..|a|] == a
    ensures StrLt(a, b)
  {
    if a != "" {
      assert b[1..][..|a| - 1] == a[1..];
      StrLtPrefix(a[1..], b[1..]);
    }
  }

  /** Strings under `<` are a strict total order, so sorting by a string key is well defined. */
  lemma StrLtStrictTotal()
    ensures StrictTotal(StrLt)
  {
    forall a ensures !StrLt(a, a) {
      StrLtIrreflexive(a);
    }
    forall a, b, c | StrLt(a, b) && StrLt(b, c) ensures StrLt(a, c) {
      StrLtTransitive(a, b, c);
    }
    forall a, b ensures a == b || StrLt(a, b) || StrLt(b, a) {
      StrLtTotal(a, b);
    }
  }
}

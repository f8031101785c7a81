/** Order-preserving filtering and grouping (the `dropna` / `filter` / `groupby`
    steps of the front ends), and the sorted key order in which pandas visits groups. */
module Seqs {

  /** Keep, in order, the elements that satisfy `p`. */
  function Filter<T(!new)>(s: seq<T>, p: T -> bool): (r: seq<T>)
    ensures |r| <= |s|
    ensures forall k :: 0 <= k < |r| ==> p(r[k])
  {
    if s == [] then []
    else
      var rest := Filter(s[1..], p);
      if p(s[0]) then [s[0]] + rest else rest
  }

  /** Filtering keeps every copy of a passing value and no copy of the others. */
  lemma {:induction false} FilterMultiset<T(!new)>(s: seq<T>, p: T -> bool)
    ensures forall x :: multiset(Filter(s, p))[x] == if p(x) then multiset(s)[x] else 0
  {
    if s != [] {
      FilterMultiset(s[1..], p);
      assert s == [s[0]] + s[1..];
    }
  }

  lemma FilterMembership<T(!new)>(s: seq<T>, p: T -> bool, x: T)
    ensures x in Filter(s, p) <==> x in s && p(x)
  {
    FilterMultiset(s, p);
    assert x in Filter(s, p) <==> multiset(Filter(s, p))[x] > 0;
    assert x in s <==> multiset(s)[x] > 0;
  }

  /** Filtering distributes over concatenation, so a filter of a prefix is a prefix
      of the filter: the relative order of the kept elements is the input's. */
  lemma {:induction false} FilterConcat<T(!new)>(a: seq<T>, b: seq<T>, p: T -> bool)
    ensures Filter(a + b, p) == Filter(a, p) + Filter(b, p)
  {
    if a == [] {
      assert a + b == b;
    } else {
      assert (a + b)[0] == a[0];
      assert (a + b)[1..] == a[1..] + b;
      FilterConcat(a[1..], b, p);
      ConcatAssoc([a[0]], Filter(a[1..], p), Filter(b, p));
    }
  }

  lemma FilterSingleton<T(!new)>(x: T, p: T -> bool)
    ensures Filter([x], p) == if p(x) then [x] else []
  {
    assert [x][1..] == [];
  }

  lemma ConcatAssoc<T>(a: seq<T>, b: seq<T>, c: seq<T>)
    ensures a + b + c == a + (b + c)
  {
  }

  /** `r` is `s` with some elements left out and the order of the rest kept. */
  predicate Subsequence<T(==)>(r: seq<T>, s: seq<T>)
    decreases |s|
  {
    if r == [] then true
    else if s == [] then false
    else (r[0] == s[0] && Subsequence(r[1..], s[1..])) || Subsequence(r, s[1..])
  }

  /** Filtering keeps the survivors in their input order. */
  lemma {:induction false} FilterIsSubsequence<T(!new)>(s: seq<T>, p: T -> bool)
    ensures Subsequence(Filter(s, p), s)
  {
    if s != [] {
      FilterIsSubsequence(s[1..], p);
      assert s == [s[0]] + s[1..];
      var rest := Filter(s[1..], p);
      if p(s[0]) {
        assert Filter(s, p) == [s[0]] + rest;
        assert ([s[0]] + rest)[1..] == rest;
      }
    }
  }

  /** A filter every element passes keeps the whole sequence. */
  lemma {:induction false} FilterKeepsAll<T(!new)>(s: seq<T>, p: T -> bool)
    requires forall k :: 0 <= k < |s| ==> p(s[k])
    ensures Filter(s, p) == s
  {
    if s != [] {
      FilterKeepsAll(s[1..], p);
      assert s == [s[0]] + s[1..];
    }
  }

  /** The set of elements of a sequence. */
  function Elems<T>(s: seq<T>): set<T> {
    set x | x in s
  }

  predicate Distinct<T(==)>(s: seq<T>) {
    forall i, j :: 0 <= i < j < |s| ==> s[i] != s[j]
  }

  /** A sequence without repetitions holds each value at most once. */
  lemma {:induction false} DistinctAtMostOnce<T>(s: seq<T>, x: T)
    requires Distinct(s)
    ensures multiset(s)[x] <= 1
  {
    if s != [] {
      assert s == [s[0]] + s[1..];
      DistinctAtMostOnce(s[1..], x);
      if s[0] == x {
        assert x !in s[1..];
      }
    }
  }

  /** A value at two positions occurs at least twice. */
  lemma RepeatedTwice<T>(s: seq<T>, i: int, j: int)
    requires 0 <= i < j < |s| && s[i] == s[j]
    ensures multiset(s)[s[i]] >= 2
  {
    assert s == s[..i] + [s[i]] + s[i + 1..j] + [s[j]] + s[j + 1..];
  }

  /** The group of each key, in the order of `keys`; each group keeps the input
      order of its elements. */
  function GroupBy<T(!new), K(==)>(items: seq<T>, keyOf: T -> K, keys: seq<K>): (groups: seq<seq<T>>)
    ensures |groups| == |keys|
    ensures forall g :: 0 <= g < |groups| ==> groups[g] == Filter(items, x => keyOf(x) == keys[g])
  {
    seq(|keys|, g requires 0 <= g < |keys| => Filter(items, x => keyOf(x) == keys[g]))
  }

  /** A member of a group is an input element carrying that group's key. */
  lemma GroupMember<T(!new), K>(items: seq<T>, keyOf: T -> K, keys: seq<K>, g: int, x: T)
    requires 0 <= g < |keys| && x in GroupBy(items, keyOf, keys)[g]
    ensures x in items && keyOf(x) == keys[g]
  {
    FilterMembership(items, y => keyOf(y) == keys[g], x);
  }

  /** With distinct keys that cover every element's key, every element lands in
      exactly one group: the one of its own key. */
  lemma GroupByPartitions<T(!new), K>(items: seq<T>, keyOf: T -> K, keys: seq<K>, x: T)
    requires Distinct(keys)
    requires forall y :: y in items ==> keyOf(y) in keys
    requires x in items
    ensures exists g :: 0 <= g < |keys| && keys[g] == keyOf(x) && x in GroupBy(items, keyOf, keys)[g]
    ensures forall g :: 0 <= g < |keys| && x in GroupBy(items, keyOf, keys)[g] ==> keys[g] == keyOf(x)
  {
    var groups := GroupBy(items, keyOf, keys);
    var g :| 0 <= g < |keys| && keys[g] == keyOf(x);
    FilterMembership(items, y => keyOf(y) == keys[g], x);
    forall h | 0 <= h < |keys| && x in groups[h] ensures keys[h] == keyOf(x) {
      FilterMembership(items, y => keyOf(y) == keys[h], x);
    }
  }

  /** A member of a list holding the elements of `s` and `e` is `e` or a member of `s`. */
  lemma AddedMember<T>(r: seq<T>, s: seq<T>, e: T, x: T)
    requires multiset(r) == multiset(s) + multiset{e} && x in r
    ensures x == e || x in s
  {
    assert x in multiset(r);
  }

  /** A subset is no larger than its superset. */
  lemma {:induction false} SubsetCardinality<T>(a: set<T>, b: set<T>)
    requires a <= b
    ensures |a| <= |b|
    decreases |b|
  {
    if a != {} {
      var x :| x in a;
      SubsetCardinality(a - {x}, b - {x});
    }
  }

  // ---------------------------------------------------------------------------
  // Sorted keys

  /** Lexicographic order on code points: Python's `<` on `str`. */
  predicate LexLess(a: string, b: string)
    decreases |a|
  {
    if a == [] then b != []
    else b != [] && (a[0] < b[0] || (a[0] == b[0] && LexLess(a[1..], b[1..])))
  }

  lemma {:induction false} LexLessIrreflexive(a: string)
    ensures !LexLess(a, a)
    decreases |a|
  {
    if a != [] { LexLessIrreflexive(a[1..]); }
  }

  lemma {:induction false} LexLessTransitive(a: string, b: string, c: string)
    requires LexLess(a, b) && LexLess(b, c)
    ensures LexLess(a, c)
    decreases |a|
  {
    if a != [] && a[0] == b[0] && b[0] == c[0] {
      LexLessTransitive(a[1..], b[1..], c[1..]);
    }
  }

  lemma {:induction false} LexLessTotal(a: string, b: string)
    requires a != b
    ensures LexLess(a, b) || LexLess(b, a)
    decreases |a|
  {
    if a != [] && b != [] && a[0] == b[0] {
      assert a[1..] != b[1..] by { assert a == [a[0]] + a[1..] && b == [b[0]] + b[1..]; }
      LexLessTotal(a[1..], b[1..]);
    }
  }

  predicate StrictlySorted(s: seq<string>) {
    forall i, j :: 0 <= i < j < |s| ==> LexLess(s[i], s[j])
  }

  lemma StrictlySortedIsDistinct(s: seq<string>)
    requires StrictlySorted(s)
    ensures Distinct(s)
  {
    forall i, j | 0 <= i < j < |s| ensures s[i] != s[j] {
      if s[i] == s[j] { LexLessIrreflexive(s[i]); }
    }
  }

  /** Insert `k` into a strictly sorted list, unless it is already there. */
  function InsertSorted(k: string, s: seq<string>): (r: seq<string>)
    requires StrictlySorted(s)
    ensures StrictlySorted(r)
    ensures Elems(r) == Elems(s) + {k}
  {
    if s == [] then [k]
    else if k == s[0] then s
    else if LexLess(k, s[0]) then
      forall j | 0 <= j < |s| ensures LexLess(k, s[j]) {
        if j > 0 { LexLessTransitive(k, s[0], s[j]); }
      }
      [k] + s
    else
      LexLessTotal(k, s[0]);
      var rest := InsertSorted(k, s[1..]);
      assert Elems(s) == {s[0]} + Elems(s[1..]);
      forall x | x in rest ensures LexLess(s[0], x) {
        assert x in Elems(rest);
      }
      assert Elems([s[0]] + rest) == {s[0]} + Elems(rest);
      [s[0]] + rest
  }

  /** The distinct values of `xs`, in ascending order: the order in which
      `groupby` visits its groups. */
  function SortedDistinct(xs: seq<string>): (r: seq<string>)
    ensures StrictlySorted(r)
    ensures Elems(r) == Elems(xs)
  {
    if xs == [] then []
    else
      assert Elems(xs) == {xs[0]} + Elems(xs[1..]);
      InsertSorted(xs[0], SortedDistinct(xs[1..]))
  }

  /** A hedge pair with the 1-based number its front end gives it
      (`pair_id` in app.py, `id: pairId++` in script.js). */
  datatype Numbered<M> = HedgePair(id: nat, pair: M)

  /** Number the pairs 1, 2, ... in the order they are found. */
  function Number<M>(ms: seq<M>): (hs: seq<Numbered<M>>)
    ensures |hs| == |ms|
    ensures forall k :: 0 <= k < |hs| ==> hs[k].id == k + 1 && hs[k].pair == ms[k]
  {
    seq(|ms|, k requires 0 <= k < |ms| => HedgePair(k + 1, ms[k]))
  }

  /** One more pair gets the next number. */
  lemma NumberSnoc<M>(ms: seq<M>, m: M)
    ensures Number(ms + [m]) == Number(ms) + [HedgePair(|ms| + 1, m)]
  {
  }
}

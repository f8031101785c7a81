/** Counting occurrences into an insertion-ordered dictionary
    (`d[k] = d.get(k, 0) + 1`, `counts[k] = (counts[k] || 0) + 1`), and the
    descending sort by count that the pattern reports apply to the result. */
module Tally {
  import opened Seqs

  /** One dictionary item: a key and how often it occurred. */
  datatype Entry<K> = Entry(key: K, count: nat)

  /** The keys in order of first appearance, which is the iteration order of a
      dictionary filled in that order. */
  function Firsts<K(==)>(s: seq<K>): seq<K> {
    if s == [] then []
    else
      var f := Firsts(s[..|s| - 1]);
      if s[|s| - 1] in f then f else f + [s[|s| - 1]]
  }

  /** Each key of the input is listed, once. */
  lemma {:induction false} FirstsSpec<K>(s: seq<K>)
    ensures Distinct(Firsts(s)) && Elems(Firsts(s)) == Elems(s)
  {
    if s != [] {
      var init, last := s[..|s| - 1], s[|s| - 1];
      assert s == init + [last];
      assert Elems(s) == Elems(init) + {last};
      FirstsSpec(init);
      var f := Firsts(init);
      if last !in f {
        assert Elems(f + [last]) == Elems(f) + {last};
      }
    }
  }

  /** One more key joins the order only when it is new. */
  lemma FirstsSnoc<K>(s: seq<K>, x: K)
    ensures Firsts(s + [x]) == if x in Firsts(s) then Firsts(s) else Firsts(s) + [x]
  {
    assert (s + [x])[..|s|] == s;
  }

  /** The sum of the counts of `order`'s keys. */
  function CountsSum<K>(order: seq<K>, counts: map<K, nat>): nat
    requires Elems(order) <= counts.Keys
  {
    if order == [] then 0
    else
      assert Elems(order[1..]) <= Elems(order);
      counts[order[0]] + CountsSum(order[1..], counts)
  }

  /** The dictionary's items in iteration order. */
  function Items<K>(order: seq<K>, counts: map<K, nat>): (es: seq<Entry<K>>)
    requires Elems(order) <= counts.Keys
    ensures |es| == |order|
    ensures forall i :: 0 <= i < |es| ==> es[i] == Entry(order[i], counts[order[i]])
  {
    seq(|order|, i requires 0 <= i < |order| => Entry(order[i], counts[order[i]]))
  }

  /** The sum of the counts of a list of items. */
  function Sum<K>(es: seq<Entry<K>>): nat {
    if es == [] then 0 else es[0].count + Sum(es[1..])
  }

  /** The dictionary after `d[k] = d.get(k, 0) + 1` for each key of `s` in turn. */
  function Counts<K>(s: seq<K>): map<K, nat> {
    if s == [] then map[]
    else
      var m := Counts(s[..|s| - 1]);
      var k := s[|s| - 1];
      m[k := (if k in m then m[k] else 0) + 1]
  }

  /** Each key of the input is counted exactly as often as it occurs, and no
      other key is present. */
  lemma {:induction false} CountsAreOccurrences<K>(s: seq<K>)
    ensures Counts(s).Keys == Elems(s)
    ensures forall k :: k in Counts(s) ==> Counts(s)[k] == multiset(s)[k]
  {
    if s != [] {
      var init, k := s[..|s| - 1], s[|s| - 1];
      assert s == init + [k];
      assert Elems(s) == Elems(init) + {k};
      CountsAreOccurrences(init);
      assert k !in Counts(init) ==> multiset(init)[k] == 0 by {
        if multiset(init)[k] > 0 { assert k in init; assert k in Elems(init); }
      }
    }
  }

  /** Fill the dictionary from `keys`, one key at a time. Afterwards each key of
      the input is counted exactly as often as it occurs, the dictionary iterates
      in order of first appearance, and the counts add up to the input length. */
  method Count<K(==)>(keys: seq<K>) returns (order: seq<K>, counts: map<K, nat>)
    ensures order == Firsts(keys) && Distinct(order) && Elems(order) == Elems(keys)
    ensures counts.Keys == Elems(keys)
    ensures forall k :: k in counts ==> counts[k] == multiset(keys)[k]
    ensures Sum(Items(order, counts)) == |keys|
  {
    order, counts := [], map[];
    var i := 0;
    while i < |keys|
      invariant 0 <= i <= |keys|
      invariant order == Firsts(keys[..i]) && counts == Counts(keys[..i])
      invariant Distinct(order) && Elems(order) == counts.Keys
      invariant CountsSum(order, counts) == i
    {
      order, counts := CountNext(keys, i, order, counts);
      i := i + 1;
    }
    assert keys[..|keys|] == keys;
    Filled(keys, order, counts);
  }

  /** What the filled dictionary holds. */
  lemma Filled<K>(keys: seq<K>, order: seq<K>, counts: map<K, nat>)
    requires order == Firsts(keys) && counts == Counts(keys)
    requires Elems(order) == counts.Keys && CountsSum(order, counts) == |keys|
    ensures counts.Keys == Elems(keys)
    ensures forall k :: k in counts ==> counts[k] == multiset(keys)[k]
    ensures Sum(Items(order, counts)) == |keys|
  {
    CountsAreOccurrences(keys);
    ItemsSum(order, counts);
  }

  /** One iteration of the counting loop: the dictionary filled from `keys[..i]`
      becomes the one filled from `keys[..i + 1]`. */
  method CountNext<K(==)>(keys: seq<K>, i: nat, order: seq<K>, counts: map<K, nat>) returns (order': seq<K>, counts': map<K, nat>)
    requires i < |keys| && order == Firsts(keys[..i]) && counts == Counts(keys[..i])
    requires Distinct(order) && Elems(order) == counts.Keys
    ensures order' == Firsts(keys[..i + 1]) && counts' == Counts(keys[..i + 1])
    ensures Distinct(order') && Elems(order') == counts'.Keys
    ensures CountsSum(order', counts') == CountsSum(order, counts) + 1
  {
    CountStep(keys, i, order, counts);
    order', counts' := Bump(order, counts, keys[i]);
  }

  /** `d[k] = d.get(k, 0) + 1` on a dictionary whose iteration order is `order`. */
  method Bump<K(==)>(order: seq<K>, counts: map<K, nat>, k: K) returns (order': seq<K>, counts': map<K, nat>)
    requires Distinct(order) && Elems(order) == counts.Keys
    ensures counts' == counts[k := (if k in counts then counts[k] else 0) + 1]
    ensures order' == if k in order then order else order + [k]
    ensures Distinct(order') && Elems(order') == counts'.Keys
    ensures CountsSum(order', counts') == CountsSum(order, counts) + 1
  {
    assert k in counts <==> k in order by { assert k in Elems(order) <==> k in order; }
    if k in counts {
      SumAfterIncrement(order, counts, k);
      order', counts' := order, counts[k := counts[k] + 1];
    } else {
      SumAfterAppend(order, counts, k);
      assert Elems(order + [k]) == Elems(order) + {k};
      order', counts' := order + [k], counts[k := 1];
    }
  }

  /** One more key: the dictionary gains or bumps its entry, and the key joins
      the order when it is new. */
  lemma CountStep<K>(keys: seq<K>, i: nat, order: seq<K>, counts: map<K, nat>)
    requires i < |keys| && order == Firsts(keys[..i]) && counts == Counts(keys[..i])
    ensures Counts(keys[..i + 1]) == counts[keys[i] := (if keys[i] in counts then counts[keys[i]] else 0) + 1]
    ensures Firsts(keys[..i + 1]) == if keys[i] in order then order else order + [keys[i]]
  {
    var s := keys[..i + 1];
    assert s[..i] == keys[..i] && s[i] == keys[i];
  }

  /** Raising one listed key's count by one raises the sum by one. */
  lemma {:induction false} SumAfterIncrement<K>(order: seq<K>, counts: map<K, nat>, k: K)
    requires Distinct(order) && Elems(order) <= counts.Keys && k in order
    ensures Elems(order) <= counts[k := counts[k] + 1].Keys
    ensures CountsSum(order, counts[k := counts[k] + 1]) == CountsSum(order, counts) + 1
  {
    assert Elems(order[1..]) <= Elems(order);
    if order[0] == k {
      assert k !in order[1..];
      SumIgnoresOthers(order[1..], counts, k, counts[k] + 1);
    } else {
      assert k in order[1..];
      SumAfterIncrement(order[1..], counts, k);
    }
  }

  /** Appending a new key counted once raises the sum by one. */
  lemma SumAfterAppend<K>(order: seq<K>, counts: map<K, nat>, k: K)
    requires Elems(order) <= counts.Keys && k !in order
    ensures Elems(order + [k]) <= counts[k := 1].Keys
    ensures CountsSum(order + [k], counts[k := 1]) == CountsSum(order, counts) + 1
  {
    assert Elems(order + [k]) == Elems(order) + {k};
    SumIgnoresOthers(order, counts, k, 1);
    SumSnoc(order, k, counts[k := 1]);
  }

  /** The count of a key not in `order` does not enter the sum. */
  lemma {:induction false} SumIgnoresOthers<K>(order: seq<K>, counts: map<K, nat>, k: K, v: nat)
    requires Elems(order) <= counts.Keys && k !in order
    ensures CountsSum(order, counts[k := v]) == CountsSum(order, counts)
  {
    if order != [] {
      assert Elems(order[1..]) <= Elems(order);
      SumIgnoresOthers(order[1..], counts, k, v);
    }
  }

  lemma {:induction false} SumSnoc<K>(order: seq<K>, k: K, counts: map<K, nat>)
    requires Elems(order + [k]) <= counts.Keys
    ensures Elems(order) <= counts.Keys
    ensures CountsSum(order + [k], counts) == CountsSum(order, counts) + counts[k]
  {
    assert Elems(order + [k]) == Elems(order) + {k};
    if order != [] {
      assert (order + [k])[1..] == order[1..] + [k];
      assert Elems(order[1..]) <= Elems(order);
      SumSnoc(order[1..], k, counts);
    }
  }

  lemma {:induction false} ItemsSum<K>(order: seq<K>, counts: map<K, nat>)
    requires Elems(order) <= counts.Keys
    ensures Sum(Items(order, counts)) == CountsSum(order, counts)
  {
    if order != [] {
      assert Elems(order[1..]) <= Elems(order);
      assert Items(order, counts)[1..] == Items(order[1..], counts);
      ItemsSum(order[1..], counts);
    }
  }

  // ---------------------------------------------------------------------------
  // Sorting by count

  predicate NonIncreasing<K>(es: seq<Entry<K>>) {
    forall i, j :: 0 <= i < j < |es| ==> es[i].count >= es[j].count
  }

  /** Insert after every item whose count is at least `e`'s. */
  function InsertByCount<K(==)>(e: Entry<K>, s: seq<Entry<K>>): (r: seq<Entry<K>>)
    requires NonIncreasing(s)
    ensures NonIncreasing(r)
    ensures multiset(r) == multiset(s) + multiset{e}
    ensures Sum(r) == Sum(s) + e.count
  {
    if s == [] then [e]
    else if s[0].count < e.count then [e] + s
    else
      var rest := InsertByCount(e, s[1..]);
      assert s == [s[0]] + s[1..];
      HeadBoundsTail(s);
      forall x | x in rest ensures s[0].count >= x.count {
        AddedMember(rest, s[1..], e, x);
      }
      [s[0]] + rest
  }

  /** The head of a non-increasing list bounds the counts of its tail. */
  lemma HeadBoundsTail<K>(s: seq<Entry<K>>)
    requires s != [] && NonIncreasing(s)
    ensures forall x | x in s[1..] :: s[0].count >= x.count
  {
    forall x | x in s[1..] ensures s[0].count >= x.count {
      var j :| 0 <= j < |s[1..]| && s[1..][j] == x;
      assert s[j + 1] == x;
    }
  }

  /** `list.sort(key=lambda x: x['count'], reverse=True)`: the same items, by
      count from highest to lowest. */
  function SortByCount<K(==)>(es: seq<Entry<K>>): (r: seq<Entry<K>>)
    ensures NonIncreasing(r)
    ensures multiset(r) == multiset(es)
    ensures Sum(r) == Sum(es)
  {
    if es == [] then []
    else
      assert es == es[..|es| - 1] + [es[|es| - 1]];
      SumSnocEntry(es[..|es| - 1], es[|es| - 1]);
      InsertByCount(es[|es| - 1], SortByCount(es[..|es| - 1]))
  }

  lemma {:induction false} SumSnocEntry<K>(es: seq<Entry<K>>, e: Entry<K>)
    ensures Sum(es + [e]) == Sum(es) + e.count
  {
    if es != [] {
      assert (es + [e])[1..] == es[1..] + [e];
      SumSnocEntry(es[1..], e);
    }
  }

  /** The items whose count passes `keep`, in order. */
  function KeepCounts<K(==)>(es: seq<Entry<K>>, keep: nat -> bool): (r: seq<Entry<K>>)
    ensures multiset(r) <= multiset(es)
    ensures forall i :: 0 <= i < |r| ==> keep(r[i].count)
    ensures forall e :: e in es && keep(e.count) ==> e in r
  {
    if es == [] then []
    else
      assert es == [es[0]] + es[1..];
      var rest := KeepCounts(es[1..], keep);
      if keep(es[0].count) then [es[0]] + rest else rest
  }

  /** `order` and `counts` are the dictionary filled from `keys`. */
  ghost predicate Tallied<K>(keys: seq<K>, order: seq<K>, counts: map<K, nat>) {
    && order == Firsts(keys) && Distinct(order) && Elems(order) == Elems(keys)
    && counts.Keys == Elems(keys)
    && forall k :: k in counts ==> counts[k] == multiset(keys)[k]
  }

  /** An item of the filled dictionary is a key of the input with its number of
      occurrences. */
  lemma ItemOf<K>(keys: seq<K>, order: seq<K>, counts: map<K, nat>, e: Entry<K>)
    requires Tallied(keys, order, counts) && e in Items(order, counts)
    ensures e.key in keys && e.count == multiset(keys)[e.key]
  {
    var i :| 0 <= i < |order| && Items(order, counts)[i] == e;
    assert order[i] in Elems(order);
  }

  /** Every key of the input has its item. */
  lemma ItemFor<K>(keys: seq<K>, order: seq<K>, counts: map<K, nat>, k: K) returns (i: nat)
    requires Tallied(keys, order, counts) && k in keys
    ensures i < |order| && Items(order, counts)[i] == Entry(k, multiset(keys)[k])
  {
    assert k in Elems(order) by { assert k in Elems(keys); }
    i :| 0 <= i < |order| && order[i] == k;
  }

  /** Any selection from the items, in any order, names each key at most once. */
  lemma SelectionKeysDistinct<K>(order: seq<K>, counts: map<K, nat>, sel: seq<Entry<K>>)
    requires Distinct(order) && Elems(order) <= counts.Keys
    requires multiset(sel) <= multiset(Items(order, counts))
    ensures forall i, j :: 0 <= i < j < |sel| ==> sel[i].key != sel[j].key
  {
    var items := Items(order, counts);
    forall i, j | 0 <= i < j < |sel| ensures sel[i].key != sel[j].key {
      if sel[i].key == sel[j].key {
        assert sel[i] in multiset(items) && sel[j] in multiset(items);
        var a :| 0 <= a < |items| && items[a] == sel[i];
        var b :| 0 <= b < |items| && items[b] == sel[j];
        assert order[a] == order[b];
        assert forall x, y :: 0 <= x < y < |items| ==> items[x] != items[y];
        DistinctAtMostOnce(items, sel[i]);
        RepeatedTwice(sel, i, j);
      }
    }
  }
  /** Each item of a reordering of the items carries its key's number of occurrences. */
  lemma SortedItemsCount<K>(keys: seq<K>, order: seq<K>, counts: map<K, nat>, sel: seq<Entry<K>>)
    requires Tallied(keys, order, counts)
    requires multiset(sel) <= multiset(Items(order, counts))
    ensures forall i :: 0 <= i < |sel| ==> sel[i].count == multiset(keys)[sel[i].key]
  {
    forall i | 0 <= i < |sel| ensures sel[i].count == multiset(keys)[sel[i].key] {
      assert sel[i] in multiset(Items(order, counts));
      ItemOf(keys, order, counts, sel[i]);
    }
  }

  /** A reordering of all the items lists every key. */
  lemma SortedItemsComplete<K>(keys: seq<K>, order: seq<K>, counts: map<K, nat>, sel: seq<Entry<K>>)
    requires Tallied(keys, order, counts)
    requires multiset(sel) == multiset(Items(order, counts))
    ensures forall a :: a in keys ==> exists i :: 0 <= i < |sel| && sel[i].key == a
  {
    forall a | a in keys ensures exists i :: 0 <= i < |sel| && sel[i].key == a {
      var j := ItemFor(keys, order, counts, a);
      assert Items(order, counts)[j] in multiset(sel);
    }
  }


  /** Every item of a reordered selection passed the cut. */
  lemma SelectedPass<K>(es: seq<Entry<K>>, keep: nat -> bool, sel: seq<Entry<K>>)
    requires multiset(sel) == multiset(KeepCounts(es, keep))
    ensures forall i :: 0 <= i < |sel| ==> keep(sel[i].count)
  {
    forall i | 0 <= i < |sel| ensures keep(sel[i].count) {
      assert sel[i] in multiset(KeepCounts(es, keep));
    }
  }

  /** A reordered selection lists every key whose count passes the cut. */
  lemma SelectedComplete<K>(keys: seq<K>, order: seq<K>, counts: map<K, nat>, keep: nat -> bool, sel: seq<Entry<K>>)
    requires Tallied(keys, order, counts)
    requires multiset(sel) == multiset(KeepCounts(Items(order, counts), keep))
    ensures forall a :: a in keys && keep(multiset(keys)[a]) ==> exists i :: 0 <= i < |sel| && sel[i].key == a
  {
    forall a | a in keys && keep(multiset(keys)[a]) ensures exists i :: 0 <= i < |sel| && sel[i].key == a {
      var j := ItemFor(keys, order, counts, a);
      assert Items(order, counts)[j] in KeepCounts(Items(order, counts), keep);
      assert Items(order, counts)[j] in multiset(sel);
    }
  }

  // ---------------------------------------------------------------------------
  // The three reports built on a tally

  /** `max(counts)` of a list of items, 0 for none. */
  function MaxCount<K>(es: seq<Entry<K>>): (m: nat)
    ensures forall i :: 0 <= i < |es| ==> es[i].count <= m
    ensures es != [] ==> exists i :: 0 <= i < |es| && es[i].count == m
    ensures es == [] ==> m == 0
  {
    if es == [] then 0
    else
      var rest := MaxCount(es[1..]);
      if es[0].count >= rest then es[0].count
      else
        assert exists i :: 0 <= i < |es[1..]| && es[1..][i].count == rest;
        var i :| 0 <= i < |es[1..]| && es[1..][i].count == rest;
        assert es[i + 1].count == rest;
        rest
  }

  /** The cut for frequent users: `count >= 3`. */
  function AtLeastThree(count: nat): bool {
    count >= 3
  }

  /** The cut for peak hours: `count >= max_hour_count * 0.8`. */
  function NearMax(maxCount: nat): nat -> bool {
    count => count as real >= maxCount as real * 0.8
  }

  /** Frequent keys: each listed key occurs at least three times and is listed
      with its number of occurrences, every such key is listed, no key twice,
      from the highest count down. */
  ghost predicate Frequent<K>(keys: seq<K>, fu: seq<Entry<K>>) {
    && NonIncreasing(fu)
    && (forall i :: 0 <= i < |fu| ==> fu[i].count >= 3 && fu[i].count == multiset(keys)[fu[i].key])
    && (forall k :: k in keys && multiset(keys)[k] >= 3 ==> exists i :: 0 <= i < |fu| && fu[i].key == k)
    && (forall i, j :: 0 <= i < j < |fu| ==> fu[i].key != fu[j].key)
  }

  /** The keys a list of owner pairs contributes: each pair's first owner, then
      its second owner when that is a different one (`!=` in app.py, `!==` in
      script.js). */
  function OwnerKeys<K(==)>(ps: seq<(K, K)>): seq<K> {
    if ps == [] then []
    else
      var (a, b) := ps[|ps| - 1];
      OwnerKeys(ps[..|ps| - 1]) + [a] + (if a != b then [b] else [])
  }

  /** The number of pairs in which `u` is an owner. */
  function Mentions<K(==)>(ps: seq<(K, K)>, u: K): nat {
    if ps == [] then 0
    else
      var (a, b) := ps[|ps| - 1];
      Mentions(ps[..|ps| - 1], u) + (if a == u || b == u then 1 else 0)
  }

  /** An owner is counted once per pair it takes part in, even when it owns
      both sides. */
  lemma {:induction false} OwnerKeysCountMentions<K>(ps: seq<(K, K)>, u: K)
    ensures multiset(OwnerKeys(ps))[u] == Mentions(ps, u)
  {
    if ps != [] {
      OwnerKeysCountMentions(ps[..|ps| - 1], u);
    }
  }

  /** Frequent owners: each listed owner takes part in at least three pairs and
      is listed with that number, every such owner is listed, none twice, from
      the highest count down. */
  ghost predicate FrequentOwners<K(!new)>(ps: seq<(K, K)>, fu: seq<Entry<K>>) {
    && NonIncreasing(fu)
    && (forall i :: 0 <= i < |fu| ==> fu[i].count >= 3 && fu[i].count == Mentions(ps, fu[i].key))
    && (forall u :: Mentions(ps, u) >= 3 ==> exists i :: 0 <= i < |fu| && fu[i].key == u)
    && (forall i, j :: 0 <= i < j < |fu| ==> fu[i].key != fu[j].key)
  }

  /** Frequent keys among the owner keys are exactly the frequent owners. */
  lemma FrequentOwnersHold<K(!new)>(ps: seq<(K, K)>, fu: seq<Entry<K>>)
    requires Frequent(OwnerKeys(ps), fu)
    ensures FrequentOwners(ps, fu)
  {
    forall u ensures multiset(OwnerKeys(ps))[u] == Mentions(ps, u) {
      OwnerKeysCountMentions(ps, u);
    }
    forall u | Mentions(ps, u) >= 3 ensures exists i :: 0 <= i < |fu| && fu[i].key == u {
      assert u in multiset(OwnerKeys(ps));
    }
  }

  /** Peak keys: the first listed key is a most frequent one, every listed key
      reaches 80% of its count and every such key is listed, once, with its
      number of occurrences, from the highest count down. */
  ghost predicate Peak<K>(keys: seq<K>, pk: seq<Entry<K>>) {
    && NonIncreasing(pk)
    && (forall i :: 0 <= i < |pk| ==> pk[i].count == multiset(keys)[pk[i].key])
    && (forall i, j :: 0 <= i < j < |pk| ==> pk[i].key != pk[j].key)
    && (keys == [] <==> pk == [])
    && (pk != [] ==>
          && (forall k :: k in keys ==> multiset(keys)[k] <= pk[0].count)
          && (forall i :: 0 <= i < |pk| ==> pk[i].count as real >= pk[0].count as real * 0.8)
          && (forall k :: k in keys && multiset(keys)[k] as real >= pk[0].count as real * 0.8 ==>
                exists i :: 0 <= i < |pk| && pk[i].key == k))
  }

  /** A ranking: every key with its number of occurrences, once, from the
      highest count down; the counts add up to the number of keys. */
  ghost predicate Ranking<K>(keys: seq<K>, ad: seq<Entry<K>>) {
    && NonIncreasing(ad)
    && Sum(ad) == |keys|
    && (forall i :: 0 <= i < |ad| ==> ad[i].count == multiset(keys)[ad[i].key])
    && (forall k :: k in keys ==> exists i :: 0 <= i < |ad| && ad[i].key == k)
    && (forall i, j :: 0 <= i < j < |ad| ==> ad[i].key != ad[j].key)
  }

  /** Count, keep the items with at least three occurrences, sort by count. */
  method FrequentKeys<K(==)>(keys: seq<K>) returns (fu: seq<Entry<K>>)
    ensures Frequent(keys, fu)
  {
    var order, counts := Count(keys);
    fu := SortByCount(KeepCounts(Items(order, counts), AtLeastThree));
    SortedItemsCount(keys, order, counts, fu);
    SelectedPass(Items(order, counts), AtLeastThree, fu);
    SelectedComplete(keys, order, counts, AtLeastThree, fu);
    SelectionKeysDistinct(order, counts, fu);
  }

  /** Count, keep the items within 80% of the largest count, sort by count. */
  /** The frequent-user count: count the owner keys, keep three or more, sort. */
  method FrequentOwnerKeys<K(==,!new)>(ps: seq<(K, K)>) returns (fu: seq<Entry<K>>)
    ensures FrequentOwners(ps, fu)
  {
    fu := FrequentKeys(OwnerKeys(ps));
    FrequentOwnersHold(ps, fu);
  }

  method PeakKeys<K(==)>(keys: seq<K>) returns (pk: seq<Entry<K>>)
    ensures Peak(keys, pk)
  {
    var order, counts := Count(keys);
    var items := Items(order, counts);
    var maxCount := MaxCount(items);
    pk := SortByCount(KeepCounts(items, NearMax(maxCount)));
    if keys == [] {
      assert order == [];
    } else {
      PeakEntries(keys, order, counts, maxCount, pk);
    }
  }

  /** Count and sort every item by count. */
  method RankKeys<K(==)>(keys: seq<K>) returns (ad: seq<Entry<K>>)
    ensures Ranking(keys, ad)
  {
    var order, counts := Count(keys);
    ad := SortByCount(Items(order, counts));
    SortedItemsCount(keys, order, counts, ad);
    SortedItemsComplete(keys, order, counts, ad);
    SelectionKeysDistinct(order, counts, ad);
  }

  /** The kept and sorted items of a non-empty tally. */
  lemma PeakEntries<K>(keys: seq<K>, order: seq<K>, counts: map<K, nat>, maxCount: nat, pk: seq<Entry<K>>)
    requires keys != [] && Tallied(keys, order, counts)
    requires maxCount == MaxCount(Items(order, counts))
    requires pk == SortByCount(KeepCounts(Items(order, counts), NearMax(maxCount)))
    ensures Peak(keys, pk)
  {
    var items := Items(order, counts);
    SortedItemsCount(keys, order, counts, pk);
    SelectedPass(items, NearMax(maxCount), pk);
    SelectedComplete(keys, order, counts, NearMax(maxCount), pk);
    SelectionKeysDistinct(order, counts, pk);
    PeakStartsAtMax(keys, order, counts, maxCount, pk);
  }

  /** The most frequent key passes the cut, so the sorted list starts with its
      count, which bounds every key's count. */
  lemma PeakStartsAtMax<K>(keys: seq<K>, order: seq<K>, counts: map<K, nat>, maxCount: nat, pk: seq<Entry<K>>)
    requires keys != [] && Tallied(keys, order, counts)
    requires maxCount == MaxCount(Items(order, counts))
    requires pk == SortByCount(KeepCounts(Items(order, counts), NearMax(maxCount)))
    ensures pk != [] && pk[0].count == maxCount
    ensures forall k :: k in keys ==> multiset(keys)[k] <= maxCount
  {
    var first := ItemFor(keys, order, counts, keys[0]);
    TopIsKept(Items(order, counts), maxCount, pk);
    forall k | k in keys ensures multiset(keys)[k] <= maxCount {
      var a := ItemFor(keys, order, counts, k);
    }
  }

  /** A key of maximal count passes the 80% cut, so the sorted cut starts at the
      maximal count. */
  lemma TopIsKept<K>(items: seq<Entry<K>>, maxCount: nat, pk: seq<Entry<K>>)
    requires items != [] && maxCount == MaxCount(items)
    requires pk == SortByCount(KeepCounts(items, NearMax(maxCount)))
    ensures pk != [] && pk[0].count == maxCount
  {
    var kept := KeepCounts(items, NearMax(maxCount));
    var top :| 0 <= top < |items| && items[top].count == maxCount;
    assert NearMax(maxCount)(items[top].count);
    assert items[top] in kept;
    SameMembers(kept, pk, items[top]);
    HeadIsLargest(pk, items[top]);
    SameMembers(pk, kept, pk[0]);
    SubMember(kept, items, pk[0]);
  }

  lemma HeadIsLargest<K>(s: seq<Entry<K>>, x: Entry<K>)
    requires NonIncreasing(s) && x in s
    ensures s[0].count >= x.count
  {
    var j :| 0 <= j < |s| && s[j] == x;
    assert j == 0 || s[0].count >= s[j].count;
  }

  lemma SameMembers<T>(a: seq<T>, b: seq<T>, x: T)
    requires multiset(a) == multiset(b) && x in a
    ensures x in b
  {
    assert x in multiset(a);
  }

  lemma SubMember<T>(a: seq<T>, b: seq<T>, x: T)
    requires multiset(a) <= multiset(b) && x in a
    ensures x in b
  {
    assert x in multiset(a);
  }
}

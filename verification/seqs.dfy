/** Sequence operations behind the application's array idioms: `filter`,
    `[...new Set(xs)]`, `new Map(rows.map(r => [key(r), r]))` and the
    "push each row into the list under its key" grouping loop. */
module Seqs {
  import opened Wrappers

  /** `a` can be obtained from `b` by deleting elements, so `a` keeps `b`'s order. */
  ghost predicate IsSubseq<T>(a: seq<T>, b: seq<T>)
    decreases |b|
  {
    |a| == 0 || (|b| > 0 && if a[0] == b[0] then IsSubseq(a[1..], b[1..]) else IsSubseq(a, b[1..]))
  }

  /** No element occurs twice. */
  ghost predicate NoDup<T>(s: seq<T>) {
    forall i, j :: 0 <= i < j < |s| ==> s[i] != s[j]
  }

  /** `Array.prototype.filter`: the elements satisfying `p`, in their original order. */
  function Filter<T(!new)>(s: seq<T>, p: T -> bool): (r: seq<T>)
    ensures |r| <= |s|
    ensures forall x :: x in r <==> x in s && p(x)
    ensures IsSubseq(r, s)
  {
    if |s| == 0 then []
    else if p(s[0]) then [s[0]] + Filter(s[1..], p)
    else
      var rest := Filter(s[1..], p);
      assert |rest| > 0 ==> rest[0] != s[0];
      rest
  }

  /** Filtering keeps every copy of an element that satisfies `p` and no copy
      of one that does not. */
  lemma {:induction false} FilterCounts<T(!new)>(s: seq<T>, p: T -> bool)
    ensures forall x :: multiset(Filter(s, p))[x] == if p(x) then multiset(s)[x] else 0
    decreases |s|
  {
    if |s| > 0 {
      FilterCounts(s[1..], p);
      assert s == [s[0]] + s[1..];
      assert multiset(s) == multiset{s[0]} + multiset(s[1..]);
      if p(s[0]) {
        assert multiset(Filter(s, p)) == multiset{s[0]} + multiset(Filter(s[1..], p));
      }
    }
  }

  /** Filtering a concatenation filters each part. */
  lemma {:induction false} FilterAppend<T(!new)>(a: seq<T>, b: seq<T>, p: T -> bool)
    ensures Filter(a + b, p) == Filter(a, p) + Filter(b, p)
    decreases |a|
  {
    if |a| > 0 {
      assert (a + b)[1..] == a[1..] + b;
      FilterAppend(a[1..], b, p);
    } else {
      assert a + b == b;
    }
  }

  /** The elements whose key is `k`, in their original order. */
  function FilterKey<K(==,!new), V(!new)>(s: seq<V>, key: V -> K, k: K): (r: seq<V>)
    ensures forall x :: x in r <==> x in s && key(x) == k
    ensures IsSubseq(r, s)
  {
    Filter(s, (x: V) => key(x) == k)
  }

  /** The elements whose key is not `k`, in their original order. */
  function FilterOutKey<K(==,!new), V(!new)>(s: seq<V>, key: V -> K, k: K): (r: seq<V>)
    ensures forall x :: x in r <==> x in s && key(x) != k
    ensures IsSubseq(r, s)
  {
    Filter(s, (x: V) => key(x) != k)
  }

  /** Every copy of an element whose key is not `k` stays; no copy of one
      whose key is `k` does. */
  lemma FilterOutKeyCounts<K(!new), V(!new)>(s: seq<V>, key: V -> K, k: K)
    ensures forall x :: multiset(FilterOutKey(s, key, k))[x] == if key(x) != k then multiset(s)[x] else 0
  {
    FilterCounts(s, (x: V) => key(x) != k);
  }

  /** Every element either has key `k` or not: the two filters split the sequence. */
  lemma {:induction false} KeySplitCounts<K(!new), V(!new)>(s: seq<V>, key: V -> K, k: K)
    ensures |FilterOutKey(s, key, k)| + |FilterKey(s, key, k)| == |s|
    decreases |s|
  {
    if |s| > 0 {
      KeySplitCounts(s[1..], key, k);
    }
  }

  /** `FilterKey` of a sequence extended by one element. */
  lemma FilterKeySnoc<K(!new), V(!new)>(s: seq<V>, v: V, key: V -> K, k: K)
    ensures FilterKey(s + [v], key, k) == FilterKey(s, key, k) + (if key(v) == k then [v] else [])
  {
    FilterAppend(s, [v], (x: V) => key(x) == k);
  }

  /** `[...new Set(s)]`: each distinct element once, at its first occurrence. */
  function Dedup<T(==,!new)>(s: seq<T>): (r: seq<T>)
    ensures forall x :: x in r <==> x in s
    ensures NoDup(r)
    ensures |r| <= |s|
  {
    if |s| == 0 then []
    else if s[|s| - 1] in s[..|s| - 1] then Dedup(s[..|s| - 1])
    else Dedup(s[..|s| - 1]) + [s[|s| - 1]]
  }

  /** `map.get(k)` on a Dafny map. */
  function Get<K, V>(m: map<K, V>, k: K): Option<V> {
    if k in m then Some(m[k]) else None
  }

  /** `new Map(s.map(v => [key(v), v]))`: the entries are added left to right,
      so a later element overwrites an earlier one with the same key. */
  function IndexBy<K(==,!new), V(!new)>(s: seq<V>, key: V -> K): (m: map<K, V>)
    ensures forall k :: k in m <==> exists i :: 0 <= i < |s| && key(s[i]) == k
  {
    if |s| == 0 then map[]
    else
      var m := IndexBy(s[..|s| - 1], key);
      assert forall i :: 0 <= i < |s| - 1 ==> s[..|s| - 1][i] == s[i];
      m[key(s[|s| - 1]) := s[|s| - 1]]
  }

  /** Reference lookup: the last element whose key is `k`. */
  function LastWithKey<K(==,!new), V(!new)>(s: seq<V>, key: V -> K, k: K): (r: Option<V>)
    ensures r.Some? ==> r.value in s && key(r.value) == k
    ensures r.None? <==> forall i :: 0 <= i < |s| ==> key(s[i]) != k
  {
    if |s| == 0 then None
    else if key(s[|s| - 1]) == k then Some(s[|s| - 1])
    else
      var r := LastWithKey(s[..|s| - 1], key, k);
      assert forall i :: 0 <= i < |s| - 1 ==> s[..|s| - 1][i] == s[i];
      r
  }

  /** The last element with key `k` of a sequence extended by one element. */
  lemma LastWithKeySnoc<K(!new), V(!new)>(s: seq<V>, v: V, key: V -> K, k: K)
    ensures LastWithKey(s + [v], key, k) == if key(v) == k then Some(v) else LastWithKey(s, key, k)
  {
    assert (s + [v])[..|s|] == s;
  }

  /** A filter that keeps every element with key `k` keeps the last of them. */
  lemma {:induction false} FilterKeepsLastWithKey<K(!new), V(!new)>(s: seq<V>, p: V -> bool, key: V -> K, k: K)
    requires forall x :: key(x) == k ==> p(x)
    ensures LastWithKey(Filter(s, p), key, k) == LastWithKey(s, key, k)
    decreases |s|
  {
    if |s| > 0 {
      var init := s[..|s| - 1];
      var last := s[|s| - 1];
      assert s == init + [last];
      FilterAppend(init, [last], p);
      FilterKeepsLastWithKey(init, p, key, k);
      LastWithKeySnoc(init, last, key, k);
      var kept := Filter(init, p);
      if p(last) {
        assert Filter([last], p) == [last];
        LastWithKeySnoc(kept, last, key, k);
      } else {
        assert Filter([last], p) == [];
        assert Filter(s, p) == kept;
      }
    }
  }

  /** Looking a key up in the index built by `IndexBy` finds the last element
      with that key, or nothing when no element has it. */
  lemma {:induction false} IndexByFindsLast<K(!new), V(!new)>(s: seq<V>, key: V -> K, k: K)
    ensures Get(IndexBy(s, key), k) == LastWithKey(s, key, k)
    decreases |s|
  {
    if |s| > 0 {
      IndexByFindsLast(s[..|s| - 1], key, k);
    }
  }

  /** The "create the list on first sight, then push" loop: each key maps to
      its elements in their original order. */
  function GroupBy<K(==,!new), V(!new)>(s: seq<V>, key: V -> K): (m: map<K, seq<V>>)
    ensures forall k :: k in m <==> exists i :: 0 <= i < |s| && key(s[i]) == k
  {
    if |s| == 0 then map[]
    else
      var m := GroupBy(s[..|s| - 1], key);
      var k := key(s[|s| - 1]);
      assert forall i :: 0 <= i < |s| - 1 ==> s[..|s| - 1][i] == s[i];
      m[k := Get(m, k).GetOr([]) + [s[|s| - 1]]]
  }

  /** The group of `k` (or the empty list when `k` has no group) is exactly the
      elements whose key is `k`, in their original order. */
  lemma {:induction false} GroupByIsFilter<K(!new), V(!new)>(s: seq<V>, key: V -> K, k: K)
    ensures Get(GroupBy(s, key), k).GetOr([]) == FilterKey(s, key, k)
    decreases |s|
  {
    if |s| == 0 {
    } else {
      var init := s[..|s| - 1];
      var last := s[|s| - 1];
      GroupByIsFilter(init, key, k);
      assert s == init + [last];
      FilterKeySnoc(init, last, key, k);
    }
  }

  /** A filter that keeps every element returns the sequence itself. */
  lemma {:induction false} FilterKeepsAll<T(!new)>(s: seq<T>, p: T -> bool)
    requires forall i :: 0 <= i < |s| ==> p(s[i])
    ensures Filter(s, p) == s
    decreases |s|
  {
    if |s| > 0 {
      FilterKeepsAll(s[1..], p);
      assert s == [s[0]] + s[1..];
    }
  }

  /** `FilterOutKey` of a sequence extended by one element. */
  lemma FilterOutKeySnoc<K(!new), V(!new)>(s: seq<V>, v: V, key: V -> K, k: K)
    ensures FilterOutKey(s + [v], key, k) == FilterOutKey(s, key, k) + (if key(v) != k then [v] else [])
  {
    FilterAppend(s, [v], (x: V) => key(x) != k);
  }

  /** Filtering out a key no element has changes nothing. */
  lemma FilterOutAbsentKey<K(!new), V(!new)>(s: seq<V>, key: V -> K, k: K)
    requires forall i :: 0 <= i < |s| ==> key(s[i]) != k
    ensures FilterOutKey(s, key, k) == s
  {
    FilterKeepsAll(s, (x: V) => key(x) != k);
  }
}

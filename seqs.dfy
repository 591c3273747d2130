/** Generic list operations that the dashboard code performs with
    Array.prototype.filter, slice, Set and a stable sort. */
module Seqs {

  /** Array.prototype.filter: the elements satisfying p, in their original order. */
  function Filter<T>(s: seq<T>, p: T -> bool): (r: seq<T>)
    ensures |r| <= |s|
    ensures forall i :: 0 <= i < |r| ==> p(r[i])
  {
    if s == [] then []
    else (if p(s[0]) then [s[0]] else []) + Filter(s[1..], p)
  }

  /** What a filter keeps: elements of the input, and every element of the
      input that satisfies the predicate. Kept apart from Filter's contract so
      that these existential facts are only in scope where they are needed. */
  lemma {:induction false} FilterMembers<T>(s: seq<T>, p: T -> bool)
    ensures forall i :: 0 <= i < |Filter(s, p)| ==> Filter(s, p)[i] in s
    ensures forall i :: 0 <= i < |s| && p(s[i]) ==> s[i] in Filter(s, p)
  {
    if s != [] {
      FilterMembers(s[1..], p);
      var r := Filter(s, p);
      var rest := Filter(s[1..], p);
      forall i | 0 <= i < |r|
        ensures r[i] in s
      {
        if !p(s[0]) || i > 0 {
          var k := if p(s[0]) then i - 1 else i;
          assert r[i] == rest[k];
        }
      }
      forall i | 0 <= i < |s| && p(s[i])
        ensures s[i] in r
      {
        if i > 0 {
          assert s[i] == s[1..][i - 1];
        }
      }
    }
  }

  /** Number of elements satisfying p (`.filter(p).length`). */
  function Count<T>(s: seq<T>, p: T -> bool): nat {
    |Filter(s, p)|
  }

  /** `s.slice(0, n)` for n >= 0. */
  function Take<T>(s: seq<T>, n: nat): (r: seq<T>)
    ensures |r| == if |s| <= n then |s| else n
    ensures r <= s
  {
    if |s| <= n then s else s[..n]
  }

  /** `s.slice(-n)` for n > 0: the last n elements, or all of them when there are fewer. */
  function TakeLast<T>(s: seq<T>, n: nat): (r: seq<T>)
    ensures |r| == if |s| <= n then |s| else n
    ensures forall i :: 0 <= i < |r| ==> r[i] == s[|s| - |r| + i]
  {
    if |s| <= n then s else s[|s| - n..]
  }

  /** `Array.prototype.map`. */
  function Map<T, U>(s: seq<T>, f: T -> U): (r: seq<U>)
    ensures |r| == |s|
    ensures forall i :: 0 <= i < |s| ==> r[i] == f(s[i])
  {
    seq(|s|, i requires 0 <= i < |s| => f(s[i]))
  }

  /** `Array.prototype.reverse` on a copy. */
  function Reverse<T>(s: seq<T>): (r: seq<T>)
    ensures |r| == |s|
    ensures forall i :: 0 <= i < |s| ==> r[i] == s[|s| - 1 - i]
  {
    seq(|s|, i requires 0 <= i < |s| => s[|s| - 1 - i])
  }

  /** Maps with pointwise equal functions agree. */
  lemma MapCongruent<T, U>(s: seq<T>, f: T -> U, g: T -> U)
    requires forall i :: 0 <= i < |s| ==> f(s[i]) == g(s[i])
    ensures Map(s, f) == Map(s, g)
  {
  }

  /** `[...new Set(s)]`: every element once, at the place of its first occurrence. */
  function Dedup<T(==)>(s: seq<T>): (r: seq<T>)
    ensures Distinct(r)
    ensures forall i :: 0 <= i < |r| ==> r[i] in s
    ensures forall i :: 0 <= i < |s| ==> s[i] in r
    ensures |r| <= |s|
  {
    if s == [] then []
    else
      var init := Dedup(s[..|s| - 1]);
      var last := s[|s| - 1];
      assert s == s[..|s| - 1] + [last];
      if last in init then init else init + [last]
  }

  ghost predicate Distinct<T>(s: seq<T>) {
    forall i, j :: 0 <= i < j < |s| ==> s[i] != s[j]
  }

  /** r can be obtained from s by deleting elements: order is preserved. */
  ghost predicate SubseqOf<T>(r: seq<T>, s: seq<T>)
    decreases |s|
  {
    if r == [] then true
    else if s == [] then false
    else if r[0] == s[0] then SubseqOf(r[1..], s[1..])
    else SubseqOf(r, s[1..])
  }

  lemma {:induction false} SubseqRefl<T>(s: seq<T>)
    ensures SubseqOf(s, s)
  {
    if s != [] {
      SubseqRefl(s[1..]);
    }
  }

  /** Dropping the first element gives a subsequence. */
  lemma {:induction false} SubseqOfTail<T>(s: seq<T>)
    requires s != []
    ensures SubseqOf(s[1..], s)
  {
    if |s| > 1 {
      if s[1] == s[0] {
        SubseqOfTail(s[1..]);
        assert s[1..][1..] == s[2..];
      } else {
        SubseqRefl(s[1..]);
      }
    }
  }

  /** Putting an element in front keeps the old list as a subsequence. */
  lemma SubseqOfCons<T>(x: T, s: seq<T>)
    ensures SubseqOf(s, [x] + s)
  {
    assert ([x] + s)[1..] == s;
    if s != [] && s[0] == x {
      SubseqOfTail(s);
    } else {
      SubseqRefl(s);
    }
  }

  /** A filter keeps the relative order of what it keeps. */
  lemma {:induction false} FilterIsSubseq<T>(s: seq<T>, p: T -> bool)
    ensures SubseqOf(Filter(s, p), s)
  {
    if s != [] {
      FilterIsSubseq(s[1..], p);
      var r := Filter(s, p);
      if !p(s[0]) && r != [] {
        assert r == Filter(s[1..], p);
        assert p(r[0]);
      }
    }
  }

  lemma {:induction false} FilterAppend<T>(a: seq<T>, b: seq<T>, p: T -> bool)
    ensures Filter(a + b, p) == Filter(a, p) + Filter(b, p)
  {
    if a == [] {
      assert a + b == b;
    } else {
      assert (a + b)[1..] == a[1..] + b;
      FilterAppend(a[1..], b, p);
    }
  }

  /** Growing the input by one element at the end grows the filter by at most that element. */
  lemma FilterSnoc<T>(s: seq<T>, x: T, p: T -> bool)
    ensures Filter(s + [x], p) == Filter(s, p) + (if p(x) then [x] else [])
  {
    FilterAppend(s, [x], p);
    assert [x][1..] == [];
  }

  /** Filtering twice is filtering once with the conjunction. */
  lemma {:induction false} FilterFilter<T>(s: seq<T>, p: T -> bool, q: T -> bool, pq: T -> bool)
    requires forall x :: pq(x) == (p(x) && q(x))
    ensures Filter(Filter(s, p), q) == Filter(s, pq)
  {
    if s != [] {
      FilterFilter(s[1..], p, q, pq);
      var fs := Filter(s, p);
      if p(s[0]) {
        assert fs == [s[0]] + Filter(s[1..], p);
        assert fs[0] == s[0] && fs[1..] == Filter(s[1..], p);
      } else {
        assert fs == Filter(s[1..], p);
      }
    }
  }

  /** A filter whose predicate holds nowhere keeps nothing. */
  lemma {:induction false} FilterNone<T>(s: seq<T>, p: T -> bool)
    requires forall i :: 0 <= i < |s| ==> !p(s[i])
    ensures Filter(s, p) == []
  {
    if s != [] {
      FilterNone(s[1..], p);
    }
  }

  /** A filter whose predicate holds everywhere keeps everything. */
  lemma {:induction false} FilterAll<T>(s: seq<T>, p: T -> bool)
    requires forall i :: 0 <= i < |s| ==> p(s[i])
    ensures Filter(s, p) == s
  {
    if s != [] {
      FilterAll(s[1..], p);
    }
  }

  /** Filters with pointwise equal predicates agree. */
  lemma {:induction false} FilterCongruent<T>(s: seq<T>, p: T -> bool, q: T -> bool)
    requires forall i :: 0 <= i < |s| ==> p(s[i]) == q(s[i])
    ensures Filter(s, p) == Filter(s, q)
  {
    if s != [] {
      FilterCongruent(s[1..], p, q);
    }
  }

  /** Splitting by a predicate and by its negation accounts for every element. */
  lemma {:induction false} CountComplement<T>(s: seq<T>, p: T -> bool, q: T -> bool)
    requires forall x :: q(x) == !p(x)
    ensures Count(s, p) + Count(s, q) == |s|
  {
    if s != [] {
      CountComplement(s[1..], p, q);
    }
  }

  // ---------------------------------------------------------------------
  // Stable sort by an integer key (JavaScript's Array.prototype.sort is
  // stable since ES2019, so equal keys keep their input order).

  ghost predicate SortedBy<T>(s: seq<T>, key: T -> int) {
    forall i, j :: 0 <= i < j < |s| ==> key(s[i]) <= key(s[j])
  }

  /** Places x in front of the first element whose key is not smaller. */
  function Insert<T>(x: T, s: seq<T>, key: T -> int): (r: seq<T>)
    ensures |r| == |s| + 1
    ensures multiset(r) == multiset(s) + multiset{x}
  {
    if s == [] || key(x) <= key(s[0]) then [x] + s
    else
      assert s == [s[0]] + s[1..];
      [s[0]] + Insert(x, s[1..], key)
  }

  lemma {:induction false} InsertSorted<T>(x: T, s: seq<T>, key: T -> int)
    requires SortedBy(s, key)
    ensures SortedBy(Insert(x, s, key), key)
  {
    if s != [] && key(x) > key(s[0]) {
      var rest := Insert(x, s[1..], key);
      InsertSorted(x, s[1..], key);
      InsertAbove(x, s[1..], key, key(s[0]));
      var r := [s[0]] + rest;
      forall i, j | 0 <= i < j < |r|
        ensures key(r[i]) <= key(r[j])
      {
        if i > 0 {
          assert r[i] == rest[i - 1] && r[j] == rest[j - 1];
        } else {
          assert r[j] == rest[j - 1];
        }
      }
    }
  }

  /** Inserting an element no smaller than a bound into a sequence above
      that bound leaves it above the bound. */
  lemma InsertAbove<T>(x: T, s: seq<T>, key: T -> int, b: int)
    requires b <= key(x)
    requires forall i :: 0 <= i < |s| ==> b <= key(s[i])
    ensures forall i :: 0 <= i < |Insert(x, s, key)| ==> b <= key(Insert(x, s, key)[i])
  {
    var r := Insert(x, s, key);
    forall i | 0 <= i < |r|
      ensures b <= key(r[i])
    {
      assert r[i] in multiset(s) + multiset{x};
      if r[i] != x {
        assert r[i] in s;
      }
    }
  }

  /** Insertion sort on `key`, ascending and stable. */
  function SortBy<T>(s: seq<T>, key: T -> int): (r: seq<T>)
    ensures |r| == |s|
    ensures multiset(r) == multiset(s)
    ensures SortedBy(r, key)
  {
    if s == [] then []
    else
      assert s == [s[0]] + s[1..];
      var rest := SortBy(s[1..], key);
      InsertSorted(s[0], rest, key);
      Insert(s[0], rest, key)
  }

  /** The predicate "has key k", and its negation. */
  function KeyIs<T, K(==)>(key: T -> K, k: K): T -> bool {
    y => key(y) == k
  }

  function KeyIsNot<T, K(==)>(key: T -> K, k: K): T -> bool {
    y => key(y) != k
  }

  lemma {:induction false} InsertStable<T>(x: T, s: seq<T>, key: T -> int, k: int)
    ensures Filter(Insert(x, s, key), KeyIs(key, k)) == Filter([x] + s, KeyIs(key, k))
  {
    if s != [] && key(x) > key(s[0]) {
      InsertStable(x, s[1..], key, k);
      var p := KeyIs(key, k);
      assert ([x] + s)[1..] == s;
      assert ([x] + s[1..])[1..] == s[1..];
      assert ([s[0]] + Insert(x, s[1..], key))[1..] == Insert(x, s[1..], key);
    }
  }

  /** Stability: the elements sharing any one key appear in their input order. */
  lemma {:induction false} SortStable<T>(s: seq<T>, key: T -> int, k: int)
    ensures Filter(SortBy(s, key), KeyIs(key, k)) == Filter(s, KeyIs(key, k))
  {
    if s != [] {
      SortStable(s[1..], key, k);
      InsertStable(s[0], SortBy(s[1..], key), key, k);
      var p := KeyIs(key, k);
      assert ([s[0]] + SortBy(s[1..], key))[1..] == SortBy(s[1..], key);
    }
  }

  /** Sorting an already sorted list changes nothing. */
  lemma {:induction false} SortSortedIsIdentity<T>(s: seq<T>, key: T -> int)
    requires SortedBy(s, key)
    ensures SortBy(s, key) == s
  {
    if s != [] {
      assert SortedBy(s[1..], key);
      SortSortedIsIdentity(s[1..], key);
      assert s == [s[0]] + s[1..];
    }
  }

  // ---------------------------------------------------------------------
  // Grouping by a key

  /** The sizes of the groups of s under the keys ks, added up. */
  function SumCounts<T, K(==)>(s: seq<T>, key: T -> K, ks: seq<K>): nat {
    if ks == [] then 0 else Count(s, KeyIs(key, ks[0])) + SumCounts(s, key, ks[1..])
  }

  /** Removing the elements of a key outside ks changes none of the group sizes under ks. */
  lemma {:induction false} SumCountsWithout<T, K>(s: seq<T>, key: T -> K, ks: seq<K>, k: K)
    requires k !in ks
    ensures SumCounts(s, key, ks) == SumCounts(Filter(s, KeyIsNot(key, k)), key, ks)
  {
    if ks != [] {
      SumCountsWithout(s, key, ks[1..], k);
      FilterFilter(s, KeyIsNot(key, k), KeyIs(key, ks[0]), KeyIs(key, ks[0]));
    }
  }

  /** Dropping elements whose key lies outside ks changes none of the group sizes under ks. */
  lemma {:induction false} SumCountsRestrict<T, K>(s: seq<T>, key: T -> K, ks: seq<K>, p: T -> bool)
    requires forall x :: key(x) in ks ==> p(x)
    ensures SumCounts(Filter(s, p), key, ks) == SumCounts(s, key, ks)
  {
    if ks != [] {
      forall x | key(x) in ks[1..]
        ensures p(x)
      {
        assert key(x) in ks;
      }
      SumCountsRestrict(s, key, ks[1..], p);
      FilterFilter(s, p, KeyIs(key, ks[0]), KeyIs(key, ks[0]));
    }
  }

  /** Groups under distinct keys that cover every element partition the list:
      their sizes add up to its length. */
  lemma {:induction false} PartitionByKey<T, K>(s: seq<T>, key: T -> K, ks: seq<K>)
    requires Distinct(ks)
    requires forall i :: 0 <= i < |s| ==> key(s[i]) in ks
    ensures SumCounts(s, key, ks) == |s|
    decreases |ks|
  {
    if ks != [] {
      var k := ks[0];
      var rest := Filter(s, KeyIsNot(key, k));
      FilterMembers(s, KeyIsNot(key, k));
      assert k !in ks[1..] by {
        forall j | 0 <= j < |ks[1..]|
          ensures ks[1..][j] != k
        {
          assert ks[1..][j] == ks[j + 1];
        }
      }
      forall i | 0 <= i < |rest|
        ensures key(rest[i]) in ks[1..]
      {
        var j :| 0 <= j < |s| && s[j] == rest[i];
        assert key(rest[i]) in ks && key(rest[i]) != k;
      }
      assert Distinct(ks[1..]) by {
        forall a, b | 0 <= a < b < |ks[1..]|
          ensures ks[1..][a] != ks[1..][b]
        {
          assert ks[1..][a] == ks[a + 1] && ks[1..][b] == ks[b + 1];
        }
      }
      PartitionByKey(rest, key, ks[1..]);
      SumCountsWithout(s, key, ks[1..], k);
      CountComplement(s, KeyIs(key, k), KeyIsNot(key, k));
    }
  }

  /** The sum of f over a list (a `reduce` with `+`). */
  function SumOver<E>(s: seq<E>, f: E -> nat): nat {
    if s == [] then 0 else f(s[0]) + SumOver(s[1..], f)
  }

  /** Entries built one per key, each counting its key's group, add up to the group sizes. */
  lemma {:induction false} SumOverGroups<T, K, E>(s: seq<T>, key: T -> K, keys: seq<K>, mk: K -> E, f: E -> nat)
    requires forall k :: f(mk(k)) == Count(s, KeyIs(key, k))
    ensures SumOver(Map(keys, mk), f) == SumCounts(s, key, keys)
  {
    if keys != [] {
      assert Map(keys, mk)[1..] == Map(keys[1..], mk);
      SumOverGroups(s, key, keys[1..], mk, f);
    }
  }

  /** Dropping the entries that add nothing leaves a sum unchanged. */
  lemma {:induction false} SumOverPositive<E>(s: seq<E>, f: E -> nat, p: E -> bool)
    requires forall e :: p(e) == (f(e) > 0)
    ensures SumOver(Filter(s, p), f) == SumOver(s, f)
  {
    if s != [] {
      SumOverPositive(s[1..], f, p);
      if p(s[0]) {
        assert Filter(s, p) == [s[0]] + Filter(s[1..], p);
        assert Filter(s, p)[1..] == Filter(s[1..], p);
      } else {
        assert Filter(s, p) == Filter(s[1..], p);
        assert f(s[0]) == 0;
      }
    }
  }
}

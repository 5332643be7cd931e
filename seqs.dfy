/**
 * The two array primitives the task list is built from: `Array.prototype.filter` and
 * `Array.prototype.sort`, which section 23.1.3.30 of ECMA-262 (2023 edition) requires
 * to be stable.
 */
module Seqs {

  /** `s.filter(p)`. */
  function Filter<T>(s: seq<T>, p: T -> bool): (r: seq<T>)
    ensures |r| <= |s|
  {
    if s == [] then [] else (if p(s[0]) then [s[0]] else []) + Filter(s[1..], p)
  }

  /** Filtering keeps everything when every element passes. */
  lemma {:induction false} FilterAll<T>(s: seq<T>, p: T -> bool)
    requires forall i :: 0 <= i < |s| ==> p(s[i])
    ensures Filter(s, p) == s
  {
    if s != [] {
      FilterAll(s[1..], p);
    }
  }

  lemma FilterIdempotent<T>(s: seq<T>, p: T -> bool)
    ensures Filter(Filter(s, p), p) == Filter(s, p)
  {
    FilterMembers(s, p);
    var r := Filter(s, p);
    FilterAll(r, p);
  }

  /** Filtering by a predicate and by its negation splits the length of `s`. */
  lemma {:induction false} FilterComplement<T>(s: seq<T>, p: T -> bool, q: T -> bool)
    requires forall x :: q(x) == !p(x)
    ensures |Filter(s, p)| + |Filter(s, q)| == |s|
  {
    if s != [] {
      FilterComplement(s[1..], p, q);
    }
  }

  /** The positions `i..|s|-1` of `s` whose elements pass `p`, in increasing order. */
  function KeptFrom<T>(s: seq<T>, p: T -> bool, i: nat): seq<nat>
    requires i <= |s|
    decreases |s| - i
  {
    if i == |s| then [] else (if p(s[i]) then [i] else []) + KeptFrom(s, p, i + 1)
  }

  lemma {:induction false} FilterFrom<T>(s: seq<T>, p: T -> bool, i: nat)
    requires i <= |s|
    ensures |Filter(s[i..], p)| == |KeptFrom(s, p, i)|
    ensures forall n :: 0 <= n < |KeptFrom(s, p, i)| ==>
      i <= KeptFrom(s, p, i)[n] < |s| && Filter(s[i..], p)[n] == s[KeptFrom(s, p, i)[n]]
    ensures forall n, m :: 0 <= n < m < |KeptFrom(s, p, i)| ==> KeptFrom(s, p, i)[n] < KeptFrom(s, p, i)[m]
    ensures forall j :: i <= j < |s| ==> (j in KeptFrom(s, p, i) <==> p(s[j]))
    decreases |s| - i
  {
    if i < |s| {
      FilterFrom(s, p, i + 1);
      var r', ks' := Filter(s[i + 1..], p), KeptFrom(s, p, i + 1);
      assert s[i..][1..] == s[i + 1..];
      assert s[i..][0] == s[i];
      if p(s[i]) {
        assert Filter(s[i..], p) == [s[i]] + r';
        assert KeptFrom(s, p, i) == [i] + ks';
      } else {
        assert Filter(s[i..], p) == r';
        assert KeptFrom(s, p, i) == ks';
      }
    }
  }

  /**
   * `r` is `s` read at exactly the positions whose elements pass `p`, in increasing order:
   * an order-preserving subsequence that drops nothing that passes.
   */
  ghost predicate InOrderSelection<T>(r: seq<T>, s: seq<T>, p: T -> bool) {
    var ks := KeptFrom(s, p, 0);
    |r| == |ks|
    && (forall n :: 0 <= n < |ks| ==> ks[n] < |s| && r[n] == s[ks[n]])
    && (forall n, m :: 0 <= n < m < |ks| ==> ks[n] < ks[m])
    && (forall j :: 0 <= j < |s| ==> (j in ks <==> p(s[j])))
  }

  lemma FilterPositions<T>(s: seq<T>, p: T -> bool)
    ensures InOrderSelection(Filter(s, p), s, p)
  {
    FilterFrom(s, p, 0);
    assert s[0..] == s;
  }

  /** Every kept element passes and comes from `s`; every passing element of `s` is kept. */
  lemma FilterMembers<T>(s: seq<T>, p: T -> bool)
    ensures forall n :: 0 <= n < |Filter(s, p)| ==> Filter(s, p)[n] in s && p(Filter(s, p)[n])
    ensures forall j :: 0 <= j < |s| && p(s[j]) ==> s[j] in Filter(s, p)
  {
    var r, ks := Filter(s, p), KeptFrom(s, p, 0);
    FilterPositions(s, p);
    forall n | 0 <= n < |r| ensures r[n] in s && p(r[n]) {
      assert ks[n] in ks;
    }
    forall j | 0 <= j < |s| && p(s[j]) ensures s[j] in r {
      var n :| 0 <= n < |ks| && ks[n] == j;
      assert r[n] == s[j];
    }
  }

  /** Filtering depends only on which elements pass. */
  lemma {:induction false} FilterExtensional<T>(s: seq<T>, p: T -> bool, q: T -> bool)
    requires forall i :: 0 <= i < |s| ==> p(s[i]) == q(s[i])
    ensures Filter(s, p) == Filter(s, q)
  {
    if s != [] {
      FilterExtensional(s[1..], p, q);
    }
  }

  /** Ascending by `key`, as a comparator `key(a) - key(b)` orders it. */
  predicate Sorted<T>(s: seq<T>, key: T -> int) {
    forall i, j :: 0 <= i < j < |s| ==> key(s[i]) <= key(s[j])
  }

  /** The elements whose key is `k`: one equivalence class of the comparator. */
  function HasKey<T>(key: T -> int, k: int): T -> bool {
    x => key(x) == k
  }

  /** Puts `x` in front of the first element whose key is not below its own. */
  function Insert<T>(x: T, s: seq<T>, key: T -> int): (r: seq<T>)
    ensures multiset(r) == multiset(s) + multiset{x}
  {
    if s == [] || key(x) <= key(s[0]) then [x] + s
    else
      assert s == [s[0]] + s[1..];
      [s[0]] + Insert(x, s[1..], key)
  }

  lemma {:induction false} InsertSorted<T>(x: T, s: seq<T>, key: T -> int)
    requires Sorted(s, key)
    ensures Sorted(Insert(x, s, key), key)
  {
    if s != [] && key(x) > key(s[0]) {
      var t := Insert(x, s[1..], key);
      InsertSorted(x, s[1..], key);
      forall i | 0 <= i < |t| ensures key(s[0]) <= key(t[i]) {
        var y := t[i];
        assert y in multiset(t);
        if y != x {
          assert y in multiset(s[1..]);
          var j :| 0 <= j < |s[1..]| && s[1..][j] == y;
          assert s[j + 1] == y;
        }
      }
    }
  }

  /** A stable sort of `s` by ascending `key`. */
  function SortBy<T>(s: seq<T>, key: T -> int): (r: seq<T>)
    ensures multiset(r) == multiset(s)
    ensures Sorted(r, key)
  {
    if s == [] then []
    else
      var t := SortBy(s[1..], key);
      InsertSorted(s[0], t, key);
      assert s == [s[0]] + s[1..];
      Insert(s[0], t, key)
  }

  /** Filtering a sequence that starts with `a` decides `a` first. */
  lemma FilterCons<T>(a: T, s: seq<T>, p: T -> bool)
    ensures Filter([a] + s, p) == (if p(a) then [a] else []) + Filter(s, p)
  {
    assert ([a] + s)[1..] == s;
  }

  /** `x` lands after every element of smaller key, so among the elements of its own
      key it comes first; the other keys' elements keep their order. */
  lemma {:induction false} InsertStable<T>(x: T, s: seq<T>, key: T -> int, k: int)
    ensures Filter(Insert(x, s, key), HasKey(key, k))
         == (if key(x) == k then [x] else []) + Filter(s, HasKey(key, k))
  {
    var p := HasKey(key, k);
    if s == [] || key(x) <= key(s[0]) {
      FilterCons(x, s, p);
    } else {
      InsertStable(x, s[1..], key, k);
      FilterCons(s[0], Insert(x, s[1..], key), p);
      FilterCons(s[0], s[1..], p);
      assert [s[0]] + s[1..] == s;
    }
  }

  /** Stability: the elements of each key appear in the sorted result in input order. */
  lemma {:induction false} SortByStable<T>(s: seq<T>, key: T -> int, k: int)
    ensures Filter(SortBy(s, key), HasKey(key, k)) == Filter(s, HasKey(key, k))
  {
    if s != [] {
      SortByStable(s[1..], key, k);
      InsertStable(s[0], SortBy(s[1..], key), key, k);
    }
  }

  /** The head of a non-empty sorted sequence has the least key of any element with key `k`. */
  lemma HeadKeyLeast<T>(b: seq<T>, key: T -> int, k: int)
    requires Sorted(b, key) && b != [] && Filter(b, HasKey(key, k)) != []
    ensures key(b[0]) <= k
  {
    var r := Filter(b, HasKey(key, k));
    FilterMembers(b, HasKey(key, k));
    assert r[0] in b && HasKey(key, k)(r[0]);
    var j :| 0 <= j < |b| && b[j] == r[0];
  }

  /** Equal filterings of two sequences with the same head filter their tails equally. */
  lemma FilterTails<T>(a: seq<T>, b: seq<T>, p: T -> bool)
    requires a != [] && b != [] && a[0] == b[0] && Filter(a, p) == Filter(b, p)
    ensures Filter(a[1..], p) == Filter(b[1..], p)
  {
    FilterCons(a[0], a[1..], p);
    FilterCons(b[0], b[1..], p);
    assert [a[0]] + a[1..] == a;
    assert [b[0]] + b[1..] == b;
    var x := if p(a[0]) then [a[0]] else [];
    assert (x + Filter(a[1..], p))[|x|..] == Filter(a[1..], p);
    assert (x + Filter(b[1..], p))[|x|..] == Filter(b[1..], p);
  }

  /** Two sorted sequences with the same elements of each key, in the same order, are equal. */
  lemma {:induction false} SortedStableUnique<T>(a: seq<T>, b: seq<T>, key: T -> int)
    requires Sorted(a, key) && Sorted(b, key)
    requires forall k :: Filter(a, HasKey(key, k)) == Filter(b, HasKey(key, k))
    ensures a == b
    decreases |a| + |b|
  {
    if a != [] {
      FilterCons(a[0], a[1..], HasKey(key, key(a[0])));
      assert [a[0]] + a[1..] == a;
    }
    if b != [] {
      FilterCons(b[0], b[1..], HasKey(key, key(b[0])));
      assert [b[0]] + b[1..] == b;
    }
    if a != [] && b != [] {
      var ka, kb := key(a[0]), key(b[0]);
      assert Filter(a, HasKey(key, ka)) == Filter(b, HasKey(key, ka));
      assert Filter(a, HasKey(key, kb)) == Filter(b, HasKey(key, kb));
      HeadKeyLeast(b, key, ka);
      HeadKeyLeast(a, key, kb);
      assert HasKey(key, ka)(a[0]) && HasKey(key, ka)(b[0]);
      assert Filter(a, HasKey(key, ka))[0] == a[0];
      forall k ensures Filter(a[1..], HasKey(key, k)) == Filter(b[1..], HasKey(key, k)) {
        FilterTails(a, b, HasKey(key, k));
      }
      SortedStableUnique(a[1..], b[1..], key);
    }
  }

  /**
   * `SortBy` is the only result a stable sort may give: any ordering of `s` that is sorted
   * by `key` and keeps each key's elements in input order is `SortBy(s, key)`.
   */
  lemma StableSortUnique<T>(s: seq<T>, r: seq<T>, key: T -> int)
    requires Sorted(r, key)
    requires forall k :: Filter(r, HasKey(key, k)) == Filter(s, HasKey(key, k))
    ensures r == SortBy(s, key)
  {
    forall k ensures Filter(r, HasKey(key, k)) == Filter(SortBy(s, key), HasKey(key, k)) {
      SortByStable(s, key, k);
    }
    SortedStableUnique(r, SortBy(s, key), key);
  }
}

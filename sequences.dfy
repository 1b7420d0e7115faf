/** The list operations the pricing engine applies to volatility samples:
    an ascending numeric sort and an order-preserving filter. */
module Sequences {

  ghost predicate Sorted(s: seq<real>) {
    forall i, j :: 0 <= i < j < |s| ==> s[i] <= s[j]
  }

  /** Inserts `x` into the sorted sequence `s`, before the first larger value. */
  function Insert(x: real, s: seq<real>): (r: seq<real>)
    requires Sorted(s)
    ensures Sorted(r)
    ensures multiset(r) == multiset(s) + multiset{x}
    ensures |r| == |s| + 1
  {
    if s == [] then [x]
    else if x <= s[0] then [x] + s
    else
      var rest := Insert(x, s[1..]);
      assert s == [s[0]] + s[1..];
      assert forall k :: 0 <= k < |rest| ==> s[0] <= rest[k] by {
        forall k | 0 <= k < |rest| ensures s[0] <= rest[k] {
          assert rest[k] in multiset(rest);
        }
      }
      [s[0]] + rest
  }

  /** Ascending numeric sort (insertion sort). */
  function Sort(s: seq<real>): (r: seq<real>)
    ensures Sorted(r)
    ensures multiset(r) == multiset(s)
    ensures |r| == |s|
  {
    if s == [] then []
    else
      assert s == [s[0]] + s[1..];
      Insert(s[0], Sort(s[1..]))
  }

  /** The elements of `s` that satisfy `p`, in their original order. */
  function Filter<T(!new)>(s: seq<T>, p: T -> bool): (r: seq<T>)
    ensures |r| <= |s|
    ensures forall x :: x in r <==> x in s && p(x)
  {
    if s == [] then []
    else
      assert s == [s[0]] + s[1..];
      (if p(s[0]) then [s[0]] else []) + Filter(s[1..], p)
  }

  /** Filtering keeps every passing element as often as it occurs and drops
      every other one. */
  lemma {:induction false} FilterCount<T(!new)>(s: seq<T>, p: T -> bool, x: T)
    ensures multiset(Filter(s, p))[x] == if p(x) then multiset(s)[x] else 0
  {
    if s != [] {
      assert s == [s[0]] + s[1..];
      FilterCount(s[1..], p, x);
    }
  }

  /** Filtering distributes over concatenation: the kept elements stay in
      their original relative order. */
  lemma {:induction false} FilterConcat<T(!new)>(a: seq<T>, b: seq<T>, p: T -> bool)
    ensures Filter(a + b, p) == Filter(a, p) + Filter(b, p)
  {
    if a == [] {
      assert a + b == b;
    } else {
      assert (a + b)[1..] == a[1..] + b;
      assert (a + b)[0] == a[0];
      FilterConcat(a[1..], b, p);
    }
  }

  /** Filtering keeps a sequence unchanged exactly when every element passes. */
  lemma {:induction false} FilterAllPass<T(!new)>(s: seq<T>, p: T -> bool)
    ensures Filter(s, p) == s <==> forall i :: 0 <= i < |s| ==> p(s[i])
  {
    if forall i :: 0 <= i < |s| ==> p(s[i]) {
      if s != [] {
        FilterAllPass(s[1..], p);
      }
    } else {
      var i :| 0 <= i < |s| && !p(s[i]);
      assert s[i] in s && s[i] !in Filter(s, p);
    }
  }

  /** Filtering twice with the same predicate is filtering once. */
  lemma FilterIdempotent<T(!new)>(s: seq<T>, p: T -> bool)
    ensures Filter(Filter(s, p), p) == Filter(s, p)
  {
    var r := Filter(s, p);
    forall i | 0 <= i < |r| ensures p(r[i]) {
      assert r[i] in r;
    }
    FilterAllPass(r, p);
  }

  /** A filtered sorted sequence is sorted. */
  lemma {:induction false} FilterSorted(s: seq<real>, p: real -> bool)
    requires Sorted(s)
    ensures Sorted(Filter(s, p))
  {
    if s != [] {
      var rest := Filter(s[1..], p);
      FilterSorted(s[1..], p);
      forall k | 0 <= k < |rest| ensures s[0] <= rest[k] {
        assert rest[k] in rest;
        assert rest[k] in s[1..];
      }
    }
  }

  /** `v` is an element of `s` and no element of `s` is smaller. */
  ghost predicate IsLeast(s: seq<real>, v: real) {
    v in s && forall k :: 0 <= k < |s| ==> v <= s[k]
  }

  /** `v` is an element of `s` and no element of `s` is larger. */
  ghost predicate IsGreatest(s: seq<real>, v: real) {
    v in s && forall k :: 0 <= k < |s| ==> s[k] <= v
  }

  /** In a sorted sequence the least element is the first and the greatest
      is the last. */
  lemma SortedExtremes(s: seq<real>, lo: real, hi: real)
    requires Sorted(s)
    ensures IsLeast(s, lo) ==> lo == s[0]
    ensures IsGreatest(s, hi) ==> hi == s[|s| - 1]
  {
    if IsLeast(s, lo) {
      var k :| 0 <= k < |s| && s[k] == lo;
      assert s[0] <= s[k];
    }
    if IsGreatest(s, hi) {
      var k :| 0 <= k < |s| && s[k] == hi;
      assert s[k] <= s[|s| - 1];
    }
  }

  /** In a non-empty sorted sequence the first element is the least and the
      last is the greatest. */
  lemma SortedEnds(s: seq<real>, x: real)
    requires Sorted(s) && x in s
    ensures s[0] <= x <= s[|s| - 1]
  {
    var k :| 0 <= k < |s| && s[k] == x;
  }
}

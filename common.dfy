/** Small generic building blocks shared by the whole model: an optional value
    (JavaScript's `undefined`/`null` or a missing document) and an order-preserving
    filter, which stands for `Array.prototype.filter`. */
module Common {

  datatype Option<+T> = None | Some(value: T)

  /** `s.filter(p)`: the elements of `s` that satisfy `p`, in their original order. */
  function Filter<T>(s: seq<T>, p: T -> bool): (r: seq<T>)
    ensures |r| <= |s|
    ensures forall x :: x in r ==> x in s && p(x)
  {
    if s == [] then [] else (if p(s[0]) then [s[0]] else []) + Filter(s[1..], p)
  }

  /** Filtering keeps every element that satisfies the predicate: together with the
      ensures of Filter this is membership in both directions. */
  lemma {:induction false} FilterKeeps<T>(s: seq<T>, p: T -> bool, x: T)
    requires x in s && p(x)
    ensures x in Filter(s, p)
  {
    if s[0] != x {
      FilterKeeps(s[1..], p, x);
    }
  }

  /** Filtering distributes over concatenation, so the relative order of the kept
      elements is the order they had in the input. */
  lemma {:induction false} FilterConcat<T>(a: seq<T>, b: seq<T>, p: T -> bool)
    ensures Filter(a + b, p) == Filter(a, p) + Filter(b, p)
  {
    if a == [] {
      assert a + b == b;
    } else {
      assert (a + b)[1..] == a[1..] + b;
      FilterConcat(a[1..], b, p);
    }
  }

  /** A filter whose predicate holds of every element returns its input unchanged. */
  lemma {:induction false} FilterAll<T>(s: seq<T>, p: T -> bool)
    requires forall i :: 0 <= i < |s| ==> p(s[i])
    ensures Filter(s, p) == s
  {
    if s != [] {
      FilterAll(s[1..], p);
    }
  }

  /** Two filters in a row are the filter by the conjunction of their predicates. */
  lemma {:induction false} FilterFilter<T>(s: seq<T>, p: T -> bool, q: T -> bool)
    ensures Filter(Filter(s, p), q) == Filter(s, x => p(x) && q(x))
  {
    if s != [] {
      FilterFilter(s[1..], p, q);
      var head := if p(s[0]) then [s[0]] else [];
      FilterConcat(head, Filter(s[1..], p), q);
    }
  }

  /** `s.slice(lo, lo + n)` for non-negative `lo` and `n`: JavaScript clamps both ends. */
  function Slice<T>(s: seq<T>, lo: nat, n: nat): (r: seq<T>)
    ensures |r| <= n
    ensures lo >= |s| ==> r == []
    ensures lo < |s| ==> r == s[lo..if lo + n <= |s| then lo + n else |s|]
  {
    if lo >= |s| then [] else s[lo..if lo + n <= |s| then lo + n else |s|]
  }

  /** Two consecutive slices of the same width make up the slice of twice the width. */
  lemma SliceTiles<T>(s: seq<T>, lo: nat, n: nat)
    ensures Slice(s, lo, n) + Slice(s, lo + n, n) == Slice(s, lo, 2 * n)
  {
    if lo + 2 * n <= |s| {
      assert s[lo..lo + n] + s[lo + n..lo + 2 * n] == s[lo..lo + 2 * n];
    } else if lo + n <= |s| {
      assert s[lo..lo + n] + s[lo + n..] == s[lo..];
    }
  }

  /** A slice holds the elements from `lo` on, in order, as many as `n` allows. */
  lemma SliceContents<T>(s: seq<T>, lo: nat, n: nat)
    ensures var r := Slice(s, lo, n);
      (lo <= |s| ==> |r| == Min(n, |s| - lo)) &&
      (forall i :: 0 <= i < |r| ==> lo + i < |s| && r[i] == s[lo + i])
  {
  }

  function Min(a: int, b: int): int { if a <= b then a else b }

  function Max(a: int, b: int): int { if a >= b then a else b }
}

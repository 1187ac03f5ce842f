/** Finite sums, the Dafny counterpart of Python's `sum(...)` over a `range`
    or over a list. Both are left-recursive, so a loop that adds one term per
    iteration keeps `acc == SumRange(lo, k, f)` as its invariant. */
module Sums {

  /** The sum of `f(k)` for `lo <= k < hi`; empty when `hi <= lo`. */
  function SumRange(lo: int, hi: int, f: int -> int): int
    decreases hi - lo
  {
    if hi <= lo then 0 else SumRange(lo, hi - 1, f) + f(hi - 1)
  }

  /** The sum of `f(x)` over the elements of `xs`, counting repetitions. */
  function SumList(xs: seq<int>, f: int -> int): int
  {
    if xs == [] then 0 else SumList(xs[..|xs| - 1], f) + f(xs[|xs| - 1])
  }

  /** Two functions that agree on the range have the same sum. */
  lemma {:induction false} SumRangeExt(lo: int, hi: int, f: int -> int, g: int -> int)
    requires forall k :: lo <= k < hi ==> f(k) == g(k)
    ensures SumRange(lo, hi, f) == SumRange(lo, hi, g)
    decreases hi - lo
  {
    if lo < hi {
      SumRangeExt(lo, hi - 1, f, g);
    }
  }

  /** A sum over a range splits into the sums of two functions that add up to it. */
  lemma {:induction false} SumRangeAdd(lo: int, hi: int, f: int -> int, g: int -> int, h: int -> int)
    requires forall k :: lo <= k < hi ==> h(k) == f(k) + g(k)
    ensures SumRange(lo, hi, h) == SumRange(lo, hi, f) + SumRange(lo, hi, g)
    decreases hi - lo
  {
    if lo < hi {
      SumRangeAdd(lo, hi - 1, f, g, h);
    }
  }

  /** Splitting off the first term of a range. */
  lemma {:induction false} SumRangeFirst(lo: int, hi: int, f: int -> int)
    requires lo < hi
    ensures SumRange(lo, hi, f) == f(lo) + SumRange(lo + 1, hi, f)
    decreases hi - lo
  {
    if lo + 1 < hi {
      SumRangeFirst(lo, hi - 1, f);
    }
  }

  /** A sum of non-negative terms is non-negative. */
  lemma {:induction false} SumRangeNonNeg(lo: int, hi: int, f: int -> int)
    requires forall k :: lo <= k < hi ==> f(k) >= 0
    ensures SumRange(lo, hi, f) >= 0
    decreases hi - lo
  {
    if lo < hi {
      SumRangeNonNeg(lo, hi - 1, f);
    }
  }

  /** A sum of non-negative terms dominates each of its terms. */
  lemma {:induction false} SumRangeBoundsTerm(lo: int, hi: int, f: int -> int, k: int)
    requires forall m :: lo <= m < hi ==> f(m) >= 0
    requires lo <= k < hi
    ensures f(k) <= SumRange(lo, hi, f)
    decreases hi - lo
  {
    if k < hi - 1 {
      SumRangeBoundsTerm(lo, hi - 1, f, k);
    } else {
      SumRangeNonNeg(lo, hi - 1, f);
    }
  }

  /** A sum of non-negative terms over a list is non-negative. */
  lemma {:induction false} SumListNonNeg(xs: seq<int>, f: int -> int)
    requires forall x :: x in xs ==> f(x) >= 0
    ensures SumList(xs, f) >= 0
  {
    if xs != [] {
      var init, last := xs[..|xs| - 1], xs[|xs| - 1];
      assert forall x :: x in init ==> x in xs;
      assert last in xs;
      SumListNonNeg(init, f);
    }
  }

  /** A sum of non-negative terms over a list dominates each of its terms. */
  lemma {:induction false} SumListBoundsTerm(xs: seq<int>, f: int -> int, x: int)
    requires forall y :: y in xs ==> f(y) >= 0
    requires x in xs
    ensures f(x) <= SumList(xs, f)
  {
    var init, last := xs[..|xs| - 1], xs[|xs| - 1];
    assert forall y :: y in init ==> y in xs;
    assert last in xs;
    assert xs == init + [last];
    if x in init {
      SumListBoundsTerm(init, f, x);
    } else {
      SumListNonNeg(init, f);
    }
  }

  /** Two functions that agree on the list have the same sum over it. */
  lemma {:induction false} SumListExt(xs: seq<int>, f: int -> int, g: int -> int)
    requires forall x :: x in xs ==> f(x) == g(x)
    ensures SumList(xs, f) == SumList(xs, g)
  {
    if xs != [] {
      var init, last := xs[..|xs| - 1], xs[|xs| - 1];
      assert forall x :: x in init ==> x in xs;
      assert last in xs;
      SumListExt(init, f, g);
    }
  }

  /** A sum over a list splits into the sums of two functions that add up to it. */
  lemma {:induction false} SumListAdd(xs: seq<int>, f: int -> int, g: int -> int, h: int -> int)
    requires forall x :: x in xs ==> h(x) == f(x) + g(x)
    ensures SumList(xs, h) == SumList(xs, f) + SumList(xs, g)
  {
    if xs != [] {
      var init, last := xs[..|xs| - 1], xs[|xs| - 1];
      assert forall x :: x in init ==> x in xs;
      assert last in xs;
      SumListAdd(init, f, g, h);
    }
  }

  /** Adding a single point mass `c` at `p` inside the range adds `c` to the sum. */
  lemma {:induction false} SumRangePoint(lo: int, hi: int, f: int -> int, g: int -> int, p: int, c: int)
    requires lo <= p < hi
    requires forall k :: lo <= k < hi ==> g(k) == f(k) + (if k == p then c else 0)
    ensures SumRange(lo, hi, g) == SumRange(lo, hi, f) + c
    decreases hi - lo
  {
    if p < hi - 1 {
      SumRangePoint(lo, hi - 1, f, g, p, c);
    } else {
      SumRangeExt(lo, hi - 1, f, g);
    }
  }

  /** The same point mass placed outside the range changes nothing. */
  lemma {:induction false} SumRangeOutside(lo: int, hi: int, f: int -> int, g: int -> int, p: int, c: int)
    requires p < lo || hi <= p
    requires forall k :: lo <= k < hi ==> g(k) == f(k) + (if k == p then c else 0)
    ensures SumRange(lo, hi, g) == SumRange(lo, hi, f)
  {
    SumRangeExt(lo, hi, f, g);
  }

  /** Summing `f` over a range, restricted to the members of a duplicate-free
      list inside that range, is the same as summing `f` over the list. This is
      how "for k in range(N) if i in adj[k]" is matched against "for j in adj[k]". */
  lemma {:induction false} SumRangeMembers(lo: int, hi: int, xs: seq<int>, f: int -> int, g: int -> int)
    requires forall a, b :: 0 <= a < b < |xs| ==> xs[a] != xs[b]
    requires forall x :: x in xs ==> lo <= x < hi
    requires forall k :: lo <= k < hi ==> g(k) == (if k in xs then f(k) else 0)
    ensures SumRange(lo, hi, g) == SumList(xs, f)
  {
    if xs == [] {
      SumRangeExt(lo, hi, g, _ => 0);
      SumRangeZero(lo, hi);
    } else {
      var init := xs[..|xs| - 1];
      var last := xs[|xs| - 1];
      assert xs == init + [last];
      assert forall x :: x in init ==> x in xs;
      assert last in xs;
      var g' := k => if k in init then f(k) else 0;
      assert last !in init by {
        forall a | 0 <= a < |init| ensures init[a] != last {
          assert init[a] == xs[a];
        }
      }
      forall k | lo <= k < hi
        ensures g(k) == g'(k) + (if k == last then f(last) else 0)
      {
        assert k in xs <==> k in init || k == last;
      }
      SumRangeMembers(lo, hi, init, f, g');
      SumRangePoint(lo, hi, g', g, last, f(last));
    }
  }

  /** The sum of zeros is zero. */
  lemma {:induction false} SumRangeZero(lo: int, hi: int)
    ensures SumRange(lo, hi, _ => 0) == 0
    decreases hi - lo
  {
    if lo < hi {
      SumRangeZero(lo, hi - 1);
    }
  }

  /** Sums over a range can be taken in either order. */
  lemma {:induction false} SumRangeSwap(n: int, m: int, f: (int, int) -> int)
    ensures SumRange(0, n, i => SumRange(0, m, k => f(i, k)))
         == SumRange(0, m, k => SumRange(0, n, i => f(i, k)))
    decreases n
  {
    if 0 < n {
      var rows := i => SumRange(0, m, k => f(i, k));
      var inner := k => SumRange(0, n - 1, i => f(i, k));
      var outer := k => SumRange(0, n, i => f(i, k));
      var last := k => f(n - 1, k);
      SumRangeSwap(n - 1, m, f);
      assert SumRange(0, n - 1, rows) == SumRange(0, m, inner);
      SumRangeAdd(0, m, inner, last, outer);
      assert SumRange(0, n, rows) == SumRange(0, n - 1, rows) + SumRange(0, m, last);
    } else {
      SumRangeExt(0, m, k => SumRange(0, n, i => f(i, k)), _ => 0);
      SumRangeZero(0, m);
    }
  }

  /** A sum over a range of `f + g - e`, taken term by term. */
  lemma {:induction false} SumRangeAddSub(lo: int, hi: int, f: int -> int, g: int -> int, e: int -> int, h: int -> int)
    requires forall k :: lo <= k < hi ==> h(k) == f(k) + g(k) - e(k)
    ensures SumRange(lo, hi, h) == SumRange(lo, hi, f) + SumRange(lo, hi, g) - SumRange(lo, hi, e)
    decreases hi - lo
  {
    if lo < hi {
      SumRangeAddSub(lo, hi - 1, f, g, e, h);
    }
  }

  /** A sum of non-negative terms is positive exactly when one of its terms is. */
  lemma {:induction false} SumRangePositive(lo: int, hi: int, f: int -> int)
    requires forall k :: lo <= k < hi ==> f(k) >= 0
    ensures SumRange(lo, hi, f) > 0 <==> exists k :: lo <= k < hi && f(k) > 0
    decreases hi - lo
  {
    if lo < hi {
      SumRangePositive(lo, hi - 1, f);
      SumRangeNonNeg(lo, hi - 1, f);
      assert (exists k :: lo <= k < hi && f(k) > 0)
         <==> (exists k :: lo <= k < hi - 1 && f(k) > 0) || f(hi - 1) > 0;
    }
  }
}

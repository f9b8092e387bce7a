/** Finite sums of integer- and real-valued terms over half-open index ranges. */
module Sums {

  /** Multiplying by a non-negative factor keeps an order. */
  lemma ScaleUp(a: real, b: real, m: real)
    requires a <= b && 0.0 <= m
    ensures a * m <= b * m
  {
  }

  ghost function Sum(f: int -> real, lo: int, hi: int): real
    decreases hi - lo
  {
    if lo >= hi then 0.0 else Sum(f, lo, hi - 1) + f(hi - 1)
  }

  /** A range of terms may be cut anywhere. */
  lemma {:induction false} SumSplit(f: int -> real, lo: int, mid: int, hi: int)
    requires lo <= mid <= hi
    ensures Sum(f, lo, hi) == Sum(f, lo, mid) + Sum(f, mid, hi)
    decreases hi - mid
  {
    if mid < hi {
      SumSplit(f, lo, mid, hi - 1);
    }
  }

  /** Terms that agree after a shift by d have equal sums over the shifted ranges. */
  lemma {:induction false} SumShift(f: int -> real, g: int -> real, lo: int, hi: int, d: int)
    requires forall i :: lo <= i < hi ==> f(i) == g(i + d)
    ensures Sum(f, lo, hi) == Sum(g, lo + d, hi + d)
    decreases hi - lo
  {
    if lo < hi {
      SumShift(f, g, lo, hi - 1, d);
    }
  }

  /** Rotating the terms of a sum does not change it. */
  lemma SumRotate(f: int -> real, g: int -> real, n: int, t: int)
    requires 0 <= t <= n
    requires forall i :: 0 <= i < t ==> f(i) == g(i + (n - t))
    requires forall i :: t <= i < n ==> f(i) == g(i - t)
    ensures Sum(f, 0, n) == Sum(g, 0, n)
  {
    SumSplit(f, 0, t, n);
    SumSplit(g, 0, n - t, n);
    SumShift(f, g, 0, t, n - t);
    assert forall i :: t <= i < n ==> f(i) == g(i + (-t));
    SumShift(f, g, t, n, -t);
  }

  lemma {:induction false} SumMonotone(f: int -> real, g: int -> real, lo: int, hi: int)
    requires forall i :: lo <= i < hi ==> f(i) <= g(i)
    ensures Sum(f, lo, hi) <= Sum(g, lo, hi)
    decreases hi - lo
  {
    if lo < hi {
      SumMonotone(f, g, lo, hi - 1);
    }
  }

  ghost function ISum(f: int -> int, lo: int, hi: int): int
    decreases hi - lo
  {
    if lo >= hi then 0 else ISum(f, lo, hi - 1) + f(hi - 1)
  }

  lemma {:induction false} ISumSplit(f: int -> int, lo: int, mid: int, hi: int)
    requires lo <= mid <= hi
    ensures ISum(f, lo, hi) == ISum(f, lo, mid) + ISum(f, mid, hi)
    decreases hi - mid
  {
    if mid < hi {
      ISumSplit(f, lo, mid, hi - 1);
    }
  }

  lemma {:induction false} ISumMonotone(f: int -> int, g: int -> int, lo: int, hi: int)
    requires forall i :: lo <= i < hi ==> f(i) <= g(i)
    ensures ISum(f, lo, hi) <= ISum(g, lo, hi)
    decreases hi - lo
  {
    if lo < hi {
      ISumMonotone(f, g, lo, hi - 1);
    }
  }

  lemma {:induction false} ISumConstant(f: int -> int, v: int, lo: int, hi: int)
    requires lo <= hi
    requires forall i :: lo <= i < hi ==> f(i) == v
    ensures ISum(f, lo, hi) == (hi - lo) * v
    decreases hi - lo
  {
    if lo < hi {
      ISumConstant(f, v, lo, hi - 1);
    }
  }

  /** Equal terms have equal sums. */
  lemma ISumEqual(f: int -> int, g: int -> int, lo: int, hi: int)
    requires forall i :: lo <= i < hi ==> f(i) == g(i)
    ensures ISum(f, lo, hi) == ISum(g, lo, hi)
  {
    ISumMonotone(f, g, lo, hi);
    ISumMonotone(g, f, lo, hi);
  }

  lemma SumEqual(f: int -> real, g: int -> real, lo: int, hi: int)
    requires forall i :: lo <= i < hi ==> f(i) == g(i)
    ensures Sum(f, lo, hi) == Sum(g, lo, hi)
  {
    SumMonotone(f, g, lo, hi);
    SumMonotone(g, f, lo, hi);
  }
}

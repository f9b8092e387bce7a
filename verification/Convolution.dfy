/** Zero-padded convolution of one line, and the ring buffer both linear convolvers compute it with. */
module Convolution {
  import opened Sums

  /** The j-th term of the convolution ending at position x: `kernel[j] * v(x - K + 1 + j)`. */
  ghost function ConvTerm(v: int -> int, kernel: seq<real>, x: int): int -> real {
    j => (if 0 <= j < |kernel| then v(x + 1 - |kernel| + j) as real * kernel[j] else 0.0)
  }

  /** The plain convolution, at position x, of the values v with a kernel of K = |kernel| weights. */
  ghost function Convolve(v: int -> int, kernel: seq<real>, x: int): real {
    Sum(ConvTerm(v, kernel, x), 0, |kernel|)
  }

  /** The second half of the kernel array repeats the first. */
  predicate Doubled(kvals: seq<real>, k: int) {
    0 < k && 2 * k <= |kvals| && forall j :: 0 <= j < k ==> kvals[k + j] == kvals[j]
  }

  /** After n columns, with slot t next to be overwritten, slot i of a ring of k holds this column. */
  function Latest(k: int, n: int, t: int, i: int): int {
    if i < t then n - t + i else n - t + i - k
  }

  /** The slot after t, wrapping around. */
  function Next(k: int, t: int): int {
    if t + 1 == k then 0 else t + 1
  }

  /** The ring holds the last |ring| of the n values loaded so far, zero standing in for missing ones. */
  ghost predicate Ring(ring: seq<real>, v: int -> int, n: int, t: int) {
    && 0 <= t < |ring|
    && forall i :: 0 <= i < |ring| ==> ring[i] == v(Latest(|ring|, n, t, i)) as real
  }

  lemma RingStart(ring: seq<real>, v: int -> int)
    requires |ring| > 0 && forall i :: 0 <= i < |ring| ==> ring[i] == 0.0
    requires forall i :: i < 0 ==> v(i) == 0
    ensures Ring(ring, v, 0, 0)
  {
  }

  /** Loading value n into slot t keeps the ring. */
  lemma RingLoad(ring: seq<real>, v: int -> int, n: int, t: int)
    requires Ring(ring, v, n, t)
    ensures Ring(ring[t := v(n) as real], v, n + 1, Next(|ring|, t))
  {
    var k, ring' := |ring|, ring[t := v(n) as real];
    forall i | 0 <= i < k
      ensures ring'[i] == v(Latest(k, n + 1, Next(k, t), i)) as real
    {
      assert Latest(k, n + 1, Next(k, t), i) == if i == t then n else Latest(k, n, t, i);
    }
  }

  ghost function RingTerm(ring: seq<real>, kvals: seq<real>, koff: int): int -> real {
    i => (if 0 <= i < |ring| && 0 <= koff + i < |kvals| then ring[i] * kvals[koff + i] else 0.0)
  }

  /** The sum the inner loop forms: slot i times `kvals[koff + i]`. */
  ghost function RingSum(ring: seq<real>, kvals: seq<real>, koff: int, m: int): real {
    Sum(RingTerm(ring, kvals, koff), 0, m)
  }

  lemma RingSumStep(ring: seq<real>, kvals: seq<real>, koff: int, m: nat, value: real, factor: real, product: real)
    requires m < |ring| && 0 <= koff + m < |kvals| && value == ring[m] && factor == kvals[koff + m]
    requires product == value * factor
    ensures RingSum(ring, kvals, koff, m + 1) == RingSum(ring, kvals, koff, m) + product
  {
  }

  lemma SlotTerm(ring: seq<real>, v: int -> int, kvals: seq<real>, n: int, t: int, i: int, j: int)
    requires Ring(ring, v, n, t) && Doubled(kvals, |ring|) && 0 <= i < |ring|
    requires j == if i < t then i + |ring| - t else i - t
    ensures RingTerm(ring, kvals, |ring| - t)(i) == ConvTerm(v, kvals[..|ring|], n - 1)(j)
  {
    var k := |ring|;
    assert ring[i] == v(Latest(k, n, t, i)) as real && Latest(k, n, t, i) == n - k + j;
    assert i >= t ==> kvals[k + j] == kvals[j];
    assert kvals[k - t + i] == kvals[..k][j];
  }

  /**
   * Multiplying the slots with the kernel read from offset K - t on gives the convolution:
   * the doubled kernel turns the rotation of the ring into a rotation of the sum.
   */
  lemma RingSumIsConvolution(ring: seq<real>, v: int -> int, kvals: seq<real>, n: int, t: int)
    requires Ring(ring, v, n, t) && Doubled(kvals, |ring|)
    ensures RingSum(ring, kvals, |ring| - t, |ring|) == Convolve(v, kvals[..|ring|], n - 1)
  {
    var k := |ring|;
    var f, g := RingTerm(ring, kvals, k - t), ConvTerm(v, kvals[..k], n - 1);
    forall i | 0 <= i < t
      ensures f(i) == g(i + (k - t))
    {
      SlotTerm(ring, v, kvals, n, t, i, i + (k - t));
    }
    forall i | t <= i < k
      ensures f(i) == g(i - t)
    {
      SlotTerm(ring, v, kvals, n, t, i, i - t);
    }
    SumRotate(f, g, k, t);
  }

  predicate NonNegative(kernel: seq<real>) {
    forall j :: 0 <= j < |kernel| ==> kernel[j] >= 0.0
  }

  /** With a non-negative kernel, pointwise larger values have larger convolutions. */
  lemma ConvolveMonotone(v: int -> int, w: int -> int, kernel: seq<real>, x: int)
    requires NonNegative(kernel) && forall i :: v(i) <= w(i)
    ensures Convolve(v, kernel, x) <= Convolve(w, kernel, x)
  {
    var f, g := ConvTerm(v, kernel, x), ConvTerm(w, kernel, x);
    forall j | 0 <= j < |kernel|
      ensures f(j) <= g(j)
    {
      var i := x + 1 - |kernel| + j;
      ProductMonotone(v(i), w(i), kernel[j]);
    }
    SumMonotone(f, g, 0, |kernel|);
  }

  lemma ProductMonotone(a: int, b: int, k: real)
    requires a <= b && 0.0 <= k
    ensures a as real * k <= b as real * k
  {
    var d := b - a;
    assert b as real * k == a as real * k + d as real * k;
    assert d as real * k >= 0.0;
  }
}

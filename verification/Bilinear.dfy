/** Bilinear interpolation of a zero-extended image, as a sum of tent weights over all its pixels. */
module Bilinear {
  import opened Sums

  /** The tent around 0: 1 at the centre, falling to 0 at distance 1. */
  function Tent(d: real): real {
    if d <= -1.0 || d >= 1.0 then 0.0 else if d < 0.0 then 1.0 + d else 1.0 - d
  }

  /** The weighted value of the sample centred at i + 1/2. */
  ghost function TentTerm(g: int -> real, x: real): int -> real {
    i => g(i) * Tent(x - (i as real + 0.5))
  }

  /** Linear interpolation at x of n samples whose centres are 1/2, 3/2, ..., n - 1/2. */
  ghost function Interp(g: int -> real, n: int, x: real): real {
    Sum(TentTerm(g, x), 0, n)
  }

  ghost function RowOf(v: (int, int) -> real, j: int): int -> real {
    i => v(i, j)
  }

  ghost function RowSamples(v: (int, int) -> real, w: int, x: real): int -> real {
    j => Interp(RowOf(v, j), w, x)
  }

  /** Bilinear interpolation at (x, y) of the w by h image whose pixel in column i, row j is v(i, j). */
  ghost function Sample(v: (int, int) -> real, w: int, h: int, x: real, y: real): real {
    Interp(RowSamples(v, w, x), h, y)
  }

  function Clip1(g: int -> real, n: int, i: int): real {
    if 0 <= i < n then g(i) else 0.0
  }

  /** The pixel in column i, row j, or zero outside the image. */
  function Clip(v: (int, int) -> real, w: int, h: int, i: int, j: int): real {
    if 0 <= i < w && 0 <= j < h then v(i, j) else 0.0
  }

  /** Position x, half a pixel on, is cell ix plus the fraction f. */
  predicate Cell(x: real, ix: int, f: real) {
    x + 0.5 == ix as real + f && 0.0 <= f < 1.0
  }

  lemma TentWeights(x: real, ix: int, f: real, i: int)
    requires Cell(x, ix, f)
    ensures Tent(x - (i as real + 0.5)) == if i == ix then f else if i == ix - 1 then 1.0 - f else 0.0
  {
    var d := x - (i as real + 0.5);
    assert d == (ix - i) as real + f - 1.0;
  }

  /** All but two of the tent weights vanish. */
  lemma {:induction false} InterpIsPair(g: int -> real, n: int, x: real, ix: int, f: real, e: real)
    requires Cell(x, ix, f) && 0 <= n && e == 1.0 - f
    ensures Interp(g, n, x) == Clip1(g, n, ix) * f + Clip1(g, n, ix - 1) * e
    decreases n
  {
    if n > 0 {
      InterpIsPair(g, n - 1, x, ix, f, e);
      TentWeights(x, ix, f, n - 1);
      assert TentTerm(g, x)(n - 1) == g(n - 1) * Tent(x - ((n - 1) as real + 0.5));
    }
  }

  lemma RowIsPair(v: (int, int) -> real, w: int, h: int, x: real, ix: int, f: real, e: real, j: int, p: real, q: real,
                  row: real)
    requires Cell(x, ix, f) && 0 <= w && e == 1.0 - f
    requires p == Clip(v, w, h, ix, j) && q == Clip(v, w, h, ix - 1, j) && row == Clip1(RowSamples(v, w, x), h, j)
    ensures row == p * f + q * e
  {
    if 0 <= j < h {
      InterpIsPair(RowOf(v, j), w, x, ix, f, e);
    }
  }

  /** The weights the samplers give the four neighbours of a cell at fractions (fx, fy). */
  predicate CellWeights(fx: real, fy: real, a: real, b: real, c: real, d: real) {
    a == fx * fy && b == fy - a && c == fx - a && d == 1.0 - fx - fy + a
  }

  /** A weighted sum of four values. */
  function Weighted(a: real, b: real, c: real, d: real, p: real, q: real, r: real, s: real): real {
    p * a + q * b + r * c + s * d
  }

  /** All but four of the products of tent weights vanish. */
  lemma SampleIsFour(v: (int, int) -> real, w: int, h: int, x: real, y: real, ix: int, iy: int, fx: real, fy: real,
                     a: real, b: real, c: real, d: real)
    requires Cell(x, ix, fx) && Cell(y, iy, fy) && 0 <= w && 0 <= h && CellWeights(fx, fy, a, b, c, d)
    ensures Sample(v, w, h, x, y) == Weighted(a, b, c, d, Clip(v, w, h, ix, iy), Clip(v, w, h, ix - 1, iy),
                                              Clip(v, w, h, ix, iy - 1), Clip(v, w, h, ix - 1, iy - 1))
  {
    var ex, ey := 1.0 - fx, 1.0 - fy;
    var p, q, r, s := Clip(v, w, h, ix, iy), Clip(v, w, h, ix - 1, iy), Clip(v, w, h, ix, iy - 1),
        Clip(v, w, h, ix - 1, iy - 1);
    var upper, lower := Clip1(RowSamples(v, w, x), h, iy), Clip1(RowSamples(v, w, x), h, iy - 1);
    RowIsPair(v, w, h, x, ix, fx, ex, iy, p, q, upper);
    RowIsPair(v, w, h, x, ix, fx, ex, iy - 1, r, s, lower);
    InterpIsPair(RowSamples(v, w, x), h, y, iy, fy, ey);
    Weights(fx, fy, ex, ey, a, b, c, d, p, q, r, s, upper, lower, Sample(v, w, h, x, y));
  }

  lemma Weights(fx: real, fy: real, ex: real, ey: real, a: real, b: real, c: real, d: real,
                p: real, q: real, r: real, s: real, upper: real, lower: real, sample: real)
    requires CellWeights(fx, fy, a, b, c, d) && ex == 1.0 - fx && ey == 1.0 - fy
    requires upper == p * fx + q * ex && lower == r * fx + s * ex
    requires sample == upper * fy + lower * ey
    ensures sample == Weighted(a, b, c, d, p, q, r, s)
  {
    Distribute(p, fx, q, ex, fy, a, b);
    Distribute(r, fx, s, ex, ey, c, d);
  }

  lemma Distribute(p: real, f: real, q: real, e: real, k: real, a: real, b: real)
    requires a == f * k && b == e * k
    ensures (p * f + q * e) * k == p * a + q * b
  {
  }

  /** A common factor of the weights comes out. */
  lemma WeightedScale(k: real, a: real, b: real, c: real, d: real, a': real, b': real, c': real, d': real,
                      p: real, q: real, r: real, s: real, sum: real)
    requires a' == a * k && b' == b * k && c' == c * k && d' == d * k && sum == Weighted(a, b, c, d, p, q, r, s)
    ensures Weighted(a', b', c', d', p, q, r, s) == k * sum
  {
    Distribute(p, a, q, b, k, a', b');
    Distribute(r, c, s, d, k, c', d');
    var left, right := p * a + q * b, r * c + s * d;
    assert (left + right) * k == left * k + right * k;
  }

  /** Half a pixel or more outside the image, every weight vanishes. */
  lemma SampleOutside(v: (int, int) -> real, w: int, h: int, x: real, y: real)
    requires 0 <= w && 0 <= h
    requires x + 0.5 <= 0.0 || y + 0.5 <= 0.0 || (x + 0.5).Floor > w || (y + 0.5).Floor > h
    ensures Sample(v, w, h, x, y) == 0.0
  {
    var ix, iy := (x + 0.5).Floor, (y + 0.5).Floor;
    var fx, fy := x + 0.5 - ix as real, y + 0.5 - iy as real;
    OutsidePair(v, w, h, x, ix, fx, iy);
    OutsidePair(v, w, h, x, ix, fx, iy - 1);
    InterpIsPair(RowSamples(v, w, x), h, y, iy, fy, 1.0 - fy);
    assert y + 0.5 <= 0.0 ==> iy < 0 || fy == 0.0;
  }

  lemma OutsidePair(v: (int, int) -> real, w: int, h: int, x: real, ix: int, f: real, j: int)
    requires 0 <= w && Cell(x, ix, f)
    ensures x + 0.5 <= 0.0 || ix > w ==> Clip1(RowSamples(v, w, x), h, j) == 0.0
  {
    if x + 0.5 <= 0.0 || ix > w {
      RowIsPair(v, w, h, x, ix, f, 1.0 - f, j, Clip(v, w, h, ix, j), Clip(v, w, h, ix - 1, j),
                Clip1(RowSamples(v, w, x), h, j));
      assert x + 0.5 <= 0.0 ==> ix < 0 || f == 0.0;
    }
  }

  /** At the centre of a pixel the sample is that pixel. */
  lemma SampleAtCentre(v: (int, int) -> real, w: int, h: int, i: int, j: int)
    requires 0 <= i < w && 0 <= j < h
    ensures Sample(v, w, h, i as real + 0.5, j as real + 0.5) == v(i, j)
  {
    SampleIsFour(v, w, h, i as real + 0.5, j as real + 0.5, i + 1, j + 1, 0.0, 0.0, 0.0, 0.0, 0.0, 1.0);
  }

  lemma InterpBounds(g: int -> real, n: int, x: real, m: real)
    requires 0 <= n && 0.0 <= m && forall i :: 0 <= i < n ==> 0.0 <= g(i) <= m
    ensures 0.0 <= Interp(g, n, x) <= m
  {
    var ix := (x + 0.5).Floor;
    var f := x + 0.5 - ix as real;
    InterpIsPair(g, n, x, ix, f, 1.0 - f);
    Between(f, 1.0 - f, Clip1(g, n, ix), Clip1(g, n, ix - 1), m);
  }

  lemma Between(f: real, e: real, a: real, b: real, m: real)
    requires 0.0 <= f && 0.0 <= e == 1.0 - f && 0.0 <= a <= m && 0.0 <= b <= m
    ensures 0.0 <= a * f + b * e <= m
  {
    Below(f, a, m);
    Below(e, b, m);
    assert m * f + m * e == m;
    AddLe(a * f, b * e, m * f, m * e, m);
  }

  lemma AddLe(af: real, be: real, mf: real, me: real, m: real)
    requires af <= mf && be <= me && mf + me == m
    ensures af + be <= m
  {
  }

  lemma Below(f: real, a: real, m: real)
    requires 0.0 <= f && 0.0 <= a <= m
    ensures 0.0 <= a * f <= m * f
  {
  }

  /** The sample of values between 0 and m lies between 0 and m. */
  lemma SampleBounds(v: (int, int) -> real, w: int, h: int, x: real, y: real, m: real)
    requires 0 <= w && 0 <= h && 0.0 <= m && forall i, j :: 0 <= i < w && 0 <= j < h ==> 0.0 <= v(i, j) <= m
    ensures 0.0 <= Sample(v, w, h, x, y) <= m
  {
    forall j | 0 <= j < h
      ensures 0.0 <= RowSamples(v, w, x)(j) <= m
    {
      InterpBounds(RowOf(v, j), w, x, m);
    }
    InterpBounds(RowSamples(v, w, x), h, y, m);
  }

  lemma Ordered(a: real, b: real, m: real, p: real, q: real)
    requires a <= b && 0.0 <= m && p == a * m && q == b * m
    ensures p <= q
  {
    ScaleUp(a, b, m);
  }

  lemma InterpMonotone(g: int -> real, k: int -> real, n: int, x: real)
    requires forall i :: 0 <= i < n ==> g(i) <= k(i)
    ensures Interp(g, n, x) <= Interp(k, n, x)
  {
    forall i | 0 <= i < n
      ensures TentTerm(g, x)(i) <= TentTerm(k, x)(i)
    {
      Ordered(g(i), k(i), Tent(x - (i as real + 0.5)), TentTerm(g, x)(i), TentTerm(k, x)(i));
    }
    SumMonotone(TentTerm(g, x), TentTerm(k, x), 0, n);
  }

  /** Pointwise larger images have larger samples everywhere. */
  lemma SampleMonotone(v: (int, int) -> real, u: (int, int) -> real, w: int, h: int, x: real, y: real)
    requires forall i, j :: 0 <= i < w && 0 <= j < h ==> v(i, j) <= u(i, j)
    ensures Sample(v, w, h, x, y) <= Sample(u, w, h, x, y)
  {
    forall j | 0 <= j < h
      ensures RowSamples(v, w, x)(j) <= RowSamples(u, w, x)(j)
    {
      InterpMonotone(RowOf(v, j), RowOf(u, j), w, x);
    }
    InterpMonotone(RowSamples(v, w, x), RowSamples(u, w, x), h, y);
  }
}

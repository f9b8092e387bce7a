/** What the box blur preserves, whatever the image. */
module BoxBlurLaws {
  import opened Pixels
  import opened Sums
  import opened Strips
  import opened Lines
  import opened BoxBlur

  lemma FixedPointAverage(v: int, t: int)
    requires 0 <= v <= 0xff && 0x80_0000 <= t && 255 * t <= 0x7fff_ffff
    ensures v * t / 0x80_0000 == v
  {
    var e := t - 0x80_0000;
    assert v * t == v * 0x80_0000 + v * e;
    MulLe(0, v, e);
    MulLe(v, 0xff, e);
    WholePart(v * t, v, v * e);
  }

  lemma WholePart(p: int, v: int, r: int)
    requires p == v * 0x80_0000 + r && 0 <= r < 0x80_0000
    ensures p / 0x80_0000 == v
  {
  }

  lemma ScaledFlat(v: int, n: int)
    requires BoxSize(n) && 0 <= v <= 0xff && n * KScale(n) >= 0x80_0000
    ensures Scaled(v * n, n) == v
  {
    var k := KScale(n);
    assert v * n * k == v * (n * k);
    FixedPointAverage(v, n * k);
  }

  lemma ReciprocalReaches(n: int, k: int)
    requires 1 <= n <= 33025 && 0 <= k && n * 255 * (k + 1) > 0x7fff_ffff
    ensures n * k >= 0x80_0000
  {
    assert n * 255 * (k + 1) == 255 * (n * k) + 255 * n;
    MulLe(n, 33025, k);
    if n >= 32897 {
      MulLe(32897, n, k);
    }
    ReciprocalReachesLinear(n, k, n * k);
  }

  lemma ReciprocalReachesLinear(n: int, k: int, p: int)
    requires n <= 33025 && p <= 33025 * k && 255 * p + 255 * n > 0x7fff_ffff
    requires n >= 32897 ==> p >= 32897 * k
    ensures p >= 0x80_0000
  {
  }

  /** The window that ends at x lies inside the line, and its channel c holds one value throughout. */
  predicate Flat(line: seq<jint>, c: Chan, n: int, x: int, v: byte) {
    n - 1 <= x < |line| && forall i :: x - n < i <= x && 0 <= i ==> Byte(line[i], c) == v
  }

  /** Every flat window of every line is stored as its value. */
  ghost predicate KeepsFlat(n: int)
    requires BoxSize(n)
  {
    forall line: seq<jint>, c: Chan, x: int, v: byte :: Flat(line, c, n, x, v) ==> Byte(BlurPixel(line, n, x), c) == v
  }

  lemma FlatSum(line: seq<jint>, c: Chan, n: int, x: int, v: byte)
    requires 1 <= n && Flat(line, c, n, x, v)
    ensures Window(line, c, n, x + 1) == v * n
  {
    var e := x + 1;
    ISumConstant(Val(line, c), v, e - n, e);
    Swap(e - (e - n), v, n);
  }

  lemma Swap(m: int, v: int, n: int)
    requires m == n
    ensures m * v == v * n
  {
  }

  lemma FlatByte(line: seq<jint>, c: Chan, n: int, x: int, v: byte)
    requires BoxSize(n) && Flat(line, c, n, x, v)
    ensures Byte(BlurPixel(line, n, x), c) == Scaled(v * n, n)
  {
    FlatSum(line, c, n, x, v);
    BlurPixelBytes(line, c, n, x);
  }

  /** A flat window comes out as its value, if n times the reciprocal reaches 2^23. */
  lemma FlatWindow(line: seq<jint>, c: Chan, n: int, x: int, v: byte)
    requires BoxSize(n) && n * KScale(n) >= 0x80_0000 && Flat(line, c, n, x, v)
    ensures Byte(BlurPixel(line, n, x), c) == v
  {
    FlatByte(line, c, n, x, v);
    ScaledFlat(v, n);
  }

  /** Otherwise n pixels whose blue is 1 come out with blue 0. */
  lemma FlatWindowLost(n: int)
    requires BoxSize(n) && n * KScale(n) < 0x80_0000
    ensures Flat(FlatLine(n, 1), B, n, n - 1, 1) && Byte(BlurPixel(FlatLine(n, 1), n, n - 1), B) == 0
  {
    FlatByte(FlatLine(n, 1), B, n, n - 1, 1);
  }

  /** The filter keeps every flat window of every line if and only if n times the reciprocal reaches 2^23. */
  lemma KeepsFlatIff(n: int)
    requires BoxSize(n)
    ensures KeepsFlat(n) <==> n * KScale(n) >= 0x80_0000
  {
    if n * KScale(n) >= 0x80_0000 {
      forall line: seq<jint>, c: Chan, x: int, v: byte | Flat(line, c, n, x, v)
        ensures Byte(BlurPixel(line, n, x), c) == v
      {
        FlatWindow(line, c, n, x, v);
      }
    } else {
      FlatWindowLost(n);
    }
  }

  /** That holds for every window up to 33025, fails first at 33026, and holds again at 33027. */
  lemma KeepsFlatUpTo(n: int)
    requires 1 <= n <= 33025
    ensures KeepsFlat(n) && !KeepsFlat(33026) && KeepsFlat(33027)
  {
    ReciprocalReaches(n, KScale(n));
    KeepsFlatIff(n);
    KeepsFlatIff(33026);
    KeepsFlatIff(33027);
  }

  /** A window of size one is the identity filter. */
  lemma UnitWindow(line: seq<jint>, x: int)
    requires 0 <= x < |line|
    ensures BlurPixel(line, 1, x) == line[x]
  {
    forall c: Chan
      ensures BlurByte(line, c, 1, x) == Byte(line[x], c)
    {
      FlatWindow(line, c, 1, x, Byte(line[x], c));
      BlurPixelBytes(line, c, 1, x);
    }
    PackUnpack(line[x]);
  }

  /** Blurring premultiplied pixels gives premultiplied pixels. */
  lemma BlurPremultiplied(line: seq<jint>, n: int, x: int)
    requires BoxSize(n)
    requires forall i :: 0 <= i < |line| ==> Premultiplied(line[i])
    ensures Premultiplied(BlurPixel(line, n, x))
  {
    forall c: Chan
      ensures Byte(BlurPixel(line, n, x), c) <= Byte(BlurPixel(line, n, x), A)
    {
      WindowMonotone(line, c, line, A, n, x + 1);
      ScaledMonotone(Window(line, c, n, x + 1), Window(line, A, n, x + 1), n);
      BlurPixelBytes(line, c, n, x);
      BlurPixelBytes(line, A, n, x);
    }
  }

  /** Over whole images: every pixel either horizontal or vertical filter writes is premultiplied. */
  lemma ImagePremultiplied(s: seq<jint>, len: nat, scan: int, n: int, d0: seq<jint>, w: nat, h: nat, dstscan: int,
                           x: int, y: int)
    requires BoxSize(n) && forall k :: 0 <= k < |s| ==> Premultiplied(s[k])
    requires w <= dstscan && Holds(|d0|, w, h, dstscan) && 0 <= x < w && 0 <= y < h
    ensures 0 <= Rows(w, h, dstscan).Off(y, x) < |d0| && 0 <= Columns(w, h, dstscan).Off(x, y) < |d0|
    ensures Premultiplied(Fill(d0, Rows(w, h, dstscan), HorizontalBlur(s, len, scan, n))[Rows(w, h, dstscan).Off(y, x)])
    ensures Premultiplied(Fill(d0, Columns(w, h, dstscan),
                               VerticalBlur(s, len, scan, n))[Columns(w, h, dstscan).Off(x, y)])
  {
    ImageLayout(w, h, dstscan, |d0|);
    FillAt(d0, Rows(w, h, dstscan), HorizontalBlur(s, len, scan, n), y, x);
    FillAt(d0, Columns(w, h, dstscan), VerticalBlur(s, len, scan, n), x, y);
    LinePremultiplied(s, y * scan, 1, len);
    LinePremultiplied(s, x, scan, len);
    BlurPremultiplied(Line(s, y * scan, 1, len), n, x);
    BlurPremultiplied(Line(s, x, scan, len), n, y);
  }

  /** t holds, with scan length tscan, the transpose of the w by h image that s holds. */
  ghost predicate Transposed(s: seq<jint>, w: nat, h: nat, scan: int, t: seq<jint>, tscan: int) {
    && w <= scan && Holds(|s|, w, h, scan)
    && h <= tscan && Holds(|t|, h, w, tscan)
    && forall x, y :: Columns(w, h, scan).Has(x, y) ==>
         At(s, Columns(w, h, scan).Off(x, y)) == At(t, Rows(h, w, tscan).Off(x, y))
  }

  lemma TransposedLine(s: seq<jint>, w: nat, h: nat, scan: int, t: seq<jint>, tscan: int, x: nat)
    requires Transposed(s, w, h, scan, t, tscan) && x < w
    ensures Line(s, x, scan, h) == Line(t, x * tscan, 1, h)
  {
    forall y | 0 <= y < h
      ensures Line(s, x, scan, h)[y] == Line(t, x * tscan, 1, h)[y]
    {
      assert Columns(w, h, scan).Has(x, y);
    }
  }

  /**
   * The vertical filter is the horizontal filter conjugated by transposition: the columns it
   * leaves in its output are the rows the horizontal filter leaves for the transposed source.
   */
  lemma VerticalIsTransposedHorizontal(s: seq<jint>, w: nat, h: nat, scan: int, t: seq<jint>, tscan: int, dsth: nat,
                                       v0: seq<jint>, vscan: int, u0: seq<jint>, uscan: int)
    requires Transposed(s, w, h, scan, t, tscan) && BoxSize(dsth - h + 1)
    requires w <= vscan && Holds(|v0|, w, dsth, vscan)
    requires dsth <= uscan && Holds(|u0|, dsth, w, uscan)
    ensures Transposed(Fill(v0, Columns(w, dsth, vscan), VerticalBlur(s, h, scan, dsth - h + 1)), w, dsth, vscan,
                       Fill(u0, Rows(dsth, w, uscan), HorizontalBlur(t, h, tscan, dsth - h + 1)), uscan)
  {
    var cols, rows := Columns(w, dsth, vscan), Rows(dsth, w, uscan);
    var vp, up := VerticalBlur(s, h, scan, dsth - h + 1), HorizontalBlur(t, h, tscan, dsth - h + 1);
    ImageLayout(w, dsth, vscan, |v0|);
    ImageLayout(dsth, w, uscan, |u0|);
    forall x, y | cols.Has(x, y)
      ensures At(Fill(v0, cols, vp), cols.Off(x, y)) == At(Fill(u0, rows, up), rows.Off(x, y))
    {
      assert rows.Has(x, y);
      FillAt(v0, cols, vp, x, y);
      FillAt(u0, rows, up, x, y);
      TransposedLine(s, w, h, scan, t, tscan, x);
    }
  }

  // ----- The filters on the elements of the source array -----

  lemma ScaledBounds(sum: int, n: int, b: int, k: int)
    requires BoxSize(n) && b == Scaled(sum, n) && k == 0x7fff_ffff / (n * 255)
    ensures b * 0x80_0000 <= sum * k < (b + 1) * 0x80_0000
  {
  }

  /** Horizontally: each channel of the pixel at (x, y) is the scaled sum of that channel over n elements of row y. */
  lemma RowOnSource(s: seq<jint>, srcw: nat, srcscan: int, n: int, d0: seq<jint>, w: nat, h: nat, dstscan: int,
                    x: int, y: int, c: Chan, term: int -> int)
    requires BoxSize(n) && w <= dstscan && Holds(|d0|, w, h, dstscan) && 0 <= x < w && 0 <= y < h
    requires forall i :: x - n < i <= x ==>
               term(i) == if 0 <= i < srcw && 0 <= y * srcscan + i < |s| then Byte(s[y * srcscan + i], c) else 0
    ensures 0 <= y * dstscan + x < |d0|
    ensures var b := Byte(Fill(d0, Rows(w, h, dstscan), HorizontalBlur(s, srcw, srcscan, n))[y * dstscan + x], c);
            b * 0x80_0000 <= ISum(term, x + 1 - n, x + 1) * (0x7fff_ffff / (n * 255)) < (b + 1) * 0x80_0000
  {
    var line := Line(s, y * srcscan, 1, srcw);
    ImageLayout(w, h, dstscan, |d0|);
    FillAt(d0, Rows(w, h, dstscan), HorizontalBlur(s, srcw, srcscan, n), y, x);
    assert Elements(s, y * srcscan, 1, srcw, c, term, x + 1 - n, x + 1);
    WindowOnSource(s, y * srcscan, 1, srcw, c, n, x + 1, term);
    BlurPixelBytes(line, c, n, x);
    ScaledBounds(ISum(term, x + 1 - n, x + 1), n, BlurByte(line, c, n, x), 0x7fff_ffff / (n * 255));
  }

  /** Vertically: the same over n elements of column x. */
  lemma ColumnOnSource(s: seq<jint>, srch: nat, srcscan: int, n: int, d0: seq<jint>, w: nat, h: nat, dstscan: int,
                       x: int, y: int, c: Chan, term: int -> int)
    requires BoxSize(n) && w <= dstscan && Holds(|d0|, w, h, dstscan) && 0 <= x < w && 0 <= y < h
    requires forall i :: y - n < i <= y ==>
               term(i) == if 0 <= i < srch && 0 <= x + i * srcscan < |s| then Byte(s[x + i * srcscan], c) else 0
    ensures 0 <= y * dstscan + x < |d0|
    ensures var b := Byte(Fill(d0, Columns(w, h, dstscan), VerticalBlur(s, srch, srcscan, n))[y * dstscan + x], c);
            b * 0x80_0000 <= ISum(term, y + 1 - n, y + 1) * (0x7fff_ffff / (n * 255)) < (b + 1) * 0x80_0000
  {
    var line := Line(s, x, srcscan, srch);
    ImageLayout(w, h, dstscan, |d0|);
    FillAt(d0, Columns(w, h, dstscan), VerticalBlur(s, srch, srcscan, n), x, y);
    assert Elements(s, x, srcscan, srch, c, term, y + 1 - n, y + 1);
    WindowOnSource(s, x, srcscan, srch, c, n, y + 1, term);
    BlurPixelBytes(line, c, n, y);
    ScaledBounds(ISum(term, y + 1 - n, y + 1), n, BlurByte(line, c, n, y), 0x7fff_ffff / (n * 255));
  }
}

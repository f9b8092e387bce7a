/** `filterHV` of SSELinearConvolvePeer.cc: convolution of every row (or column) with one kernel. */
module LinearConvolve {
  import opened Pixels
  import opened Sums
  import opened Strips
  import opened Lines
  import opened Convolution

  /** The clamp of `fvaltobyte`: below 1 is 0, above 255 - 1/32 is 255, the rest is truncated. */
  function FvalToByte(f: real): (b: byte)
    ensures f < 0.0 ==> b == 0
    ensures 0.0 <= f ==> b as real <= f + 1.0 / 32.0
    ensures 0.0 <= f < 256.0 ==> f < b as real + 1.0
  {
    if f < 1.0 then 0 else if f > 255.0 - 1.0 / 32.0 then 255 else Trunc(f)
  }

  /** It is the floor clamped to a byte, except that the last 1/32 below 255 is rounded up. */
  lemma FvalToByteIsFloor(f: real)
    ensures 254.96875 < f < 255.0 ==> FvalToByte(f) == f.Floor + 1
    ensures !(254.96875 < f < 255.0) ==>
              FvalToByte(f) == if f.Floor < 0 then 0 else if f.Floor > 255 then 255 else f.Floor
  {
  }

  lemma FvalToByteMonotone(f: real, g: real)
    requires f <= g
    ensures FvalToByte(f) <= FvalToByte(g)
  {
  }

  ghost function ConvolvePixel(line: seq<jint>, kernel: seq<real>, x: int): jint {
    Pack(FvalToByte(Convolve(Val(line, A), kernel, x)), FvalToByte(Convolve(Val(line, R), kernel, x)),
         FvalToByte(Convolve(Val(line, G), kernel, x)), FvalToByte(Convolve(Val(line, B), kernel, x)))
  }

  /** Packing never carries: each channel of the pixel is the clamped convolution of that channel. */
  lemma ConvolvePixelBytes(line: seq<jint>, kernel: seq<real>, x: int, c: Chan)
    ensures Byte(ConvolvePixel(line, kernel, x), c) == FvalToByte(Convolve(Val(line, c), kernel, x))
  {
    UnpackPack(FvalToByte(Convolve(Val(line, A), kernel, x)), FvalToByte(Convolve(Val(line, R), kernel, x)),
               FvalToByte(Convolve(Val(line, G), kernel, x)), FvalToByte(Convolve(Val(line, B), kernel, x)), c);
  }

  lemma ValBelowAlpha(line: seq<jint>, c: Chan)
    requires forall i :: 0 <= i < |line| ==> Premultiplied(line[i])
    ensures forall i :: Val(line, c)(i) <= Val(line, A)(i)
  {
    forall i
      ensures Val(line, c)(i) <= Val(line, A)(i)
    {
      assert Premultiplied(At(line, i));
    }
  }

  /** A non-negative kernel keeps premultiplied lines premultiplied. */
  lemma ConvolvePremultiplied(line: seq<jint>, kernel: seq<real>, x: int)
    requires NonNegative(kernel) && forall i :: 0 <= i < |line| ==> Premultiplied(line[i])
    ensures Premultiplied(ConvolvePixel(line, kernel, x))
  {
    forall c: Chan
      ensures Byte(ConvolvePixel(line, kernel, x), c) <= Byte(ConvolvePixel(line, kernel, x), A)
    {
      ConvolvePixelBytes(line, kernel, x, c);
      ConvolvePixelBytes(line, kernel, x, A);
      ValBelowAlpha(line, c);
      ConvolveMonotone(Val(line, c), Val(line, A), kernel, x);
      FvalToByteMonotone(Convolve(Val(line, c), kernel, x), Convolve(Val(line, A), kernel, x));
    }
  }

  /** One of the four interleaved rings kept in `cvals`. */
  function Lane(cvals: seq<real>, k: nat, lane: int): (r: seq<real>)
    requires 4 * k <= |cvals| && 0 <= lane < 4
    ensures |r| == k
  {
    seq(k, i requires 0 <= i < k => cvals[4 * i + lane])
  }

  /** All four rings hold the last k columns of the line. */
  ghost predicate Rings(cvals: seq<real>, k: nat, line: seq<jint>, n: int, t: int) {
    && 4 * k <= |cvals|
    && Ring(Lane(cvals, k, 0), Val(line, A), n, t) && Ring(Lane(cvals, k, 1), Val(line, R), n, t)
    && Ring(Lane(cvals, k, 2), Val(line, G), n, t) && Ring(Lane(cvals, k, 3), Val(line, B), n, t)
  }

  method Clear(cvals: array<real>, k: nat, ghost line: seq<jint>)
    requires 0 < k && 4 * k <= cvals.Length
    modifies cvals
    ensures Rings(cvals[..], k, line, 0, 0)
  {
    for i := 0 to k * 4
      invariant forall j :: 0 <= j < i ==> cvals[j] == 0.0
    {
      cvals[i] := 0.0;
    }
    RingStart(Lane(cvals[..], k, 0), Val(line, A));
    RingStart(Lane(cvals[..], k, 1), Val(line, R));
    RingStart(Lane(cvals[..], k, 2), Val(line, G));
    RingStart(Lane(cvals[..], k, 3), Val(line, B));
  }

  lemma LaneUpdate(before: seq<real>, after: seq<real>, k: nat, lane: int, t: nat, v: real)
    requires 4 * k <= |before| == |after| && 0 <= lane < 4 && t < k && after[4 * t + lane] == v
    requires forall j :: 0 <= j < |before| && !(4 * t <= j < 4 * t + 4) ==> after[j] == before[j]
    ensures Lane(after, k, lane) == Lane(before, k, lane)[t := v]
  {
    forall i | 0 <= i < k
      ensures Lane(after, k, lane)[i] == Lane(before, k, lane)[t := v][i]
    {
      assert i != t ==> !(4 * t <= 4 * i + lane < 4 * t + 4);
    }
  }

  /** Load the four components of a pixel into slot t. */
  method Load(cvals: array<real>, slot: nat, rgb: jint, ghost k: nat, ghost line: seq<jint>, ghost n: int, ghost t: nat)
    requires slot == t < k && Rings(cvals[..], k, line, n, t) && rgb == At(line, n)
    modifies cvals
    ensures Rings(cvals[..], k, line, n + 1, Next(k, t))
  {
    var i := slot * 4;
    ghost var before := cvals[..];
    cvals[i + 0] := Byte(rgb, A) as real;
    cvals[i + 1] := Byte(rgb, R) as real;
    cvals[i + 2] := Byte(rgb, G) as real;
    cvals[i + 3] := Byte(rgb, B) as real;
    LaneUpdate(before, cvals[..], k, 0, t, Byte(rgb, A) as real);
    LaneUpdate(before, cvals[..], k, 1, t, Byte(rgb, R) as real);
    LaneUpdate(before, cvals[..], k, 2, t, Byte(rgb, G) as real);
    LaneUpdate(before, cvals[..], k, 3, t, Byte(rgb, B) as real);
    RingLoad(Lane(before, k, 0), Val(line, A), n, t);
    RingLoad(Lane(before, k, 1), Val(line, R), n, t);
    RingLoad(Lane(before, k, 2), Val(line, G), n, t);
    RingLoad(Lane(before, k, 3), Val(line, B), n, t);
  }

  /** The inner loop: four sums of products, the kernel read from `koff` on. */
  method Multiply(cvals: array<real>, kvals: seq<real>, k: nat, koff: nat)
    returns (suma: real, sumr: real, sumg: real, sumb: real)
    requires 4 * k <= cvals.Length && koff + k <= |kvals|
    ensures suma == RingSum(Lane(cvals[..], k, 0), kvals, koff, k)
    ensures sumr == RingSum(Lane(cvals[..], k, 1), kvals, koff, k)
    ensures sumg == RingSum(Lane(cvals[..], k, 2), kvals, koff, k)
    ensures sumb == RingSum(Lane(cvals[..], k, 3), kvals, koff, k)
  {
    suma, sumr, sumg, sumb := 0.0, 0.0, 0.0, 0.0;
    ghost var la, lr, lg, lb := Lane(cvals[..], k, 0), Lane(cvals[..], k, 1), Lane(cvals[..], k, 2),
        Lane(cvals[..], k, 3);
    var i, m := 0, 0;
    while i < k * 4
      invariant i == 4 * m && m <= k
      invariant suma == RingSum(la, kvals, koff, m) && sumr == RingSum(lr, kvals, koff, m)
      invariant sumg == RingSum(lg, kvals, koff, m) && sumb == RingSum(lb, kvals, koff, m)
    {
      var factor := kvals[koff + m];
      var pa, pr, pg, pb := cvals[i + 0] * factor, cvals[i + 1] * factor, cvals[i + 2] * factor, cvals[i + 3] * factor;
      RingSumStep(la, kvals, koff, m, cvals[i + 0], factor, pa);
      RingSumStep(lr, kvals, koff, m, cvals[i + 1], factor, pr);
      RingSumStep(lg, kvals, koff, m, cvals[i + 2], factor, pg);
      RingSumStep(lb, kvals, koff, m, cvals[i + 3], factor, pb);
      suma, sumr, sumg, sumb := suma + pa, sumr + pr, sumg + pg, sumb + pb;
      i, m := i + 4, m + 1;
    }
  }

  /** Line l of the output is the convolution of the given source line. */
  ghost predicate Convolves(px: (int, int) -> jint, l: int, line: seq<jint>, kernel: seq<real>) {
    forall x {:trigger ConvolvePixel(line, kernel, x)} :: px(l, x) == ConvolvePixel(line, kernel, x)
  }

  /** Multiply and convert: the pixel of the column last loaded. */
  method Column(cvals: array<real>, kvals: seq<real>, k: nat, koff: nat,
                ghost line: seq<jint>, ghost n: int, ghost t: int, ghost l: int, ghost px: (int, int) -> jint)
    returns (rgb: jint)
    requires Doubled(kvals, k) && koff == k - t && Rings(cvals[..], k, line, n, t)
    requires Convolves(px, l, line, kvals[..k])
    ensures rgb == px(l, n - 1)
  {
    var suma, sumr, sumg, sumb := Multiply(cvals, kvals, k, koff);
    RingsConvolve(cvals[..], kvals, k, line, n, t);
    rgb := Pack(FvalToByte(suma), FvalToByte(sumr), FvalToByte(sumg), FvalToByte(sumb));
    assert rgb == ConvolvePixel(line, kvals[..k], n - 1);
  }

  lemma RingsConvolve(cvals: seq<real>, kvals: seq<real>, k: nat, line: seq<jint>, n: int, t: int)
    requires Doubled(kvals, k) && Rings(cvals, k, line, n, t)
    ensures RingSum(Lane(cvals, k, 0), kvals, k - t, k) == Convolve(Val(line, A), kvals[..k], n - 1)
    ensures RingSum(Lane(cvals, k, 1), kvals, k - t, k) == Convolve(Val(line, R), kvals[..k], n - 1)
    ensures RingSum(Lane(cvals, k, 2), kvals, k - t, k) == Convolve(Val(line, G), kvals[..k], n - 1)
    ensures RingSum(Lane(cvals, k, 3), kvals, k - t, k) == Convolve(Val(line, B), kvals[..k], n - 1)
  {
    RingSumIsConvolution(Lane(cvals, k, 0), Val(line, A), kvals, n, t);
    RingSumIsConvolution(Lane(cvals, k, 1), Val(line, R), kvals, n, t);
    RingSumIsConvolution(Lane(cvals, k, 2), Val(line, G), kvals, n, t);
    RingSumIsConvolution(Lane(cvals, k, 3), Val(line, B), kvals, n, t);
  }

  /** The body of the middle loop: load a column, bump `koff`, multiply and convert. */
  method Step(cvals: array<real>, kvals: seq<real>, k: nat, koff: nat, rgb: jint,
              ghost line: seq<jint>, ghost c: nat, ghost t: nat, ghost l: int, ghost px: (int, int) -> jint)
    returns (koff': nat, out: jint, ghost t': nat)
    requires Doubled(kvals, k) && koff == k - t && Rings(cvals[..], k, line, c, t) && rgb == At(line, c)
    requires Convolves(px, l, line, kvals[..k])
    modifies cvals
    ensures koff' == k - t' && Rings(cvals[..], k, line, c + 1, t') && out == px(l, c)
  {
    Load(cvals, k - koff, rgb, k, line, c, t);
    koff' := koff - 1;
    if koff' <= 0 {
      koff' := koff' + k;
    }
    t' := Next(k, t);
    out := Column(cvals, kvals, k, koff', line, c + 1, t', l, px);
  }

  function Min(a: nat, b: nat): nat {
    if a < b then a else b
  }

  /** The middle loop: one row of the sweep. */
  method Row(dst: array<jint>, ghost d: Layout, src: array<jint>, ghost s: Layout, srccols: nat, dstcols: nat,
             dstrow: int, srcrow: int, dcolinc: int, scolinc: int, cvals: array<real>, kvals: seq<real>, k: nat,
             ghost line: seq<jint>, ghost d0: seq<jint>, ghost r: nat, ghost px: (int, int) -> jint)
    requires dst != src && cvals.Length == 512 && k <= 128 && Doubled(kvals, k)
    requires d.len == dstcols && d.iinc == dcolinc && r < d.lines && d.Fits(dst.Length) && dstrow == d.Off(r, 0)
    requires s.len == Min(srccols, dstcols) && s.iinc == scolinc && r < s.lines && s.Fits(src.Length)
    requires srcrow == s.Off(r, 0)
    requires line == Line(src[..], srcrow, scolinc, srccols)
    requires Convolves(px, r, line, kvals[..k])
    requires dst[..] == FillTo(d0, d, r, 0, px)
    modifies dst, cvals
    ensures dst[..] == FillTo(d0, d, r + 1, 0, px)
  {
    var dstoff, srcoff := dstrow, srcrow;
    Clear(cvals, k, line);
    var koff := k;
    ghost var t: nat := 0;
    for c := 0 to dstcols
      invariant line == Line(src[..], srcrow, scolinc, srccols)
      invariant koff == k - t && Rings(cvals[..], k, line, c, t)
      invariant dstoff == d.Off(r, c) && srcoff == s.Off(r, c)
      invariant dst[..] == FillTo(d0, d, r, c, px)
    {
      assert d.Has(r, c) && (c < srccols ==> s.Has(r, c));
      LineAt(src[..], srcrow, scolinc, srccols, c, srcoff);
      var rgb := if c < srccols then src[srcoff] else 0;
      var out: jint;
      koff, out, t := Step(cvals, kvals, k, koff, rgb, line, c, t, r, px);
      Put(dst, dstoff, out, d0, d, r, c, px);
      NextLine(c, dcolinc);
      NextLine(c, scolinc);
      dstoff := dstoff + dcolinc;
      srcoff := srcoff + scolinc;
    }
  }

  /** The output of `filterHV`: line l is the convolution of source line l. */
  ghost function Convolved(src: seq<jint>, srccols: nat, scolinc: int, srowinc: int, kernel: seq<real>)
    : (int, int) -> jint
  {
    (r, c) => ConvolvePixel(Line(src, r * srowinc, scolinc, srccols), kernel, c)
  }

  method FilterHV(dst: array<jint>, dstcols: nat, dstrows: nat, dcolinc: int, drowinc: int,
                  src: array<jint>, srccols: nat, scolinc: int, srowinc: int, kvals: seq<real>)
    requires dst != src
    requires Layout(dstrows, dstcols, drowinc, dcolinc).Fits(dst.Length)
    requires Layout(dstrows, Min(srccols, dstcols), srowinc, scolinc).Fits(src.Length)
    requires |kvals| / 2 <= 128 ==> Doubled(kvals, |kvals| / 2)
    modifies dst
    ensures |kvals| / 2 > 128 ==> dst[..] == old(dst[..])
    ensures |kvals| / 2 <= 128 ==>
              dst[..] == Fill(old(dst[..]), Layout(dstrows, dstcols, drowinc, dcolinc),
                              Convolved(src[..], srccols, scolinc, srowinc, kvals[..|kvals| / 2]))
  {
    var kernelSize := |kvals| / 2;
    if kernelSize > 128 {
      return;
    }
    var cvals := new real[512];
    var dstrow, srcrow := 0, 0;
    ghost var d, s := Layout(dstrows, dstcols, drowinc, dcolinc),
        Layout(dstrows, Min(srccols, dstcols), srowinc, scolinc);
    ghost var px := Convolved(src[..], srccols, scolinc, srowinc, kvals[..kernelSize]);
    for r := 0 to dstrows
      invariant dstrow == d.Off(r, 0) && srcrow == s.Off(r, 0)
      invariant dst[..] == FillTo(old(dst[..]), d, r, 0, px)
    {
      Row(dst, d, src, s, srccols, dstcols, dstrow, srcrow, dcolinc, scolinc, cvals, kvals, kernelSize,
          Line(src[..], srcrow, scolinc, srccols), old(dst[..]), r, px);
      NextLine(r, drowinc);
      NextLine(r, srowinc);
      dstrow := dstrow + drowinc;
      srcrow := srcrow + srowinc;
    }
  }

  /** Over whole images: every pixel a non-negative kernel leaves is premultiplied. */
  lemma ImagePremultiplied(src: seq<jint>, srccols: nat, scolinc: int, srowinc: int, kernel: seq<real>, d0: seq<jint>,
                           d: Layout, r: int, c: int)
    requires NonNegative(kernel) && forall k :: 0 <= k < |src| ==> Premultiplied(src[k])
    requires d.Fits(|d0|) && d.Injective() && d.Has(r, c)
    ensures 0 <= d.Off(r, c) < |d0|
    ensures Premultiplied(Fill(d0, d, Convolved(src, srccols, scolinc, srowinc, kernel))[d.Off(r, c)])
  {
    FillAt(d0, d, Convolved(src, srccols, scolinc, srowinc, kernel), r, c);
    LinePremultiplied(src, r * srowinc, scolinc, srccols);
    ConvolvePremultiplied(Line(src, r * srowinc, scolinc, srccols), kernel, c);
  }

  /** Term j is kernel[j] times channel ch of element start + (x + 1 - K + j) * step, zero outside the line. */
  ghost predicate Products(src: seq<jint>, start: int, step: int, len: int, ch: Chan, kernel: seq<real>, x: int,
                           term: int -> real) {
    forall j :: 0 <= j < |kernel| ==>
      var i := x + 1 - |kernel| + j;
      var off := start + i * step;
      term(j) == kernel[j] * (if 0 <= i < len && 0 <= off < |src| then Byte(src[off], ch) else 0) as real
  }

  lemma ProductIs(src: seq<jint>, start: int, step: int, len: nat, ch: Chan, kernel: seq<real>, x: int,
                  term: int -> real, j: int)
    requires Products(src, start, step, len, ch, kernel, x, term) && 0 <= j < |kernel|
    ensures ConvTerm(Val(Line(src, start, step, len), ch), kernel, x)(j) == term(j)
  {
    ValOnSource(src, start, step, len, ch, x + 1 - |kernel| + j);
  }

  lemma ConvolveOnSource(src: seq<jint>, start: int, step: int, len: nat, ch: Chan, kernel: seq<real>, x: int,
                         term: int -> real)
    requires Products(src, start, step, len, ch, kernel, x, term)
    ensures Convolve(Val(Line(src, start, step, len), ch), kernel, x) == Sum(term, 0, |kernel|)
  {
    var f := ConvTerm(Val(Line(src, start, step, len), ch), kernel, x);
    forall j | 0 <= j < |kernel|
      ensures f(j) == term(j)
    {
      ProductIs(src, start, step, len, ch, kernel, x, term, j);
    }
    SumEqual(f, term, 0, |kernel|);
  }

  /**
   * On the elements of the source array: channel ch of the pixel stored for row r, column c is the
   * clamped sum over j of kernel[j] times that channel of row r, column c + 1 - K + j of the
   * source, columns outside the source counting as zero.
   */
  lemma OnSource(src: seq<jint>, srccols: nat, scolinc: int, srowinc: int, kernel: seq<real>, d0: seq<jint>,
                 dstcols: nat, dstrows: nat, dcolinc: int, drowinc: int, r: int, c: int, ch: Chan, term: int -> real)
    requires Layout(dstrows, dstcols, drowinc, dcolinc).Fits(|d0|)
    requires Layout(dstrows, dstcols, drowinc, dcolinc).Injective()
    requires 0 <= r < dstrows && 0 <= c < dstcols
    requires Products(src, r * srowinc, scolinc, srccols, ch, kernel, c, term)
    ensures 0 <= r * drowinc + c * dcolinc < |d0|
    ensures var d := Layout(dstrows, dstcols, drowinc, dcolinc);
            var out := Fill(d0, d, Convolved(src, srccols, scolinc, srowinc, kernel));
            Byte(out[r * drowinc + c * dcolinc], ch) == FvalToByte(Sum(term, 0, |kernel|))
  {
    FillAt(d0, Layout(dstrows, dstcols, drowinc, dcolinc), Convolved(src, srccols, scolinc, srowinc, kernel), r, c);
    ConvolvePixelBytes(Line(src, r * srowinc, scolinc, srccols), kernel, c, ch);
    ConvolveOnSource(src, r * srowinc, scolinc, srccols, ch, kernel, c, term);
  }
}

/** `filterHV` of SSELinearConvolveShadowPeer.cc: convolve alpha, round, and look the colour up in a table. */
module ConvolveShadow {
  import opened Pixels
  import opened Sums
  import opened Strips
  import opened Lines
  import opened Convolution
  import LinearConvolve
  import BoxShadow

  type Colour = BoxShadow.Colour

  function Scale(v: real, i: int): int {
    Trunc(v * i as real)
  }

  /** The shadow colour at alpha level i. */
  function TableEntry(v: Colour, i: int): jint {
    PackOr(Scale(v.a, i), Scale(v.r, i), Scale(v.g, i), Scale(v.b, i))
  }

  /** Round half up, clamped to a byte. */
  function RoundToByte(s: real): byte {
    var n := (s + 0.5).Floor;
    if n < 0 then 0 else if n > 255 then 255 else n
  }

  ghost function ShadowPixel(line: seq<jint>, kernel: seq<real>, v: Colour, x: int): jint {
    TableEntry(v, RoundToByte(Convolve(Val(line, A), kernel, x)))
  }

  lemma ScaleFits(v: real, i: int)
    requires 0.0 <= v <= 1.0 && 0 <= i
    ensures 0 <= Scale(v, i) <= i
  {
    BoxShadow.UnitFraction(v, i as real);
    assert v * i as real == i as real * v;
    TruncBetween(v * i as real, 0, i);
  }

  /** For colour components in 0..1 an entry unpacks to the four truncated products. */
  lemma TableEntryBytes(v: Colour, i: byte, c: Chan)
    requires v.Unit()
    ensures Byte(TableEntry(v, i), c) == Scale(Select(c, v.a, v.r, v.g, v.b), i)
  {
    ScaleFits(v.a, i);
    ScaleFits(v.r, i);
    ScaleFits(v.g, i);
    ScaleFits(v.b, i);
    PackOrBytes(Scale(v.a, i), Scale(v.r, i), Scale(v.g, i), Scale(v.b, i));
    UnpackPack(Scale(v.a, i), Scale(v.r, i), Scale(v.g, i), Scale(v.b, i), c);
  }

  lemma ScaleZero(v: real)
    ensures Scale(v, 0) == 0
  {
    assert v * 0 as real == 0.0;
  }

  lemma TableEntryZero(v: Colour)
    ensures TableEntry(v, 0) == 0
  {
    ScaleZero(v.a);
    ScaleZero(v.r);
    ScaleZero(v.g);
    ScaleZero(v.b);
    PackOrZero();
  }

  /** Entry i is the shadow colour at level i. */
  ghost predicate TableOk(t: seq<jint>, v: Colour) {
    |t| == 256 && forall i :: 0 <= i < 256 ==> t[i] == TableEntry(v, i)
  }

  method BuildTable(v: Colour) returns (t: array<jint>)
    ensures fresh(t) && t.Length == 256 && TableOk(t[..], v)
  {
    t := new jint[256];
    for i := 0 to 256
      invariant forall j :: 0 <= j < i ==> t[j] == TableEntry(v, j)
    {
      t[i] := TableEntry(v, i);
    }
  }

  lemma RoundBranches(s: real)
    ensures s - 0.5 < 0.0 ==> RoundToByte(s) == 0
    ensures s - 0.5 >= 254.0 ==> RoundToByte(s) == 255
    ensures 0.0 <= s - 0.5 < 254.0 ==> RoundToByte(s) == Trunc(s - 0.5) + 1
  {
    assert (s + 0.5).Floor == (s - 0.5).Floor + 1;
  }

  /** The table index is always in range, and the three branches together round to the nearest level. */
  method Lookup(t: array<jint>, sum: real, ghost v: Colour, ghost s: real) returns (rgb: jint)
    requires t.Length == 256 && TableOk(t[..], v) && sum == s - 0.5
    ensures rgb == TableEntry(v, RoundToByte(s))
  {
    TableEntryZero(v);
    RoundBranches(s);
    if sum < 0.0 {
      rgb := 0;
    } else if sum >= 254.0 {
      rgb := t[255];
    } else {
      rgb := t[Trunc(sum) + 1];
    }
  }

  /** The innermost loop: `sum` starts at -1/2. */
  method Multiply(avals: array<real>, kvals: seq<real>, k: nat, koff: nat) returns (sum: real)
    requires k <= avals.Length && koff + k <= |kvals|
    ensures sum == RingSum(avals[..k], kvals, koff, k) - 0.5
  {
    sum := -0.5;
    ghost var ring, total := avals[..k], 0.0;
    for i := 0 to k
      invariant total == RingSum(ring, kvals, koff, i) && sum == total - 0.5
    {
      var product := avals[i] * kvals[koff + i];
      assert avals[i] == ring[i];
      RingSumStep(ring, kvals, koff, i, avals[i], kvals[koff + i], product);
      total := total + product;
      sum := sum + product;
    }
  }

  /** Line l of the output is the shadow of the given source line. */
  ghost predicate Shadows(px: (int, int) -> jint, l: int, line: seq<jint>, kernel: seq<real>, v: Colour) {
    forall x {:trigger ShadowPixel(line, kernel, v, x)} :: px(l, x) == ShadowPixel(line, kernel, v, x)
  }

  /** Load the alpha of a pixel into the slot. */
  method Load(avals: array<real>, slot: nat, rgb: jint, ghost k: nat, ghost line: seq<jint>, ghost c: int)
    requires k <= avals.Length && Ring(avals[..k], Val(line, A), c, slot) && rgb == At(line, c)
    modifies avals
    ensures Ring(avals[..k], Val(line, A), c + 1, Next(k, slot))
  {
    RingLoad(avals[..k], Val(line, A), c, slot);
    ghost var ring := avals[..k];
    avals[slot] := Byte(rgb, A) as real;
    assert avals[..k] == ring[slot := Val(line, A)(c) as real];
  }

  /** Multiply, round and look up: the pixel of the column last loaded. */
  method Column(avals: array<real>, kvals: seq<real>, k: nat, koff: nat, t: array<jint>, ghost v: Colour,
                ghost line: seq<jint>, ghost n: int, ghost slot: int, ghost l: int, ghost px: (int, int) -> jint)
    returns (rgb: jint)
    requires k <= avals.Length && Doubled(kvals, k) && koff == k - slot && Ring(avals[..k], Val(line, A), n, slot)
    requires t.Length == 256 && TableOk(t[..], v)
    requires Shadows(px, l, line, kvals[..k], v)
    ensures rgb == px(l, n - 1)
  {
    RingSumIsConvolution(avals[..k], Val(line, A), kvals, n, slot);
    var sum := Multiply(avals, kvals, k, koff);
    rgb := Lookup(t, sum, v, Convolve(Val(line, A), kvals[..k], n - 1));
    assert rgb == ShadowPixel(line, kvals[..k], v, n - 1);
  }

  /** The body of the middle loop: load an alpha, bump `koff`, multiply, round and look up. */
  method Step(avals: array<real>, kvals: seq<real>, k: nat, koff: nat, rgb: jint, t: array<jint>, ghost v: Colour,
              ghost line: seq<jint>, ghost c: nat, ghost slot: nat, ghost l: int, ghost px: (int, int) -> jint)
    returns (koff': nat, out: jint, ghost slot': nat)
    requires k <= avals.Length && Doubled(kvals, k) && koff == k - slot && Ring(avals[..k], Val(line, A), c, slot)
    requires rgb == At(line, c) && t.Length == 256 && TableOk(t[..], v)
    requires Shadows(px, l, line, kvals[..k], v)
    modifies avals
    ensures koff' == k - slot' && Ring(avals[..k], Val(line, A), c + 1, slot') && out == px(l, c)
  {
    Load(avals, k - koff, rgb, k, line, c);
    koff' := koff - 1;
    if koff' <= 0 {
      koff' := koff' + k;
    }
    slot' := Next(k, slot);
    out := Column(avals, kvals, k, koff', t, v, line, c + 1, slot', l, px);
  }

  method Clear(avals: array<real>, k: nat, ghost line: seq<jint>)
    requires 0 < k <= avals.Length
    modifies avals
    ensures Ring(avals[..k], Val(line, A), 0, 0)
  {
    for i := 0 to k
      invariant forall j :: 0 <= j < i ==> avals[j] == 0.0
    {
      avals[i] := 0.0;
    }
    RingStart(avals[..k], Val(line, A));
  }

  /** The middle loop: one row of the sweep. */
  method Row(dst: array<jint>, ghost d: Layout, src: array<jint>, ghost s: Layout, srccols: nat, dstcols: nat,
             dstrow: int, srcrow: int, dcolinc: int, scolinc: int, avals: array<real>, kvals: seq<real>, k: nat,
             t: array<jint>, ghost v: Colour,
             ghost line: seq<jint>, ghost d0: seq<jint>, ghost r: nat, ghost px: (int, int) -> jint)
    requires dst != src && t != dst && avals.Length == 128 && k <= 128 && Doubled(kvals, k)
    requires t.Length == 256 && TableOk(t[..], v)
    requires d.len == dstcols && d.iinc == dcolinc && r < d.lines && d.Fits(dst.Length) && dstrow == d.Off(r, 0)
    requires s.len == LinearConvolve.Min(srccols, dstcols) && s.iinc == scolinc && r < s.lines && s.Fits(src.Length)
    requires srcrow == s.Off(r, 0)
    requires line == Line(src[..], srcrow, scolinc, srccols)
    requires Shadows(px, r, line, kvals[..k], v)
    requires dst[..] == FillTo(d0, d, r, 0, px)
    modifies dst, avals
    ensures dst[..] == FillTo(d0, d, r + 1, 0, px)
  {
    var dstoff, srcoff := dstrow, srcrow;
    Clear(avals, k, line);
    var koff := k;
    ghost var slot: nat := 0;
    for c := 0 to dstcols
      invariant line == Line(src[..], srcrow, scolinc, srccols)
      invariant koff == k - slot && Ring(avals[..k], Val(line, A), c, slot)
      invariant dstoff == d.Off(r, c) && srcoff == s.Off(r, c)
      invariant dst[..] == FillTo(d0, d, r, c, px)
    {
      assert d.Has(r, c) && (c < srccols ==> s.Has(r, c));
      LineAt(src[..], srcrow, scolinc, srccols, c, srcoff);
      var rgb := if c < srccols then src[srcoff] else 0;
      var out: jint;
      koff, out, slot := Step(avals, kvals, k, koff, rgb, t, v, line, c, slot, r, px);
      Put(dst, dstoff, out, d0, d, r, c, px);
      NextLine(c, dcolinc);
      NextLine(c, scolinc);
      dstoff := dstoff + dcolinc;
      srcoff := srcoff + scolinc;
    }
  }

  /** The output of `filterHV`: line l is the shadow of source line l. */
  ghost function Shadowed(src: seq<jint>, srccols: nat, scolinc: int, srowinc: int, kernel: seq<real>, v: Colour)
    : (int, int) -> jint
  {
    (r, c) => ShadowPixel(Line(src, r * srowinc, scolinc, srccols), kernel, v, c)
  }

  method FilterHV(dst: array<jint>, dstcols: nat, dstrows: nat, dcolinc: int, drowinc: int,
                  src: array<jint>, srccols: nat, scolinc: int, srowinc: int, kvals: seq<real>, shadowColor: Colour)
    requires dst != src
    requires Layout(dstrows, dstcols, drowinc, dcolinc).Fits(dst.Length)
    requires Layout(dstrows, LinearConvolve.Min(srccols, dstcols), srowinc, scolinc).Fits(src.Length)
    requires |kvals| / 2 <= 128 ==> Doubled(kvals, |kvals| / 2)
    modifies dst
    ensures |kvals| / 2 > 128 ==> dst[..] == old(dst[..])
    ensures |kvals| / 2 <= 128 ==>
              dst[..] == Fill(old(dst[..]), Layout(dstrows, dstcols, drowinc, dcolinc),
                              Shadowed(src[..], srccols, scolinc, srowinc, kvals[..|kvals| / 2], shadowColor))
  {
    var kernelSize := |kvals| / 2;
    if kernelSize > 128 {
      return;
    }
    var t := BuildTable(shadowColor);
    var avals := new real[128];
    var dstrow, srcrow := 0, 0;
    ghost var d, s := Layout(dstrows, dstcols, drowinc, dcolinc),
        Layout(dstrows, LinearConvolve.Min(srccols, dstcols), srowinc, scolinc);
    ghost var px := Shadowed(src[..], srccols, scolinc, srowinc, kvals[..kernelSize], shadowColor);
    for r := 0 to dstrows
      invariant dstrow == d.Off(r, 0) && srcrow == s.Off(r, 0)
      invariant TableOk(t[..], shadowColor)
      invariant dst[..] == FillTo(old(dst[..]), d, r, 0, px)
    {
      Row(dst, d, src, s, srccols, dstcols, dstrow, srcrow, dcolinc, scolinc, avals, kvals, kernelSize, t, shadowColor,
          Line(src[..], srcrow, scolinc, srccols), old(dst[..]), r, px);
      NextLine(r, drowinc);
      NextLine(r, srowinc);
      dstrow := dstrow + drowinc;
      srcrow := srcrow + srowinc;
    }
  }

  lemma ScaleMonotone(v: real, w: real, i: int, j: int)
    requires 0.0 <= v <= w && 0 <= i <= j
    ensures Scale(v, i) <= Scale(w, j)
  {
    ProductLe(v, w, i as real, j as real);
    TruncMonotone(v * i as real, w * j as real);
  }

  lemma ProductLe(v: real, w: real, a: real, b: real)
    requires 0.0 <= v <= w && 0.0 <= a <= b
    ensures v * a <= w * b
  {
    assert v * (b - a) >= 0.0;
    assert (w - v) * b >= 0.0;
  }

  /** With a non-negative kernel more source alpha never gives less shadow. */
  lemma ShadowMonotone(line: seq<jint>, line': seq<jint>, kernel: seq<real>, v: Colour, x: int)
    requires NonNegative(kernel) && v.Unit() && Dominated(line, A, line', A)
    ensures Byte(ShadowPixel(line, kernel, v, x), A) <= Byte(ShadowPixel(line', kernel, v, x), A)
  {
    var s, s' := Convolve(Val(line, A), kernel, x), Convolve(Val(line', A), kernel, x);
    ConvolveMonotone(Val(line, A), Val(line', A), kernel, x);
    TableEntryBytes(v, RoundToByte(s), A);
    TableEntryBytes(v, RoundToByte(s'), A);
    ScaleMonotone(v.a, v.a, RoundToByte(s), RoundToByte(s'));
  }

  /** A premultiplied shadow colour gives premultiplied pixels. */
  lemma ShadowPremultiplied(line: seq<jint>, kernel: seq<real>, v: Colour, x: int)
    requires v.Unit() && v.r <= v.a && v.g <= v.a && v.b <= v.a
    ensures Premultiplied(ShadowPixel(line, kernel, v, x))
  {
    var i := RoundToByte(Convolve(Val(line, A), kernel, x));
    forall c: Chan
      ensures Byte(TableEntry(v, i), c) <= Byte(TableEntry(v, i), A)
    {
      TableEntryBytes(v, i, c);
      TableEntryBytes(v, i, A);
      ScaleMonotone(Select(c, v.a, v.r, v.g, v.b), v.a, i, i);
    }
  }

  lemma ShadowedAt(src: seq<jint>, srccols: nat, scolinc: int, srowinc: int, kernel: seq<real>, v: Colour,
                   d0: seq<jint>, d: Layout, r: int, c: int)
    requires d.Fits(|d0|) && d.Injective() && d.Has(r, c)
    ensures 0 <= d.Off(r, c) < |d0|
    ensures Fill(d0, d, Shadowed(src, srccols, scolinc, srowinc, kernel, v))[d.Off(r, c)]
         == ShadowPixel(Line(src, r * srowinc, scolinc, srccols), kernel, v, c)
  {
    FillAt(d0, d, Shadowed(src, srccols, scolinc, srowinc, kernel, v), r, c);
  }

  /** Over whole images: a premultiplied shadow colour leaves only premultiplied pixels. */
  lemma ImagePremultiplied(src: seq<jint>, srccols: nat, scolinc: int, srowinc: int, kernel: seq<real>, v: Colour,
                           d0: seq<jint>, d: Layout, r: int, c: int)
    requires v.Unit() && v.r <= v.a && v.g <= v.a && v.b <= v.a && d.Fits(|d0|) && d.Injective() && d.Has(r, c)
    ensures 0 <= d.Off(r, c) < |d0|
    ensures Premultiplied(Fill(d0, d, Shadowed(src, srccols, scolinc, srowinc, kernel, v))[d.Off(r, c)])
  {
    ShadowedAt(src, srccols, scolinc, srowinc, kernel, v, d0, d, r, c);
    ShadowPremultiplied(Line(src, r * srowinc, scolinc, srccols), kernel, v, c);
  }

  /** Over whole images: more source alpha everywhere gives no less shadow anywhere. */
  lemma ImageMonotone(src: seq<jint>, src': seq<jint>, srccols: nat, scolinc: int, srowinc: int, kernel: seq<real>,
                      v: Colour, d0: seq<jint>, e0: seq<jint>, d: Layout, r: int, c: int)
    requires NonNegative(kernel) && v.Unit() && Dominated(src, A, src', A)
    requires d.Fits(|d0|) && d.Fits(|e0|) && d.Injective() && d.Has(r, c)
    ensures 0 <= d.Off(r, c) < |d0| && d.Off(r, c) < |e0|
    ensures Byte(Fill(d0, d, Shadowed(src, srccols, scolinc, srowinc, kernel, v))[d.Off(r, c)], A)
         <= Byte(Fill(e0, d, Shadowed(src', srccols, scolinc, srowinc, kernel, v))[d.Off(r, c)], A)
  {
    ShadowedAt(src, srccols, scolinc, srowinc, kernel, v, d0, d, r, c);
    ShadowedAt(src', srccols, scolinc, srowinc, kernel, v, e0, d, r, c);
    LineDominated(src, src', A, r * srowinc, scolinc, srccols);
    ShadowMonotone(Line(src, r * srowinc, scolinc, srccols), Line(src', r * srowinc, scolinc, srccols), kernel, v, c);
  }

  /** A component at a level is their product, rounded down. */
  lemma ScaleIsFloor(v: real, i: int)
    requires 0.0 <= v && 0 <= i
    ensures Scale(v, i) as real <= v * i as real < Scale(v, i) as real + 1.0
  {
    BoxShadow.ProductNonNegative(v, i as real);
  }

  /** The level is the nearest integer to s, halves upward, brought into 0..255. */
  predicate Level(s: real, i: int) {
    && 0 <= i <= 255
    && (i > 0 ==> i as real <= s + 0.5)
    && (i < 255 ==> s + 0.5 < i as real + 1.0)
  }

  lemma RoundIsLevel(s: real)
    ensures Level(s, RoundToByte(s))
  {
  }

  lemma LevelUnique(s: real, i: int, j: int)
    requires Level(s, i) && Level(s, j)
    ensures i == j
  {
  }

  lemma PixelAtLevel(line: seq<jint>, kernel: seq<real>, v: Colour, x: int, s: real, level: int)
    requires s == Convolve(Val(line, A), kernel, x) && Level(s, level)
    ensures ShadowPixel(line, kernel, v, x) == TableEntry(v, level)
  {
    RoundIsLevel(s);
    LevelUnique(s, level, RoundToByte(s));
  }

  /** b is the number p rounded down. */
  predicate IsFloor(b: int, p: real) {
    b as real <= p < b as real + 1.0
  }

  lemma EntryIsFloor(v: Colour, level: byte, ch: Chan, u: real, p: real)
    requires v.Unit() && p == u * level as real
    requires (ch == A ==> u == v.a) && (ch == R ==> u == v.r) && (ch == G ==> u == v.g) && (ch == B ==> u == v.b)
    ensures IsFloor(Byte(TableEntry(v, level), ch), p)
  {
    TableEntryBytes(v, level, ch);
    assert Select(ch, v.a, v.r, v.g, v.b) == u;
    ScaleIsFloor(u, level);
  }

  lemma PixelIsFloor(line: seq<jint>, kernel: seq<real>, v: Colour, x: int, s: real, level: byte, ch: Chan,
                     u: real, p: real)
    requires s == Convolve(Val(line, A), kernel, x) && Level(s, level) && v.Unit() && p == u * level as real
    requires (ch == A ==> u == v.a) && (ch == R ==> u == v.r) && (ch == G ==> u == v.g) && (ch == B ==> u == v.b)
    ensures IsFloor(Byte(ShadowPixel(line, kernel, v, x), ch), p)
  {
    PixelAtLevel(line, kernel, v, x, s, level);
    EntryIsFloor(v, level, ch, u, p);
  }

  /**
   * On the elements of the source array: channel ch of the pixel stored for row r, column c is the
   * colour's component u times the level nearest to the convolution of the source alphas, rounded
   * down.
   */
  lemma OnSource(src: seq<jint>, srccols: nat, scolinc: int, srowinc: int, kernel: seq<real>, v: Colour, d0: seq<jint>,
                 dstcols: nat, dstrows: nat, dcolinc: int, drowinc: int, r: int, c: int, ch: Chan,
                 term: int -> real, level: byte, u: real, p: real, off: int)
    requires Layout(dstrows, dstcols, drowinc, dcolinc).Fits(|d0|)
    requires Layout(dstrows, dstcols, drowinc, dcolinc).Injective()
    requires 0 <= r < dstrows && 0 <= c < dstcols && v.Unit() && off == r * drowinc + c * dcolinc
    requires LinearConvolve.Products(src, r * srowinc, scolinc, srccols, A, kernel, c, term)
    requires Level(Sum(term, 0, |kernel|), level) && p == u * level as real
    requires (ch == A ==> u == v.a) && (ch == R ==> u == v.r) && (ch == G ==> u == v.g) && (ch == B ==> u == v.b)
    ensures 0 <= off < |d0|
    ensures var d := Layout(dstrows, dstcols, drowinc, dcolinc);
            var out := Fill(d0, d, Shadowed(src, srccols, scolinc, srowinc, kernel, v));
            IsFloor(Byte(out[off], ch), p)
  {
    var line, d := Line(src, r * srowinc, scolinc, srccols), Layout(dstrows, dstcols, drowinc, dcolinc);
    var s, out := Sum(term, 0, |kernel|), Fill(d0, d, Shadowed(src, srccols, scolinc, srowinc, kernel, v));
    assert s == Convolve(Val(line, A), kernel, c) by {
      LinearConvolve.ConvolveOnSource(src, r * srowinc, scolinc, srccols, A, kernel, c, term);
    }
    assert 0 <= off < |out| && out[off] == ShadowPixel(line, kernel, v, c) by {
      assert d.Off(r, c) == off;
      ShadowedAt(src, srccols, scolinc, srowinc, kernel, v, d0, d, r, c);
    }
    StoredFloor(out, off, line, kernel, v, c, s, level, ch, u, p);
  }

  lemma StoredFloor(out: seq<jint>, off: int, line: seq<jint>, kernel: seq<real>, v: Colour, x: int, s: real,
                    level: byte, ch: Chan, u: real, p: real)
    requires 0 <= off < |out| && out[off] == ShadowPixel(line, kernel, v, x)
    requires s == Convolve(Val(line, A), kernel, x) && Level(s, level) && v.Unit() && p == u * level as real
    requires (ch == A ==> u == v.a) && (ch == R ==> u == v.r) && (ch == G ==> u == v.g) && (ch == B ==> u == v.b)
    ensures IsFloor(Byte(out[off], ch), p)
  {
    PixelIsFloor(line, kernel, v, x, s, level, ch, u, p);
  }
}

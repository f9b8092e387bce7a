/**
 * The box shadow of SSEBoxShadowPeer.cc: a running window sum of alpha, cut off below a
 * minimum, saturated above a maximum that shrinks with the spread, and scaled in between.
 */
module BoxShadow {
  import opened Pixels
  import opened Strips
  import opened Lines
  import opened BoxBlur

  /** The window sum from which the shadow is opaque: n * 255 at spread 0, 255 at spread 1. */
  function AMax(n: int, spread: real): int {
    n * 255 + Trunc((255 - n * 255) as real * spread)
  }

  lemma AMaxRange(n: int, spread: real)
    requires BoxSize(n) && 0.0 <= spread <= 1.0
    ensures 255 <= AMax(n, spread) <= n * 255
  {
    TruncFraction(255 - n * 255, spread);
  }

  /** A fraction of a non-positive integer, rounded toward zero. */
  lemma TruncFraction(d: int, spread: real)
    requires d <= 0 && 0.0 <= spread <= 1.0
    ensures d <= Trunc(d as real * spread) <= 0
  {
    var e := -d as real;
    UnitFraction(spread, e);
    assert e == -(d as real) && d as real * spread == -(e * spread);
    assert d as real * spread >= d as real;
    TruncBetween(d as real * spread, d, 0);
  }

  /** How one channel is inked: its fixed-point factor and its value where the shadow is opaque. */
  datatype Ink = Ink(k: int, full: int) {
    predicate Fits(amax: int) {
      0 <= k && k * amax <= 0x7fff_ffff && 0 <= full <= 0xff
    }
  }

  /** One channel of the shadow where the window sum is `sum`: cut off, saturated or scaled. */
  function Shade(sum: int, amax: int, ink: Ink): int {
    if sum < amax / 255 then 0
    else if sum >= amax then ink.full
    else sum * ink.k / 0x80_0000
  }

  datatype Inks = Inks(a: Ink, r: Ink, g: Ink, b: Ink) {
    predicate Fit(amax: int) {
      a.Fits(amax) && r.Fits(amax) && g.Fits(amax) && b.Fits(amax)
    }

    function Of(c: Chan): Ink {
      Select(c, a, r, g, b)
    }
  }

  function ShadePixel(sum: int, amax: int, inks: Inks): jint {
    Pack(Shade(sum, amax, inks.a), Shade(sum, amax, inks.r), Shade(sum, amax, inks.g), Shade(sum, amax, inks.b))
  }

  const NoInk := Ink(0, 0)

  /** The fixed-point reciprocal of the saturation sum. */
  function Recip(amax: int): int {
    if amax <= 0 then 0 else 0x7fff_ffff / amax
  }

  /** Black ink: only alpha. */
  function BlackInks(amax: int): Inks {
    Inks(Ink(Recip(amax), 0xff), NoInk, NoInk, NoInk)
  }

  datatype Colour = Colour(r: real, g: real, b: real, a: real) {
    predicate Unit() {
      0.0 <= r <= 1.0 && 0.0 <= g <= 1.0 && 0.0 <= b <= 1.0 && 0.0 <= a <= 1.0
    }
  }

  /** The ink of a colour component v when full alpha has factor k. */
  function InkOf(k: int, v: real): Ink {
    Ink(Trunc(k as real * v), Trunc(255.0 * v))
  }

  function ColourInks(amax: int, v: Colour): Inks {
    var k := Recip(amax);
    Inks(InkOf(k, v.a), InkOf(k, v.r), InkOf(k, v.g), InkOf(k, v.b))
  }

  lemma Reciprocal(amax: int)
    requires 255 <= amax
    ensures Recip(amax) == 0x7fff_ffff / amax
    ensures 0 <= Recip(amax) <= 0x7fff_ffff && Recip(amax) * amax <= 0x7fff_ffff
  {
  }

  lemma TruncFactor(k: int, v: real)
    requires 0 <= k && 0.0 <= v <= 1.0
    ensures 0 <= Trunc(k as real * v) <= k
  {
    UnitFraction(v, k as real);
    TruncBetween(k as real * v, 0, k);
  }

  lemma ProductNonNegative(v: real, k: real)
    requires 0.0 <= v && 0.0 <= k
    ensures 0.0 <= v * k
  {
  }

  lemma UnitFraction(v: real, k: real)
    requires 0.0 <= v <= 1.0 && 0.0 <= k
    ensures 0.0 <= k * v <= k
  {
    assert k * v <= k * 1.0;
  }

  lemma InkOfFits(amax: int, k: int, v: real)
    requires 0 <= amax && 0 <= k && k * amax <= 0x7fff_ffff && 0.0 <= v <= 1.0
    ensures InkOf(k, v).Fits(amax) && InkOf(k, v).k <= k
  {
    TruncFactor(k, v);
    TruncFactor(255, v);
    MulLe(InkOf(k, v).k, k, amax);
  }

  lemma BlackInksFit(amax: int)
    requires 255 <= amax
    ensures BlackInks(amax).Fit(amax)
  {
    Reciprocal(amax);
  }

  lemma ColourInksFit(amax: int, v: Colour)
    requires 255 <= amax && v.Unit()
    ensures ColourInks(amax, v).Fit(amax)
  {
    var k := Recip(amax);
    Reciprocal(amax);
    InkOfFits(amax, k, v.a);
    InkOfFits(amax, k, v.r);
    InkOfFits(amax, k, v.g);
    InkOfFits(amax, k, v.b);
  }

  /** The scaled branch fits: the product in 32 bits, the result in a byte. */
  lemma ScaledBranch(sum: int, amax: int, ink: Ink)
    requires ink.Fits(amax) && 0 <= sum <= amax
    ensures 0 <= sum * ink.k <= 0x7fff_ffff && 0 <= sum * ink.k / 0x80_0000 <= 0xff
  {
    MulLe(sum, amax, ink.k);
  }

  lemma ShadeFits(sum: int, amax: int, ink: Ink)
    requires ink.Fits(amax) && 0 <= sum
    ensures 0 <= Shade(sum, amax, ink) <= 0xff
  {
    if sum < amax {
      ScaledBranch(sum, amax, ink);
    }
  }

  /** The packed word holds exactly the four channels. */
  lemma ShadePixelBytes(sum: int, amax: int, inks: Inks, c: Chan)
    requires inks.Fit(amax) && 0 <= sum
    ensures Byte(ShadePixel(sum, amax, inks), c) == Shade(sum, amax, inks.Of(c))
  {
    ShadeFits(sum, amax, inks.a);
    ShadeFits(sum, amax, inks.r);
    ShadeFits(sum, amax, inks.g);
    ShadeFits(sum, amax, inks.b);
    UnpackPack(Shade(sum, amax, inks.a), Shade(sum, amax, inks.r), Shade(sum, amax, inks.g), Shade(sum, amax, inks.b),
               c);
  }

  /** What the loops compute outside themselves: the thresholds and the fixed-point factors. */
  datatype Tone =
    | Black(amin: int, amax: int, kscale: jint)
    | Tinted(amin: int, amax: int, ka: jint, kr: jint, kg: jint, kb: jint, shadowRGB: jint)

  /** Clamp, scale and convert the sum into a colour, in 32-bit arithmetic. */
  function Convert(t: Tone, suma: jint): jint {
    match t
    case Black(amin, amax, kscale) =>
      if suma < amin then 0
      else if suma >= amax then Wrap(0xff00_0000)
      else Wrap(Mul(suma, kscale) / 0x80_0000 * 0x100_0000)
    case Tinted(amin, amax, ka, kr, kg, kb, shadowRGB) =>
      if suma < amin then 0
      else if suma >= amax then shadowRGB
      else PackOr(Mul(suma, ka) / 0x80_0000, Mul(suma, kr) / 0x80_0000, Mul(suma, kg) / 0x80_0000,
                  Mul(suma, kb) / 0x80_0000)
  }

  lemma ConvertBlack(suma: jint, amax: int, kscale: jint)
    requires 0 <= suma && Ink(kscale, 0xff).Fits(amax)
    ensures Convert(Black(amax / 255, amax, kscale), suma)
         == ShadePixel(suma, amax, Inks(Ink(kscale, 0xff), NoInk, NoInk, NoInk))
  {
    PackIsSum(Shade(suma, amax, Ink(kscale, 0xff)), 0, 0, 0);
    if suma < amax {
      ScaledBranch(suma, amax, Ink(kscale, 0xff));
    }
  }

  lemma ConvertByOr(suma: jint, amax: int, inks: Inks, t: Tone, a: int, r: int, g: int, b: int)
    requires 0 <= suma && inks.Fit(amax)
    requires t.Tinted? && t.amax == amax && t.amin == amax / 255
    requires t.ka == inks.a.k && t.kr == inks.r.k && t.kg == inks.g.k && t.kb == inks.b.k
    requires t.shadowRGB == PackOr(inks.a.full, inks.r.full, inks.g.full, inks.b.full)
    requires a == Shade(suma, amax, inks.a) && r == Shade(suma, amax, inks.r)
    requires g == Shade(suma, amax, inks.g) && b == Shade(suma, amax, inks.b)
    ensures Convert(t, suma) == PackOr(a, r, g, b)
  {
    if suma < amax / 255 {
      PackOrZero();
    } else if suma < amax {
      ScaledBranch(suma, amax, inks.a);
      ScaledBranch(suma, amax, inks.r);
      ScaledBranch(suma, amax, inks.g);
      ScaledBranch(suma, amax, inks.b);
    }
  }

  lemma ConvertTinted(suma: jint, amax: int, inks: Inks, t: Tone)
    requires 0 <= suma && inks.Fit(amax)
    requires t.Tinted? && t.amax == amax && t.amin == amax / 255
    requires t.ka == inks.a.k && t.kr == inks.r.k && t.kg == inks.g.k && t.kb == inks.b.k
    requires t.shadowRGB == PackOr(inks.a.full, inks.r.full, inks.g.full, inks.b.full)
    ensures Convert(t, suma) == ShadePixel(suma, amax, inks)
  {
    var a, r := Shade(suma, amax, inks.a), Shade(suma, amax, inks.r);
    var g, b := Shade(suma, amax, inks.g), Shade(suma, amax, inks.b);
    ShadeFits(suma, amax, inks.a);
    ShadeFits(suma, amax, inks.r);
    ShadeFits(suma, amax, inks.g);
    ShadeFits(suma, amax, inks.b);
    ConvertByOr(suma, amax, inks, t, a, r, g, b);
    PackOrBytes(a, r, g, b);
  }

  /** The tone's 32-bit conversion computes f on every possible window sum. */
  ghost predicate Converts(t: Tone, f: int -> jint, n: int) {
    forall sum: jint {:trigger Convert(t, sum)} :: 0 <= sum <= n * 255 ==> f(sum) == Convert(t, sum)
  }

  /** The output whose line l is f of the alpha windows of source line l. */
  ghost function Toned(lines: int -> seq<jint>, n: int, f: int -> jint): (int, int) -> jint {
    (l, x) => f(Window(lines(l), A, n, x + 1))
  }

  /** The body of the inner loops. */
  method Slide(suma: jint, before: jint, after: jint, t: Tone,
               ghost line: seq<jint>, ghost n: int, ghost x: int, ghost f: int -> jint)
    returns (suma': jint, rgb: jint)
    requires BoxSize(n) && suma == Window(line, A, n, x)
    requires before == At(line, x - n) && after == At(line, x)
    requires Converts(t, f, n)
    ensures suma' == Window(line, A, n, x + 1) && rgb == f(suma')
  {
    WindowSlides(line, A, n, x);
    RangeBounds(line, A, x + 1 - n, x + 1);
    RangeBounds(line, A, x - n, x);
    suma' := suma - Byte(before, A);
    suma' := suma' + Byte(after, A);
    rgb := Convert(t, suma');
  }

  method ShadowRow(dst: array<jint>, dstoff: int, dstw: nat, src: array<jint>, srcoff: int, srcw: nat, t: Tone,
                   ghost line: seq<jint>, ghost f: int -> jint,
                   ghost d0: seq<jint>, ghost rows: Layout, ghost y: nat, ghost px: (int, int) -> jint)
    requires dst != src
    requires BoxSize(dstw - srcw + 1)
    requires rows.len == dstw && rows.iinc == 1 && dstoff == rows.Off(y, 0)
    requires dstw > 0 ==> 0 <= dstoff && dstoff + dstw <= dst.Length
    requires srcw > 0 ==> 0 <= srcoff && srcoff + srcw <= src.Length
    requires line == Line(src[..], srcoff, 1, srcw)
    requires Converts(t, f, dstw - srcw + 1)
    requires forall x :: px(y, x) == f(Window(line, A, dstw - srcw + 1, x + 1))
    requires dst[..] == FillTo(d0, rows, y, 0, px)
    modifies dst
    ensures dst[..] == FillTo(d0, rows, y + 1, 0, px)
  {
    var hsize := dstw - srcw + 1;
    var suma: jint := 0;
    OutsideIsZero(line, A, -hsize, 0);
    for x := 0 to dstw
      invariant line == Line(src[..], srcoff, 1, srcw)
      invariant dst[..] == FillTo(d0, rows, y, x, px)
      invariant suma == Window(line, A, hsize, x)
    {
      RowReads(src[..], srcoff, srcw, x, hsize);
      var before := if x >= hsize then src[srcoff + x - hsize] else 0;
      var after := if x < srcw then src[srcoff + x] else 0;
      var rgb: jint;
      suma, rgb := Slide(suma, before, after, t, line, hsize, x, f);
      Put(dst, dstoff + x, rgb, d0, rows, y, x, px);
    }
  }

  method ShadowColumn(dst: array<jint>, dsth: nat, dstscan: int, src: array<jint>, srch: nat, srcscan: int,
                      x: nat, voff: int, t: Tone,
                      ghost line: seq<jint>, ghost f: int -> jint,
                      ghost d0: seq<jint>, ghost columns: Layout, ghost px: (int, int) -> jint)
    requires dst != src
    requires BoxSize(dsth - srch + 1) && voff == (dsth - srch + 1) * srcscan
    requires columns == Columns(columns.lines, dsth, dstscan)
    requires x < dstscan && Holds(dst.Length, x + 1, dsth, dstscan)
    requires x < srcscan && Holds(src.Length, x + 1, srch, srcscan)
    requires line == Line(src[..], x, srcscan, srch)
    requires Converts(t, f, dsth - srch + 1)
    requires forall y :: px(x, y) == f(Window(line, A, dsth - srch + 1, y + 1))
    requires dst[..] == FillTo(d0, columns, x, 0, px)
    modifies dst
    ensures dst[..] == FillTo(d0, columns, x + 1, 0, px)
  {
    var vsize := dsth - srch + 1;
    var suma: jint := 0;
    var srcoff, dstoff := x, x;
    OutsideIsZero(line, A, -vsize, 0);
    for y := 0 to dsth
      invariant line == Line(src[..], x, srcscan, srch)
      invariant srcoff == x + y * srcscan && dstoff == x + y * dstscan
      invariant dst[..] == FillTo(d0, columns, x, y, px)
      invariant suma == Window(line, A, vsize, y)
    {
      ColumnReads(src[..], x, y, vsize, srch, srcscan);
      OffsetInside(x, y, x + 1, dsth, dstscan, dst.Length);
      var before := if srcoff >= voff then src[srcoff - voff] else 0;
      var after := if y < srch then src[srcoff] else 0;
      var rgb: jint;
      suma, rgb := Slide(suma, before, after, t, line, vsize, y, f);
      Put(dst, dstoff, rgb, d0, columns, x, y, px);
      NextLine(y, srcscan);
      NextLine(y, dstscan);
      srcoff := srcoff + srcscan;
      dstoff := dstoff + dstscan;
    }
  }

  ghost function RowLines(src: seq<jint>, srcw: nat, srcscan: int): int -> seq<jint> {
    y => Line(src, y * srcscan, 1, srcw)
  }

  ghost function ColumnLines(src: seq<jint>, srch: nat, srcscan: int): int -> seq<jint> {
    x => Line(src, x, srcscan, srch)
  }

  /** The outer loop of both vertical filters. */
  method ShadowColumns(dst: array<jint>, dstw: nat, dsth: nat, dstscan: int, src: array<jint>, srch: nat, srcscan: int,
                       t: Tone, ghost f: int -> jint)
    requires dst != src
    requires BoxSize(dsth - srch + 1)
    requires dstw <= dstscan && Holds(dst.Length, dstw, dsth, dstscan)
    requires dstw <= srcscan && Holds(src.Length, dstw, srch, srcscan)
    requires Converts(t, f, dsth - srch + 1)
    modifies dst
    ensures dst[..] == Fill(old(dst[..]), Columns(dstw, dsth, dstscan),
                   Toned(ColumnLines(src[..], srch, srcscan), dsth - srch + 1, f))
  {
    var vsize := dsth - srch + 1;
    var voff := vsize * srcscan;
    ghost var columns, px := Columns(dstw, dsth, dstscan), Toned(ColumnLines(src[..], srch, srcscan), vsize, f);
    for x := 0 to dstw
      invariant dst[..] == FillTo(old(dst[..]), columns, x, 0, px)
    {
      ShadowColumn(dst, dsth, dstscan, src, srch, srcscan, x, voff, t,
                   Line(src[..], x, srcscan, srch), f, old(dst[..]), columns, px);
    }
  }

  /** The outer loop of the horizontal filter. */
  method ShadowRows(dst: array<jint>, dstw: nat, dsth: nat, dstscan: int, src: array<jint>, srcw: nat, srcscan: int,
                    t: Tone, ghost f: int -> jint)
    requires dst != src
    requires BoxSize(dstw - srcw + 1)
    requires dstw <= dstscan && Holds(dst.Length, dstw, dsth, dstscan)
    requires 0 <= srcscan && Holds(src.Length, srcw, dsth, srcscan)
    requires Converts(t, f, dstw - srcw + 1)
    modifies dst
    ensures dst[..] == Fill(old(dst[..]), Rows(dstw, dsth, dstscan),
                   Toned(RowLines(src[..], srcw, srcscan), dstw - srcw + 1, f))
  {
    var hsize := dstw - srcw + 1;
    var srcoff, dstoff := 0, 0;
    ghost var rows, px := Rows(dstw, dsth, dstscan), Toned(RowLines(src[..], srcw, srcscan), hsize, f);
    for y := 0 to dsth
      invariant srcoff == y * srcscan && dstoff == y * dstscan
      invariant dst[..] == FillTo(old(dst[..]), rows, y, 0, px)
    {
      RowInside(y, srcw, dsth, srcscan, src.Length);
      RowInside(y, dstw, dsth, dstscan, dst.Length);
      ShadowRow(dst, dstoff, dstw, src, srcoff, srcw, t, Line(src[..], srcoff, 1, srcw), f, old(dst[..]), rows, y, px);
      NextLine(y, srcscan);
      NextLine(y, dstscan);
      srcoff := srcoff + srcscan;
      dstoff := dstoff + dstscan;
    }
  }

  ghost function Shaded(amax: int, inks: Inks): int -> jint {
    sum => ShadePixel(sum, amax, inks)
  }

  lemma BlackConverts(n: int, amax: int, kscale: jint)
    requires Ink(kscale, 0xff).Fits(amax)
    ensures Converts(Black(amax / 255, amax, kscale), Shaded(amax, Inks(Ink(kscale, 0xff), NoInk, NoInk, NoInk)), n)
  {
    forall sum: jint | 0 <= sum <= n * 255
      ensures Shaded(amax, Inks(Ink(kscale, 0xff), NoInk, NoInk, NoInk))(sum)
           == Convert(Black(amax / 255, amax, kscale), sum)
    {
      ConvertBlack(sum, amax, kscale);
    }
  }

  lemma TintedConverts(n: int, amax: int, inks: Inks, t: Tone)
    requires inks.Fit(amax)
    requires t.Tinted? && t.amax == amax && t.amin == amax / 255
    requires t.ka == inks.a.k && t.kr == inks.r.k && t.kg == inks.g.k && t.kb == inks.b.k
    requires t.shadowRGB == PackOr(inks.a.full, inks.r.full, inks.g.full, inks.b.full)
    ensures Converts(t, Shaded(amax, inks), n)
  {
    forall sum: jint | 0 <= sum <= n * 255
      ensures Shaded(amax, inks)(sum) == Convert(t, sum)
    {
      ConvertTinted(sum, amax, inks, t);
    }
  }

  method Saturation(n: int, spread: real) returns (amax: int)
    requires BoxSize(n) && 0.0 <= spread <= 1.0
    ensures amax == AMax(n, spread) && 255 <= amax <= n * 255
  {
    amax := n * 255;
    amax := amax + Trunc((255 - amax) as real * spread);
    AMaxRange(n, spread);
  }

  /** The thresholds and the factor of a black shadow. */
  method BlackTone(ghost n: int, amax: int) returns (t: Tone)
    requires 255 <= amax
    ensures Converts(t, Shaded(amax, BlackInks(amax)), n)
  {
    Reciprocal(amax);
    var kscale: jint := 0x7fff_ffff / amax;
    t := Black(amax / 255, amax, kscale);
    BlackConverts(n, amax, kscale);
  }

  method Factor(k: jint, v: real) returns (kc: jint)
    requires 0 <= k && 0.0 <= v <= 1.0
    ensures kc == InkOf(k, v).k
  {
    TruncFactor(k, v);
    kc := Trunc(k as real * v);
  }

  /** The thresholds and factors of a coloured shadow. */
  method ColourTone(ghost n: int, amax: int, v: Colour) returns (t: Tone)
    requires 255 <= amax && v.Unit()
    ensures Converts(t, Shaded(amax, ColourInks(amax, v)), n)
  {
    Reciprocal(amax);
    var kscalea: jint := 0x7fff_ffff / amax;
    var kscaler := Factor(kscalea, v.r);
    var kscaleg := Factor(kscalea, v.g);
    var kscaleb := Factor(kscalea, v.b);
    kscalea := Factor(kscalea, v.a);
    var shadowRGB := PackOr(Trunc(255.0 * v.a), Trunc(255.0 * v.r), Trunc(255.0 * v.g), Trunc(255.0 * v.b));
    t := Tinted(amax / 255, amax, kscalea, kscaler, kscaleg, kscaleb, shadowRGB);
    ColourInksFit(amax, v);
    TintedConverts(n, amax, ColourInks(amax, v), t);
  }

  ghost function BlackShadow(lines: int -> seq<jint>, n: int, spread: real): (int, int) -> jint {
    var amax := AMax(n, spread);
    Toned(lines, n, Shaded(amax, BlackInks(amax)))
  }

  /** The black shadow's pixel at x, cut at the thresholds its spread sets. */
  ghost function BlackPixel(line: seq<jint>, n: int, spread: real, x: int): jint {
    var amax := AMax(n, spread);
    ShadePixel(Window(line, A, n, x + 1), amax, BlackInks(amax))
  }

  lemma BlackShadowPixel(lines: int -> seq<jint>, n: int, spread: real, l: int, x: int)
    ensures BlackShadow(lines, n, spread)(l, x) == BlackPixel(lines(l), n, spread, x)
  {
    var amax := AMax(n, spread);
    TonedPixel(lines, n, amax, BlackInks(amax), l, x);
  }

  lemma TonedPixel(lines: int -> seq<jint>, n: int, amax: int, inks: Inks, l: int, x: int)
    ensures Toned(lines, n, Shaded(amax, inks))(l, x) == ShadePixel(Window(lines(l), A, n, x + 1), amax, inks)
  {
    TonedAt(lines, n, Shaded(amax, inks), l, x);
    ShadedAt(amax, inks, Window(lines(l), A, n, x + 1));
  }

  lemma TonedAt(lines: int -> seq<jint>, n: int, f: int -> jint, l: int, x: int)
    ensures Toned(lines, n, f)(l, x) == f(Window(lines(l), A, n, x + 1))
  {
  }

  lemma ShadedAt(amax: int, inks: Inks, sum: int)
    ensures Shaded(amax, inks)(sum) == ShadePixel(sum, amax, inks)
  {
  }

  ghost function ColourShadow(lines: int -> seq<jint>, n: int, spread: real, v: Colour): (int, int) -> jint {
    var amax := AMax(n, spread);
    Toned(lines, n, Shaded(amax, ColourInks(amax, v)))
  }

  /** The coloured shadow's pixel at x. */
  ghost function ColourPixel(line: seq<jint>, n: int, spread: real, v: Colour, x: int): jint {
    var amax := AMax(n, spread);
    ShadePixel(Window(line, A, n, x + 1), amax, ColourInks(amax, v))
  }

  lemma ColourShadowPixel(lines: int -> seq<jint>, n: int, spread: real, v: Colour, l: int, x: int)
    ensures ColourShadow(lines, n, spread, v)(l, x) == ColourPixel(lines(l), n, spread, v, x)
  {
    var amax := AMax(n, spread);
    TonedPixel(lines, n, amax, ColourInks(amax, v), l, x);
  }

  method FilterHorizontalBlack(dst: array<jint>, dstw: nat, dsth: nat, dstscan: int,
                               src: array<jint>, srcw: nat, srcscan: int, spread: real)
    requires dst != src
    requires BoxSize(dstw - srcw + 1) && 0.0 <= spread <= 1.0
    requires dstw <= dstscan && Holds(dst.Length, dstw, dsth, dstscan)
    requires 0 <= srcscan && Holds(src.Length, srcw, dsth, srcscan)
    modifies dst
    ensures dst[..] == Fill(old(dst[..]), Rows(dstw, dsth, dstscan),
                        BlackShadow(RowLines(src[..], srcw, srcscan), dstw - srcw + 1, spread))
  {
    var hsize := dstw - srcw + 1;
    var amax := Saturation(hsize, spread);
    var t := BlackTone(hsize, amax);
    ShadowRows(dst, dstw, dsth, dstscan, src, srcw, srcscan, t, Shaded(amax, BlackInks(amax)));
  }

  method FilterVerticalBlack(dst: array<jint>, dstw: nat, dsth: nat, dstscan: int,
                             src: array<jint>, srch: nat, srcscan: int, spread: real)
    requires dst != src
    requires BoxSize(dsth - srch + 1) && 0.0 <= spread <= 1.0
    requires dstw <= dstscan && Holds(dst.Length, dstw, dsth, dstscan)
    requires dstw <= srcscan && Holds(src.Length, dstw, srch, srcscan)
    modifies dst
    ensures dst[..] == Fill(old(dst[..]), Columns(dstw, dsth, dstscan),
                        BlackShadow(ColumnLines(src[..], srch, srcscan), dsth - srch + 1, spread))
  {
    var vsize := dsth - srch + 1;
    var amax := Saturation(vsize, spread);
    var t := BlackTone(vsize, amax);
    ShadowColumns(dst, dstw, dsth, dstscan, src, srch, srcscan, t, Shaded(amax, BlackInks(amax)));
  }

  method FilterVertical(dst: array<jint>, dstw: nat, dsth: nat, dstscan: int,
                        src: array<jint>, srch: nat, srcscan: int, spread: real, shadowColor: Colour)
    requires dst != src
    requires BoxSize(dsth - srch + 1) && 0.0 <= spread <= 1.0 && shadowColor.Unit()
    requires dstw <= dstscan && Holds(dst.Length, dstw, dsth, dstscan)
    requires dstw <= srcscan && Holds(src.Length, dstw, srch, srcscan)
    modifies dst
    ensures dst[..] == Fill(old(dst[..]), Columns(dstw, dsth, dstscan),
                        ColourShadow(ColumnLines(src[..], srch, srcscan), dsth - srch + 1, spread, shadowColor))
  {
    var vsize := dsth - srch + 1;
    var amax := Saturation(vsize, spread);
    var t := ColourTone(vsize, amax, shadowColor);
    ShadowColumns(dst, dstw, dsth, dstscan, src, srch, srcscan, t, Shaded(amax, ColourInks(amax, shadowColor)));
  }
}

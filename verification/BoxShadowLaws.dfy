/** What the box shadow guarantees, whatever the image. */
module BoxShadowLaws {
  import opened Pixels
  import opened Sums
  import opened Strips
  import opened Lines
  import opened BoxBlur
  import opened BoxBlurLaws
  import BoxShadow

  type Ink = BoxShadow.Ink
  type Inks = BoxShadow.Inks
  type Colour = BoxShadow.Colour

  /** The window of a line always sums to something between 0 and 255 n. */
  ghost function AlphaSum(line: seq<jint>, n: int, x: int): (s: int)
    requires n >= 1
    ensures 0 <= s <= n * 255
  {
    RangeBounds(line, A, x + 1 - n, x + 1);
    Window(line, A, n, x + 1)
  }

  /** An ink whose opaque value is not below the last scaled value before saturation. */
  predicate Steady(ink: Ink, amax: int) {
    (amax - 1) * ink.k / 0x80_0000 <= ink.full
  }

  lemma BlackIsSteady(amax: int)
    requires 255 <= amax
    ensures Steady(BoxShadow.BlackInks(amax).a, amax) && Steady(BoxShadow.NoInk, amax)
  {
    BoxShadow.BlackInksFit(amax);
    BoxShadow.ScaledBranch(amax - 1, amax, BoxShadow.BlackInks(amax).a);
  }

  lemma ProductMonotone(sum: int, sum': int, k: int)
    requires sum <= sum' && 0 <= k
    ensures sum * k / 0x80_0000 <= sum' * k / 0x80_0000
  {
    MulLe(sum, sum', k);
  }

  /** Across all three branches a larger window sum never gives a smaller value. */
  lemma ShadeMonotone(sum: int, sum': int, amax: int, ink: Ink)
    requires ink.Fits(amax) && Steady(ink, amax) && 0 <= sum <= sum'
    ensures BoxShadow.Shade(sum, amax, ink) <= BoxShadow.Shade(sum', amax, ink)
  {
    BoxShadow.ShadeFits(sum', amax, ink);
    if sum < amax {
      ProductMonotone(sum, amax - 1, ink.k);
      ProductMonotone(sum, sum', ink.k);
    }
  }

  // ----- Lines with a given window sum -----

  /** What pixel i contributes to an alpha sum of s that is filled up from the left. */
  function Portion(s: int, i: int): byte {
    if s - 255 * i < 0 then 0 else if s - 255 * i > 255 then 255 else s - 255 * i
  }

  /** n pixels whose alphas add up to s. */
  function AlphaLine(n: nat, s: int): (line: seq<jint>)
    ensures |line| == n
  {
    seq(n, i => Pack(Portion(s, i), 0, 0, 0))
  }

  lemma AlphaLineByte(n: nat, s: int, i: int)
    requires 0 <= i < n
    ensures Byte(AlphaLine(n, s)[i], A) == Portion(s, i)
  {
    UnpackPack(Portion(s, i), 0, 0, 0, A);
  }

  lemma {:induction false} AlphaLinePrefix(n: nat, s: int, m: nat)
    requires 0 <= s && m <= n
    ensures ISum(Val(AlphaLine(n, s), A), 0, m) == if s < 255 * m then s else 255 * m
  {
    if m > 0 {
      AlphaLinePrefix(n, s, m - 1);
      AlphaLineByte(n, s, m - 1);
    }
  }

  /** Every sum a window can have is the sum of such a line. */
  lemma AlphaLineSum(n: int, s: int)
    requires 1 <= n && 0 <= s <= 255 * n
    ensures Window(AlphaLine(n, s), A, n, n) == s
  {
    AlphaLinePrefix(n, s, n);
  }

  lemma AlphaLinesDominated(n: nat, s: int, s': int)
    requires s <= s'
    ensures Dominated(AlphaLine(n, s), A, AlphaLine(n, s'), A)
  {
    forall i | 0 <= i < n
      ensures Byte(AlphaLine(n, s)[i], A) <= Byte(AlphaLine(n, s')[i], A)
    {
      AlphaLineByte(n, s, i);
      AlphaLineByte(n, s', i);
    }
  }

  // ----- Monotonicity of the coloured shadow -----

  /** Channel c of the coloured shadow at x does not fall from the first line to the second. */
  ghost predicate RisesAt(line: seq<jint>, line': seq<jint>, n: int, spread: real, v: Colour, c: Chan, x: int) {
    Byte(BoxShadow.ColourPixel(line, n, spread, v, x), c) <= Byte(BoxShadow.ColourPixel(line', n, spread, v, x), c)
  }

  /** Pointwise more source alpha gives pointwise no less of channel c, on all lines. */
  ghost predicate Rises(n: int, spread: real, v: Colour, c: Chan) {
    forall line: seq<jint>, line': seq<jint>, x: int ::
      Dominated(line, A, line', A) ==> RisesAt(line, line', n, spread, v, c, x)
  }

  lemma RisesByShade(line: seq<jint>, line': seq<jint>, n: int, spread: real, v: Colour, c: Chan, x: int,
                     amax: int, ink: Ink, s: int, s': int)
    requires BoxSize(n) && 255 <= amax == BoxShadow.AMax(n, spread) && v.Unit()
    requires ink == BoxShadow.ColourInks(amax, v).Of(c)
    requires 0 <= s == Window(line, A, n, x + 1) && 0 <= s' == Window(line', A, n, x + 1)
    ensures RisesAt(line, line', n, spread, v, c, x)
       <==> BoxShadow.Shade(s, amax, ink) <= BoxShadow.Shade(s', amax, ink)
  {
    BoxShadow.ColourInksFit(amax, v);
    BoxShadow.ShadePixelBytes(s, amax, BoxShadow.ColourInks(amax, v), c);
    BoxShadow.ShadePixelBytes(s', amax, BoxShadow.ColourInks(amax, v), c);
  }

  lemma InkFits(amax: int, v: Colour, c: Chan)
    requires 255 <= amax && v.Unit()
    ensures BoxShadow.ColourInks(amax, v).Of(c).Fits(amax)
  {
    BoxShadow.ColourInksFit(amax, v);
  }

  /** The ink of a channel is steady for this window and spread. */
  predicate SteadyChannel(n: int, spread: real, v: Colour, c: Chan) {
    var amax := BoxShadow.AMax(n, spread);
    Steady(BoxShadow.ColourInks(amax, v).Of(c), amax)
  }

  /** A channel of the coloured shadow is monotone over all lines if and only if its ink is steady. */
  lemma ColourMonotoneIff(n: int, spread: real, v: Colour, c: Chan)
    requires BoxSize(n) && 0.0 <= spread <= 1.0 && v.Unit()
    ensures Rises(n, spread, v, c) <==> SteadyChannel(n, spread, v, c)
  {
    var amax := BoxShadow.AMax(n, spread);
    RisesIffSteady(n, spread, v, c, amax, BoxShadow.ColourInks(amax, v).Of(c));
  }

  lemma RisesIffSteady(n: int, spread: real, v: Colour, c: Chan, amax: int, ink: Ink)
    requires BoxSize(n) && 0.0 <= spread <= 1.0 && v.Unit()
    requires amax == BoxShadow.AMax(n, spread) && ink == BoxShadow.ColourInks(amax, v).Of(c)
    ensures Rises(n, spread, v, c) <==> Steady(ink, amax)
  {
    BoxShadow.AMaxRange(n, spread);
    InkFits(amax, v, c);
    if Steady(ink, amax) {
      forall line: seq<jint>, line': seq<jint>, x: int | Dominated(line, A, line', A)
        ensures RisesAt(line, line', n, spread, v, c, x)
      {
        WindowMonotone(line, A, line', A, n, x + 1);
        ShadeMonotone(AlphaSum(line, n, x), AlphaSum(line', n, x), amax, ink);
        RisesByShade(line, line', n, spread, v, c, x, amax, ink, AlphaSum(line, n, x), AlphaSum(line', n, x));
      }
    } else {
      FallsAtSaturation(n, spread, v, c, amax, ink);
    }
  }

  lemma UnsteadyFalls(amax: int, ink: Ink)
    requires 255 <= amax && !Steady(ink, amax)
    ensures BoxShadow.Shade(amax - 1, amax, ink) > BoxShadow.Shade(amax, amax, ink)
  {
  }

  /** The line that just saturates is darker than the one before it, and its shadow is not. */
  lemma FallsAtSaturation(n: int, spread: real, v: Colour, c: Chan, amax: int, ink: Ink)
    requires BoxSize(n) && v.Unit() && 255 <= amax == BoxShadow.AMax(n, spread) <= n * 255
    requires ink == BoxShadow.ColourInks(amax, v).Of(c) && !Steady(ink, amax)
    ensures Dominated(AlphaLine(n, amax - 1), A, AlphaLine(n, amax), A)
    ensures !RisesAt(AlphaLine(n, amax - 1), AlphaLine(n, amax), n, spread, v, c, n - 1)
  {
    AlphaLinesDominated(n, amax - 1, amax);
    AlphaLineSum(n, amax - 1);
    AlphaLineSum(n, amax);
    UnsteadyFalls(amax, ink);
    RisesByShade(AlphaLine(n, amax - 1), AlphaLine(n, amax), n, spread, v, c, n - 1, amax, ink, amax - 1, amax);
  }

  const NINE_TENTHS := BoxShadow.Colour(0.0, 0.0, 0.0, 0.9)

  lemma NineTenths(ink: Ink)
    requires ink == BoxShadow.ColourInks(25500, NINE_TENTHS).Of(A)
    ensures BoxShadow.Shade(25499, 25500, ink) == 230 && BoxShadow.Shade(25500, 25500, ink) == 229
    ensures !Steady(ink, 25500)
  {
    assert BoxShadow.Recip(25500) == 84215;
  }

  /** 100 opaque pixels in a shadow colour of alpha 0.9: darkening the last by one level lightens their shadow. */
  lemma ColourNotMonotone()
    ensures Dominated(AlphaLine(100, 25499), A, AlphaLine(100, 25500), A)
    ensures !RisesAt(AlphaLine(100, 25499), AlphaLine(100, 25500), 100, 0.0, NINE_TENTHS, A, 99)
  {
    AMaxExtremes(100);
    var ink := BoxShadow.ColourInks(25500, NINE_TENTHS).Of(A);
    NineTenths(ink);
    FallsAtSaturation(100, 0.0, NINE_TENTHS, A, 25500, ink);
  }

  /** Pointwise more source alpha gives pointwise more shadow, for every spread. */
  lemma BlackShadowMonotone(line: seq<jint>, line': seq<jint>, n: int, x: int, spread: real)
    requires BoxSize(n) && 0.0 <= spread <= 1.0 && Dominated(line, A, line', A)
    ensures 255 <= BoxShadow.AMax(n, spread) <= n * 255
    ensures Byte(BoxShadow.BlackPixel(line, n, spread, x), A) <= Byte(BoxShadow.BlackPixel(line', n, spread, x), A)
  {
    BoxShadow.AMaxRange(n, spread);
    var amax := BoxShadow.AMax(n, spread);
    var s, s' := AlphaSum(line, n, x), AlphaSum(line', n, x);
    WindowMonotone(line, A, line', A, n, x + 1);
    BlackIsSteady(amax);
    BoxShadow.BlackInksFit(amax);
    ShadeMonotone(s, s', amax, BoxShadow.BlackInks(amax).a);
    BoxShadow.ShadePixelBytes(s, amax, BoxShadow.BlackInks(amax), A);
    BoxShadow.ShadePixelBytes(s', amax, BoxShadow.BlackInks(amax), A);
  }

  lemma SweepMonotone(lines: int -> seq<jint>, lines': int -> seq<jint>, n: int, spread: real,
                      d: Layout, d0: seq<jint>, e0: seq<jint>, l: int, x: int)
    requires BoxSize(n) && 0.0 <= spread <= 1.0 && Dominated(lines(l), A, lines'(l), A)
    requires d.Fits(|d0|) && d.Fits(|e0|) && d.Injective() && d.Has(l, x)
    ensures 0 <= d.Off(l, x) < |d0| && d.Off(l, x) < |e0|
    ensures Byte(Fill(d0, d, BoxShadow.BlackShadow(lines, n, spread))[d.Off(l, x)], A)
         <= Byte(Fill(e0, d, BoxShadow.BlackShadow(lines', n, spread))[d.Off(l, x)], A)
  {
    FillAt(d0, d, BoxShadow.BlackShadow(lines, n, spread), l, x);
    FillAt(e0, d, BoxShadow.BlackShadow(lines', n, spread), l, x);
    BoxShadow.BlackShadowPixel(lines, n, spread, l, x);
    BoxShadow.BlackShadowPixel(lines', n, spread, l, x);
    BlackShadowMonotone(lines(l), lines'(l), n, x, spread);
  }

  /** What the horizontal and the vertical black filter compute. */
  ghost function RowShadow(s: seq<jint>, len: nat, scan: int, n: int, spread: real): (int, int) -> jint {
    BoxShadow.BlackShadow(BoxShadow.RowLines(s, len, scan), n, spread)
  }

  ghost function ColumnShadow(s: seq<jint>, len: nat, scan: int, n: int, spread: real): (int, int) -> jint {
    BoxShadow.BlackShadow(BoxShadow.ColumnLines(s, len, scan), n, spread)
  }

  /** Over whole images, by rows and by columns: more source alpha everywhere gives no less shadow anywhere. */
  lemma ImageShadowMonotone(s: seq<jint>, s': seq<jint>, len: nat, scan: int, n: int, spread: real,
                            d0: seq<jint>, e0: seq<jint>, w: nat, h: nat, dstscan: int, x: int, y: int)
    requires BoxSize(n) && 0.0 <= spread <= 1.0 && Dominated(s, A, s', A) && 0 <= x < w && 0 <= y < h
    requires w <= dstscan && Holds(|d0|, w, h, dstscan) && Holds(|e0|, w, h, dstscan)
    ensures var rows := Rows(w, h, dstscan);
            var px, px' := RowShadow(s, len, scan, n, spread), RowShadow(s', len, scan, n, spread);
            && 0 <= rows.Off(y, x) < |d0| && rows.Off(y, x) < |e0|
            && Byte(Fill(d0, rows, px)[rows.Off(y, x)], A) <= Byte(Fill(e0, rows, px')[rows.Off(y, x)], A)
    ensures var cols := Columns(w, h, dstscan);
            var px, px' := ColumnShadow(s, len, scan, n, spread), ColumnShadow(s', len, scan, n, spread);
            && 0 <= cols.Off(x, y) < |d0| && cols.Off(x, y) < |e0|
            && Byte(Fill(d0, cols, px)[cols.Off(x, y)], A) <= Byte(Fill(e0, cols, px')[cols.Off(x, y)], A)
  {
    ImageLayout(w, h, dstscan, |d0|);
    ImageLayout(w, h, dstscan, |e0|);
    LineDominated(s, s', A, y * scan, 1, len);
    LineDominated(s, s', A, x, scan, len);
    SweepMonotone(BoxShadow.RowLines(s, len, scan), BoxShadow.RowLines(s', len, scan), n, spread, Rows(w, h, dstscan),
                  d0, e0, y, x);
    SweepMonotone(BoxShadow.ColumnLines(s, len, scan), BoxShadow.ColumnLines(s', len, scan), n, spread,
                  Columns(w, h, dstscan), d0, e0, x, y);
  }

  /** Both spread extremes: no spread saturates at the full window, full spread at one opaque pixel. */
  lemma AMaxExtremes(n: int)
    requires BoxSize(n)
    ensures BoxShadow.AMax(n, 0.0) == n * 255 && BoxShadow.AMax(n, 1.0) == 255
  {
  }

  /** Without spread the shadow's alpha at x equals the blur's alpha at x. */
  ghost predicate AgreesAt(line: seq<jint>, n: int, x: int)
    requires BoxSize(n)
  {
    Byte(BoxShadow.BlackPixel(line, n, 0.0, x), A) == Byte(BlurPixel(line, n, x), A)
  }

  /** Without spread the shadow's alpha equals the blur's alpha everywhere on every line. */
  ghost predicate AgreesWithBlur(n: int)
    requires BoxSize(n)
  {
    forall line: seq<jint>, x: int :: AgreesAt(line, n, x)
  }

  /** The one condition on the window size: the reciprocal separates n - 1 from n. */
  predicate Separates(n: int)
    requires BoxSize(n)
  {
    (n - 1) * KScale(n) < 0x80_0000 <= n * KScale(n)
  }

  lemma ShadeIsScaled(sum: int, n: int)
    requires BoxSize(n) && Separates(n) && 0 <= sum <= n * 255
    ensures BoxShadow.Shade(sum, n * 255, BoxShadow.BlackInks(n * 255).a) == Scaled(sum, n)
  {
    ScaledFits(sum, n);
    if sum < n {
      MulLe(sum, n - 1, KScale(n));
    } else if sum == n * 255 {
      ScaledFlat(255, n);
    }
  }

  /** m equal pixels, seen through a window that covers them all. */
  lemma FlatLineSum(n: int, m: nat, p: jint)
    requires 1 <= n && m <= n
    ensures AlphaSum(FlatLine(m, p), n, m - 1) == m * Byte(p, A)
  {
    var line := FlatLine(m, p);
    ISumSplit(Val(line, A), m - n, 0, m);
    OutsideIsZero(line, A, m - n, 0);
    ISumConstant(Val(line, A), Byte(p, A), 0, m);
  }

  lemma AlphaAgreesAt(line: seq<jint>, n: int, x: int, sum: int)
    requires BoxSize(n) && sum == AlphaSum(line, n, x)
    ensures AgreesAt(line, n, x)
       <==> BoxShadow.Shade(sum, n * 255, BoxShadow.BlackInks(n * 255).a) == Scaled(sum, n)
  {
    AMaxExtremes(n);
    BoxShadow.BlackInksFit(n * 255);
    BoxShadow.ShadePixelBytes(sum, n * 255, BoxShadow.BlackInks(n * 255), A);
    BlurPixelBytes(line, A, n, x);
  }

  lemma CutOffTooEarly(n: int)
    requires BoxSize(n) && (n - 1) * KScale(n) >= 0x80_0000
    ensures BoxShadow.Shade(n - 1, n * 255, BoxShadow.BlackInks(n * 255).a) == 0 && Scaled(n - 1, n) >= 1
  {
  }

  lemma SaturatedTooDark(n: int)
    requires BoxSize(n) && n * KScale(n) < 0x80_0000
    ensures BoxShadow.Shade(n * 255, n * 255, BoxShadow.BlackInks(n * 255).a) == 255 && Scaled(n * 255, n) < 255
  {
    assert n * 255 * KScale(n) == 255 * (n * KScale(n));
  }

  /** n - 1 pixels of alpha 1: the shadow cuts their sum off, the blur does not. */
  lemma DisagreesBelow(n: int)
    requires BoxSize(n) && (n - 1) * KScale(n) >= 0x80_0000
    ensures !AgreesAt(FlatLine(n - 1, 0x100_0000), n, n - 2)
  {
    assert Byte(0x100_0000, A) == 1;
    FlatLineSum(n, n - 1, 0x100_0000);
    CutOffTooEarly(n);
    AlphaAgreesAt(FlatLine(n - 1, 0x100_0000), n, n - 2, n - 1);
  }

  /** n opaque pixels: the shadow saturates, the blur does not. */
  lemma DisagreesAbove(n: int)
    requires BoxSize(n) && n * KScale(n) < 0x80_0000
    ensures !AgreesAt(FlatLine(n, -0x100_0000), n, n - 1)
  {
    assert Byte(-0x100_0000, A) == 255;
    FlatLineSum(n, n, -0x100_0000);
    SaturatedTooDark(n);
    AlphaAgreesAt(FlatLine(n, -0x100_0000), n, n - 1, n * 255);
  }

  /** The unspread shadow agrees with the blur on every line exactly when the reciprocal separates. */
  lemma AgreesWithBlurIff(n: int)
    requires BoxSize(n)
    ensures AgreesWithBlur(n) <==> Separates(n)
  {
    if Separates(n) {
      forall line: seq<jint>, x: int
        ensures AgreesAt(line, n, x)
      {
        ShadeIsScaled(AlphaSum(line, n, x), n);
        AlphaAgreesAt(line, n, x, AlphaSum(line, n, x));
      }
    } else if (n - 1) * KScale(n) >= 0x80_0000 {
      DisagreesBelow(n);
    } else {
      DisagreesAbove(n);
    }
  }

  /** It holds for every window up to 256 pixels and fails at 257, where a sum of 256 tells them apart. */
  lemma AgreesWithBlurUpTo(n: int)
    requires 1 <= n <= 256
    ensures AgreesWithBlur(n)
    ensures !AgreesWithBlur(257) && BoxShadow.Shade(256, 257 * 255, BoxShadow.BlackInks(257 * 255).a) == 0
    ensures Scaled(256, 257) == 1
  {
    var k := KScale(n);
    ReciprocalReaches(n, k);
    MulLe(n, 256, k);
    assert (n - 1) * k == n * k - k;
    assert n * 255 * k == 255 * (n * k);
    AgreesWithBlurIff(n);
    AgreesWithBlurIff(257);
  }

  /** Over whole images: without spread, the shadow's alpha is the blur's alpha. */
  lemma SpreadlessShadowIsBlur(s: seq<jint>, srcw: nat, srcscan: int, n: int, d0: seq<jint>, e0: seq<jint>,
                               w: nat, h: nat, dstscan: int, x: int, y: int)
    requires BoxSize(n) && Separates(n) && 0 <= x < w && 0 <= y < h
    requires w <= dstscan && Holds(|d0|, w, h, dstscan) && Holds(|e0|, w, h, dstscan)
    ensures var rows := Rows(w, h, dstscan);
            && 0 <= rows.Off(y, x) < |d0| && rows.Off(y, x) < |e0|
            && Byte(Fill(d0, rows, RowShadow(s, srcw, srcscan, n, 0.0))[rows.Off(y, x)], A)
               == Byte(Fill(e0, rows, HorizontalBlur(s, srcw, srcscan, n))[rows.Off(y, x)], A)
  {
    var rows, lines := Rows(w, h, dstscan), BoxShadow.RowLines(s, srcw, srcscan);
    ImageLayout(w, h, dstscan, |d0|);
    ImageLayout(w, h, dstscan, |e0|);
    FillAt(d0, rows, BoxShadow.BlackShadow(lines, n, 0.0), y, x);
    FillAt(e0, rows, HorizontalBlur(s, srcw, srcscan, n), y, x);
    BoxShadow.BlackShadowPixel(lines, n, 0.0, y, x);
    AgreesWithBlurIff(n);
    assert AgreesAt(lines(y), n, x);
  }

  /** A coloured shadow in opaque black is the black shadow. */
  lemma OpaqueBlackIsBlack(amax: int)
    requires 255 <= amax
    ensures BoxShadow.ColourInks(amax, BoxShadow.Colour(0.0, 0.0, 0.0, 1.0)) == BoxShadow.BlackInks(amax)
  {
    var k := BoxShadow.Recip(amax);
    assert k as real * 1.0 == k as real && k as real * 0.0 == 0.0;
    TruncBetween(k as real * 1.0, k, k);
    TruncBetween(k as real * 0.0, 0, 0);
    TruncBetween(255.0 * 1.0, 255, 255);
  }

  /** So the filter for opaque black may stand in for the coloured one, on every image. */
  lemma OpaqueBlackShadow(lines: int -> seq<jint>, n: int, spread: real)
    requires BoxSize(n) && 0.0 <= spread <= 1.0
    ensures BoxShadow.ColourShadow(lines, n, spread, BoxShadow.Colour(0.0, 0.0, 0.0, 1.0))
         == BoxShadow.BlackShadow(lines, n, spread)
  {
    BoxShadow.AMaxRange(n, spread);
    OpaqueBlackIsBlack(BoxShadow.AMax(n, spread));
  }

  lemma TruncScaleMonotone(k: int, v: real, v': real)
    requires 0 <= k && 0.0 <= v <= v'
    ensures Trunc(k as real * v) <= Trunc(k as real * v')
  {
    ScaleUp(v, v', k as real);
    TruncMonotone(k as real * v, k as real * v');
  }

  predicate Below(ink: Ink, ink': Ink) {
    ink.k <= ink'.k && ink.full <= ink'.full
  }

  lemma InkMonotone(k: int, v: real, v': real)
    requires 0 <= k && 0.0 <= v <= v' <= 1.0
    ensures Below(BoxShadow.InkOf(k, v), BoxShadow.InkOf(k, v'))
  {
    TruncScaleMonotone(k, v, v');
    TruncMonotone(255.0 * v, 255.0 * v');
  }

  lemma ShadeInkMonotone(sum: int, amax: int, ink: Ink, ink': Ink)
    requires 0 <= sum && Below(ink, ink')
    ensures BoxShadow.Shade(sum, amax, ink) <= BoxShadow.Shade(sum, amax, ink')
  {
    MulLe(ink.k, ink'.k, sum);
  }

  /** Inks no stronger than the alpha ink give premultiplied pixels. */
  lemma ShadePremultiplied(sum: int, amax: int, inks: Inks)
    requires 0 <= sum && inks.Fit(amax)
    requires Below(inks.r, inks.a) && Below(inks.g, inks.a) && Below(inks.b, inks.a)
    ensures Premultiplied(BoxShadow.ShadePixel(sum, amax, inks))
  {
    forall c: Chan
      ensures Byte(BoxShadow.ShadePixel(sum, amax, inks), c) <= Byte(BoxShadow.ShadePixel(sum, amax, inks), A)
    {
      BoxShadow.ShadePixelBytes(sum, amax, inks, c);
      BoxShadow.ShadePixelBytes(sum, amax, inks, A);
      match c
      case A =>
      case R => ShadeInkMonotone(sum, amax, inks.r, inks.a);
      case G => ShadeInkMonotone(sum, amax, inks.g, inks.a);
      case B => ShadeInkMonotone(sum, amax, inks.b, inks.a);
    }
  }

  /** A premultiplied shadow colour gives premultiplied pixels, whatever the image and the spread. */
  lemma ColourShadowPremultiplied(sum: int, amax: int, v: Colour)
    requires 255 <= amax && 0 <= sum && v.Unit() && v.r <= v.a && v.g <= v.a && v.b <= v.a
    ensures Premultiplied(BoxShadow.ShadePixel(sum, amax, BoxShadow.ColourInks(amax, v)))
  {
    BoxShadow.ColourInksFit(amax, v);
    BoxShadow.Reciprocal(amax);
    InkMonotone(BoxShadow.Recip(amax), v.r, v.a);
    InkMonotone(BoxShadow.Recip(amax), v.g, v.a);
    InkMonotone(BoxShadow.Recip(amax), v.b, v.a);
    ShadePremultiplied(sum, amax, BoxShadow.ColourInks(amax, v));
  }

  // ----- The coloured filter over whole images -----

  /** What the vertical filter computes. */
  ghost function ColumnColour(s: seq<jint>, len: nat, scan: int, n: int, spread: real, v: Colour): (int, int) -> jint {
    BoxShadow.ColourShadow(BoxShadow.ColumnLines(s, len, scan), n, spread, v)
  }

  /** The pixel it leaves in column x, row y. */
  lemma ColumnColourAt(s: seq<jint>, len: nat, scan: int, n: int, spread: real, v: Colour,
                       d0: seq<jint>, w: nat, h: nat, dstscan: int, x: int, y: int)
    requires w <= dstscan && Holds(|d0|, w, h, dstscan) && 0 <= x < w && 0 <= y < h
    ensures var cols := Columns(w, h, dstscan);
            && 0 <= cols.Off(x, y) < |d0|
            && Fill(d0, cols, ColumnColour(s, len, scan, n, spread, v))[cols.Off(x, y)]
               == BoxShadow.ColourPixel(Line(s, x, scan, len), n, spread, v, y)
  {
    ImageLayout(w, h, dstscan, |d0|);
    FillAt(d0, Columns(w, h, dstscan), ColumnColour(s, len, scan, n, spread, v), x, y);
    BoxShadow.ColourShadowPixel(BoxShadow.ColumnLines(s, len, scan), n, spread, v, x, y);
  }

  /** A premultiplied shadow colour gives a premultiplied image, whatever the source and the spread. */
  lemma ImageColourPremultiplied(s: seq<jint>, len: nat, scan: int, n: int, spread: real, v: Colour,
                                 d0: seq<jint>, w: nat, h: nat, dstscan: int, x: int, y: int)
    requires BoxSize(n) && 0.0 <= spread <= 1.0 && v.Unit() && v.r <= v.a && v.g <= v.a && v.b <= v.a
    requires w <= dstscan && Holds(|d0|, w, h, dstscan) && 0 <= x < w && 0 <= y < h
    ensures var cols := Columns(w, h, dstscan);
            && 0 <= cols.Off(x, y) < |d0|
            && Premultiplied(Fill(d0, cols, ColumnColour(s, len, scan, n, spread, v))[cols.Off(x, y)])
  {
    ColumnColourAt(s, len, scan, n, spread, v, d0, w, h, dstscan, x, y);
    BoxShadow.AMaxRange(n, spread);
    ColourShadowPremultiplied(AlphaSum(Line(s, x, scan, len), n, y), BoxShadow.AMax(n, spread), v);
  }

  /** Channel c of the coloured shadow does not fall anywhere from the first source image to the second. */
  ghost predicate ImageRisesAt(s: seq<jint>, s': seq<jint>, len: nat, scan: int, n: int, spread: real, v: Colour,
                               c: Chan, d0: seq<jint>, e0: seq<jint>, w: nat, h: nat, dstscan: int, x: int, y: int)
    requires w <= dstscan && Holds(|d0|, w, h, dstscan) && Holds(|e0|, w, h, dstscan) && 0 <= x < w && 0 <= y < h
  {
    ColumnColourAt(s, len, scan, n, spread, v, d0, w, h, dstscan, x, y);
    ColumnColourAt(s', len, scan, n, spread, v, e0, w, h, dstscan, x, y);
    var cols := Columns(w, h, dstscan);
    Byte(Fill(d0, cols, ColumnColour(s, len, scan, n, spread, v))[cols.Off(x, y)], c)
    <= Byte(Fill(e0, cols, ColumnColour(s', len, scan, n, spread, v))[cols.Off(x, y)], c)
  }

  lemma ImageRisesByLine(s: seq<jint>, s': seq<jint>, len: nat, scan: int, n: int, spread: real, v: Colour, c: Chan,
                         d0: seq<jint>, e0: seq<jint>, w: nat, h: nat, dstscan: int, x: int, y: int)
    requires w <= dstscan && Holds(|d0|, w, h, dstscan) && Holds(|e0|, w, h, dstscan) && 0 <= x < w && 0 <= y < h
    ensures ImageRisesAt(s, s', len, scan, n, spread, v, c, d0, e0, w, h, dstscan, x, y)
       <==> RisesAt(Line(s, x, scan, len), Line(s', x, scan, len), n, spread, v, c, y)
  {
    ColumnColourAt(s, len, scan, n, spread, v, d0, w, h, dstscan, x, y);
    ColumnColourAt(s', len, scan, n, spread, v, e0, w, h, dstscan, x, y);
  }

  /** Over whole images a steady channel is monotone. */
  lemma ImageColourMonotone(s: seq<jint>, s': seq<jint>, len: nat, scan: int, n: int, spread: real, v: Colour, c: Chan,
                            d0: seq<jint>, e0: seq<jint>, w: nat, h: nat, dstscan: int, x: int, y: int)
    requires BoxSize(n) && 0.0 <= spread <= 1.0 && v.Unit() && SteadyChannel(n, spread, v, c) && Dominated(s, A, s', A)
    requires w <= dstscan && Holds(|d0|, w, h, dstscan) && Holds(|e0|, w, h, dstscan) && 0 <= x < w && 0 <= y < h
    ensures ImageRisesAt(s, s', len, scan, n, spread, v, c, d0, e0, w, h, dstscan, x, y)
  {
    ImageRisesByLine(s, s', len, scan, n, spread, v, c, d0, e0, w, h, dstscan, x, y);
    LineDominated(s, s', A, x, scan, len);
    ColourMonotoneIff(n, spread, v, c);
  }

  /** And no other is: on images one pixel wide the channel falls at row n - 1. */
  lemma ImageColourFalls(n: nat, spread: real, v: Colour, c: Chan, amax: int, h: nat, d0: seq<jint>, e0: seq<jint>)
    requires BoxSize(n) && 0.0 <= spread <= 1.0 && v.Unit() && !SteadyChannel(n, spread, v, c)
    requires amax == BoxShadow.AMax(n, spread) && |d0| == |e0| == h == 2 * n - 1
    ensures Dominated(AlphaLine(n, amax - 1), A, AlphaLine(n, amax), A)
    ensures !ImageRisesAt(AlphaLine(n, amax - 1), AlphaLine(n, amax), n, 1, n, spread, v, c, d0, e0, 1, h, 1, 0, n - 1)
  {
    ImageRisesByLine(AlphaLine(n, amax - 1), AlphaLine(n, amax), n, 1, n, spread, v, c, d0, e0, 1, h, 1, 0, n - 1);
    WholeLine(AlphaLine(n, amax - 1), n);
    WholeLine(AlphaLine(n, amax), n);
    FallsUnsteady(n, spread, v, c, amax);
  }

  lemma FallsUnsteady(n: nat, spread: real, v: Colour, c: Chan, amax: int)
    requires BoxSize(n) && 0.0 <= spread <= 1.0 && v.Unit() && !SteadyChannel(n, spread, v, c)
    requires amax == BoxShadow.AMax(n, spread)
    ensures Dominated(AlphaLine(n, amax - 1), A, AlphaLine(n, amax), A)
    ensures !RisesAt(AlphaLine(n, amax - 1), AlphaLine(n, amax), n, spread, v, c, n - 1)
  {
    BoxShadow.AMaxRange(n, spread);
    FallsAtSaturation(n, spread, v, c, amax, BoxShadow.ColourInks(amax, v).Of(c));
  }

  lemma WholeLine(s: seq<jint>, n: nat)
    requires |s| == n
    ensures Line(s, 0, 1, n) == s
  {
  }

  // ----- The filters on the elements of the source array -----

  /** The alpha sum from which the shadow saturates, from window and spread. */
  predicate Saturates(n: int, spread: real, amax: int) {
    amax == n * 255 + Trunc((255 - n * 255) as real * spread)
  }

  /** The fixed-point factor and the saturated value of a channel of strength u. */
  predicate Strength(amax: int, q: int, u: real, k: int, full: int)
    requires amax >= 255
  {
    q == 0x7fff_ffff / amax && k == Trunc(q as real * u) && full == Trunc(255.0 * u)
  }

  /** What a channel is stored as: cut off, saturated or scaled. */
  predicate Shades(sum: int, amax: int, k: int, full: int, b: int) {
    && (sum < amax / 255 ==> b == 0)
    && (amax <= sum ==> b == full)
    && (amax / 255 <= sum < amax ==> b == sum * k / 0x80_0000)
  }

  /** The component of a colour that belongs to a channel. */
  predicate Component(v: Colour, c: Chan, u: real) {
    (c == A ==> u == v.a) && (c == R ==> u == v.r) && (c == G ==> u == v.g) && (c == B ==> u == v.b)
  }

  lemma ShadeByCases(sum: int, amax: int, k: int, full: int)
    requires 255 <= amax
    ensures Shades(sum, amax, k, full, BoxShadow.Shade(sum, amax, BoxShadow.Ink(k, full)))
  {
  }

  lemma InkOfComponent(amax: int, v: Colour, c: Chan, u: real)
    requires Component(v, c, u)
    ensures BoxShadow.ColourInks(amax, v).Of(c) == BoxShadow.InkOf(BoxShadow.Recip(amax), u)
  {
    match c
    case A =>
    case R =>
    case G =>
    case B =>
  }

  lemma InkIs(q: int, u: real, k: int, full: int)
    requires k == Trunc(q as real * u) && full == Trunc(255.0 * u)
    ensures BoxShadow.InkOf(q, u) == BoxShadow.Ink(k, full)
  {
  }

  lemma InkOfChannel(amax: int, v: Colour, c: Chan, u: real, q: int, k: int, full: int)
    requires 255 <= amax && Component(v, c, u) && Strength(amax, q, u, k, full)
    ensures BoxShadow.ColourInks(amax, v).Of(c) == BoxShadow.Ink(k, full)
  {
    InkOfComponent(amax, v, c, u);
    BoxShadow.Reciprocal(amax);
    InkIs(q, u, k, full);
  }

  lemma PixelByInk(sum: int, amax: int, v: Colour, c: Chan, ink: Ink)
    requires 255 <= amax && 0 <= sum && v.Unit() && ink == BoxShadow.ColourInks(amax, v).Of(c)
    ensures Byte(BoxShadow.ShadePixel(sum, amax, BoxShadow.ColourInks(amax, v)), c) == BoxShadow.Shade(sum, amax, ink)
  {
    BoxShadow.ColourInksFit(amax, v);
    BoxShadow.ShadePixelBytes(sum, amax, BoxShadow.ColourInks(amax, v), c);
  }

  lemma ByteByCases(sum: int, amax: int, v: Colour, c: Chan, u: real, q: int, k: int, full: int, b: int)
    requires 255 <= amax && 0 <= sum && v.Unit() && Component(v, c, u) && Strength(amax, q, u, k, full)
    requires b == Byte(BoxShadow.ShadePixel(sum, amax, BoxShadow.ColourInks(amax, v)), c)
    ensures Shades(sum, amax, k, full, b)
  {
    InkOfChannel(amax, v, c, u, q, k, full);
    PixelByInk(sum, amax, v, c, BoxShadow.Ink(k, full));
    ShadeByCases(sum, amax, k, full);
  }

  /** A channel of the coloured pixel by cases of the alpha sum. */
  lemma ColourPixelByCases(line: seq<jint>, n: int, spread: real, v: Colour, x: int, c: Chan, u: real,
                           amax: int, q: int, k: int, full: int, sum: int)
    requires BoxSize(n) && 0.0 <= spread <= 1.0 && v.Unit() && Component(v, c, u) && Saturates(n, spread, amax)
    requires 255 <= amax && Strength(amax, q, u, k, full) && sum == Window(line, A, n, x + 1)
    ensures Shades(sum, amax, k, full, Byte(BoxShadow.ColourPixel(line, n, spread, v, x), c))
  {
    RangeBounds(line, A, x + 1 - n, x + 1);
    ByteByCases(sum, amax, v, c, u, q, k, full, Byte(BoxShadow.ColourPixel(line, n, spread, v, x), c));
  }

  /** The coloured filter: each channel of the pixel at (x, y), from the alphas of n elements of column x. */
  lemma ColourOnSource(s: seq<jint>, len: nat, scan: int, n: int, spread: real, v: Colour, d0: seq<jint>,
                       w: nat, h: nat, dstscan: int, x: int, y: int, c: Chan, u: real,
                       amax: int, q: int, k: int, full: int, term: int -> int)
    requires BoxSize(n) && 0.0 <= spread <= 1.0 && v.Unit() && Component(v, c, u)
    requires Saturates(n, spread, amax) && 255 <= amax && Strength(amax, q, u, k, full)
    requires w <= dstscan && Holds(|d0|, w, h, dstscan) && 0 <= x < w && 0 <= y < h
    requires Elements(s, x, scan, len, A, term, y + 1 - n, y + 1)
    ensures 0 <= y * dstscan + x < |d0|
    ensures var out := Fill(d0, Columns(w, h, dstscan), ColumnColour(s, len, scan, n, spread, v));
            Shades(ISum(term, y + 1 - n, y + 1), amax, k, full, Byte(out[y * dstscan + x], c))
  {
    ColumnColourAt(s, len, scan, n, spread, v, d0, w, h, dstscan, x, y);
    WindowOnSource(s, x, scan, len, A, n, y + 1, term);
    ColourPixelByCases(Line(s, x, scan, len), n, spread, v, y, c, u, amax, q, k, full, ISum(term, y + 1 - n, y + 1));
  }

  /** Black: alpha of full strength, the other channels of none. */
  predicate BlackStrength(c: Chan, u: real) {
    u == if c == A then 1.0 else 0.0
  }

  lemma BlackPixelByCases(line: seq<jint>, n: int, spread: real, x: int, c: Chan, u: real,
                          amax: int, q: int, k: int, full: int, sum: int)
    requires BoxSize(n) && 0.0 <= spread <= 1.0 && BlackStrength(c, u) && Saturates(n, spread, amax)
    requires 255 <= amax && Strength(amax, q, u, k, full) && sum == Window(line, A, n, x + 1)
    ensures Shades(sum, amax, k, full, Byte(BoxShadow.BlackPixel(line, n, spread, x), c))
  {
    OpaqueBlackIsBlack(amax);
    ColourPixelByCases(line, n, spread, BoxShadow.Colour(0.0, 0.0, 0.0, 1.0), x, c, u, amax, q, k, full, sum);
  }

  /** The black filters, by rows and by columns. */
  lemma BlackOnSource(s: seq<jint>, len: nat, scan: int, n: int, spread: real, d0: seq<jint>, w: nat, h: nat,
                      dstscan: int,
                      x: int, y: int, c: Chan, u: real, amax: int, q: int, k: int, full: int,
                      along: int -> int, down: int -> int)
    requires BoxSize(n) && 0.0 <= spread <= 1.0 && BlackStrength(c, u)
    requires Saturates(n, spread, amax) && 255 <= amax && Strength(amax, q, u, k, full)
    requires w <= dstscan && Holds(|d0|, w, h, dstscan) && 0 <= x < w && 0 <= y < h
    requires Elements(s, y * scan, 1, len, A, along, x + 1 - n, x + 1)
    requires Elements(s, x, scan, len, A, down, y + 1 - n, y + 1)
    ensures 0 <= y * dstscan + x < |d0|
    ensures var out := Fill(d0, Rows(w, h, dstscan), RowShadow(s, len, scan, n, spread));
            Shades(ISum(along, x + 1 - n, x + 1), amax, k, full, Byte(out[y * dstscan + x], c))
    ensures var out := Fill(d0, Columns(w, h, dstscan), ColumnShadow(s, len, scan, n, spread));
            Shades(ISum(down, y + 1 - n, y + 1), amax, k, full, Byte(out[y * dstscan + x], c))
  {
    ImageLayout(w, h, dstscan, |d0|);
    BlackSweepOnSource(s, BoxShadow.RowLines(s, len, scan), y * scan, 1, len, n, spread, d0, Rows(w, h, dstscan), y, x,
                       c, u, amax, q, k, full, along);
    BlackSweepOnSource(s, BoxShadow.ColumnLines(s, len, scan), x, scan, len, n, spread, d0, Columns(w, h, dstscan), x,
                       y,
                       c, u, amax, q, k, full, down);
  }

  lemma BlackSweepOnSource(s: seq<jint>, lines: int -> seq<jint>, start: int, step: int, len: nat, n: int, spread: real,
                           d0: seq<jint>, d: Layout, l: int, x: int, c: Chan, u: real,
                           amax: int, q: int, k: int, full: int, term: int -> int)
    requires BoxSize(n) && 0.0 <= spread <= 1.0 && BlackStrength(c, u)
    requires Saturates(n, spread, amax) && 255 <= amax && Strength(amax, q, u, k, full)
    requires d.Fits(|d0|) && d.Injective() && d.Has(l, x) && lines(l) == Line(s, start, step, len)
    requires Elements(s, start, step, len, A, term, x + 1 - n, x + 1)
    ensures 0 <= d.Off(l, x) < |d0|
    ensures Shades(ISum(term, x + 1 - n, x + 1), amax, k, full,
                   Byte(Fill(d0, d, BoxShadow.BlackShadow(lines, n, spread))[d.Off(l, x)], c))
  {
    FillAt(d0, d, BoxShadow.BlackShadow(lines, n, spread), l, x);
    BoxShadow.BlackShadowPixel(lines, n, spread, l, x);
    WindowOnSource(s, start, step, len, A, n, x + 1, term);
    BlackPixelByCases(lines(l), n, spread, x, c, u, amax, q, k, full, ISum(term, x + 1 - n, x + 1));
  }
}

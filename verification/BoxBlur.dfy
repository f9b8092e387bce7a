/**
 * The box blur of SSEBoxBlurPeer.cc: running window sums per channel, scaled by a truncated
 * fixed-point reciprocal in 32-bit arithmetic.
 */
module BoxBlur {
  import opened Pixels
  import opened Strips
  import opened Lines

  /** Window sizes for which `size * 255` is a positive 32-bit number. */
  predicate BoxSize(n: int) {
    1 <= n && n * 255 <= 0x7fff_ffff
  }

  /** The fixed-point reciprocal of the largest possible window sum. */
  function KScale(n: int): (k: jint)
    requires BoxSize(n)
    ensures k >= 1 && n * 255 * k <= 0x7fff_ffff < n * 255 * (k + 1)
  {
    0x7fff_ffff / (n * 255)
  }

  function Scaled(sum: int, n: int): int
    requires BoxSize(n)
  {
    sum * KScale(n) / 0x80_0000
  }

  /** The product fits in 32 bits and the scaled sum in a byte. */
  lemma ScaledFits(sum: int, n: int)
    requires BoxSize(n) && 0 <= sum <= 255 * n
    ensures 0 <= sum * KScale(n) <= 0x7fff_ffff
    ensures 0 <= Scaled(sum, n) <= 0xff
  {
    var k := KScale(n);
    MulLe(sum, n * 255, k);
  }

  lemma ScaledMonotone(sum: int, sum': int, n: int)
    requires BoxSize(n) && sum <= sum'
    ensures Scaled(sum, n) <= Scaled(sum', n)
  {
    MulLe(sum, sum', KScale(n));
  }

  ghost function BlurByte(line: seq<jint>, c: Chan, n: int, x: int): int
    requires BoxSize(n)
  {
    Scaled(Window(line, c, n, x + 1), n)
  }

  /** The blurred pixel at x: each channel is the scaled sum of the n source pixels ending at x. */
  ghost function BlurPixel(line: seq<jint>, n: int, x: int): jint
    requires BoxSize(n)
  {
    Pack(BlurByte(line, A, n, x), BlurByte(line, R, n, x), BlurByte(line, G, n, x), BlurByte(line, B, n, x))
  }

  /** No product leaves the 32-bit range, no scaled sum leaves a byte. */
  lemma BlurFits(line: seq<jint>, c: Chan, n: int, x: int)
    requires BoxSize(n)
    ensures 0 <= Window(line, c, n, x + 1) <= 255 * n
    ensures 0 <= Window(line, c, n, x + 1) * KScale(n) <= 0x7fff_ffff
    ensures 0 <= BlurByte(line, c, n, x) <= 0xff
  {
    RangeBounds(line, c, x + 1 - n, x + 1);
    ScaledFits(Window(line, c, n, x + 1), n);
  }

  /** The packed word holds exactly the four scaled sums. */
  lemma BlurPixelBytes(line: seq<jint>, c: Chan, n: int, x: int)
    requires BoxSize(n)
    ensures Byte(BlurPixel(line, n, x), c) == BlurByte(line, c, n, x)
  {
    BlurFits(line, A, n, x);
    BlurFits(line, R, n, x);
    BlurFits(line, G, n, x);
    BlurFits(line, B, n, x);
    UnpackPack(BlurByte(line, A, n, x), BlurByte(line, R, n, x), BlurByte(line, G, n, x), BlurByte(line, B, n, x), c);
  }

  ghost function HorizontalBlur(src: seq<jint>, srcw: nat, srcscan: int, n: int): (int, int) -> jint
    requires BoxSize(n)
  {
    (y, x) => BlurPixel(Line(src, y * srcscan, 1, srcw), n, x)
  }

  ghost function VerticalBlur(src: seq<jint>, srch: nat, srcscan: int, n: int): (int, int) -> jint
    requires BoxSize(n)
  {
    (x, y) => BlurPixel(Line(src, x, srcscan, srch), n, y)
  }

  /** The four running sums `suma`, `sumr`, `sumg`, `sumb`. */
  datatype Quad = Quad(a: int, r: int, g: int, b: int) {

    function Minus(p: jint): Quad {
      Quad(a - Byte(p, A), r - Byte(p, R), g - Byte(p, G), b - Byte(p, B))
    }

    function Plus(p: jint): Quad {
      Quad(a + Byte(p, A), r + Byte(p, R), g + Byte(p, G), b + Byte(p, B))
    }

    predicate Fits() {
      0 <= a <= 0x7fff_ffff && 0 <= r <= 0x7fff_ffff && 0 <= g <= 0x7fff_ffff && 0 <= b <= 0x7fff_ffff
    }

    /** The stored word: each sum multiplied in 32-bit arithmetic, shifted right by 23 and packed. */
    function Store(kscale: jint): jint
      requires Fits()
    {
      Pack(Mul(a, kscale) / 0x80_0000, Mul(r, kscale) / 0x80_0000,
           Mul(g, kscale) / 0x80_0000, Mul(b, kscale) / 0x80_0000)
    }
  }

  ghost function Windows(line: seq<jint>, n: int, e: int): Quad {
    Quad(Window(line, A, n, e), Window(line, R, n, e), Window(line, G, n, e), Window(line, B, n, e))
  }

  lemma WindowsStart(line: seq<jint>, n: int)
    requires n >= 1
    ensures Windows(line, n, 0) == Quad(0, 0, 0, 0)
  {
    OutsideIsZero(line, A, -n, 0);
    OutsideIsZero(line, R, -n, 0);
    OutsideIsZero(line, G, -n, 0);
    OutsideIsZero(line, B, -n, 0);
  }

  /** One iteration: what the code subtracts and adds turns the sums before x into the sums before x + 1. */
  lemma WindowsStep(line: seq<jint>, n: int, x: int, before: jint, after: jint)
    requires n >= 1
    requires before == At(line, x - n) && after == At(line, x)
    ensures Windows(line, n, x + 1) == Windows(line, n, x).Minus(before).Plus(after)
  {
    WindowSlides(line, A, n, x);
    WindowSlides(line, R, n, x);
    WindowSlides(line, G, n, x);
    WindowSlides(line, B, n, x);
  }

  /** No sum and no product leaves the 32-bit range, so the stored word is the blurred pixel. */
  lemma WindowsStore(line: seq<jint>, n: int, x: int)
    requires BoxSize(n)
    ensures Windows(line, n, x + 1).Fits()
    ensures Windows(line, n, x + 1).Store(KScale(n)) == BlurPixel(line, n, x)
  {
    BlurFits(line, A, n, x);
    BlurFits(line, R, n, x);
    BlurFits(line, G, n, x);
    BlurFits(line, B, n, x);
  }

  /** Line l of the output is the blur of the given source line. */
  ghost predicate Blurs(px: (int, int) -> jint, l: int, line: seq<jint>, n: int)
    requires BoxSize(n)
  {
    forall x {:trigger BlurPixel(line, n, x)} :: px(l, x) == BlurPixel(line, n, x)
  }

  /** The body of the inner loops: slide the window by one pixel and convert the sums into a colour. */
  method Slide(sums: Quad, before: jint, after: jint, kscale: jint,
               ghost line: seq<jint>, ghost n: int, ghost x: int, ghost l: int, ghost px: (int, int) -> jint)
    returns (sums': Quad, rgb: jint)
    requires BoxSize(n) && kscale == KScale(n) && sums == Windows(line, n, x)
    requires before == At(line, x - n) && after == At(line, x)
    requires Blurs(px, l, line, n)
    ensures sums' == Windows(line, n, x + 1) && rgb == px(l, x)
  {
    WindowsStep(line, n, x, before, after);
    WindowsStore(line, n, x);
    sums' := sums.Minus(before).Plus(after);
    rgb := sums'.Store(kscale);
  }

  /** The inner loop of `filterHorizontal`: one row. */
  method BlurRow(dst: array<jint>, dstoff: int, dstw: nat, src: array<jint>, srcoff: int, srcw: nat, kscale: jint,
                 ghost line: seq<jint>, ghost d0: seq<jint>, ghost rows: Layout, ghost y: nat,
                 ghost px: (int, int) -> jint)
    requires dst != src
    requires BoxSize(dstw - srcw + 1) && kscale == KScale(dstw - srcw + 1)
    requires rows.len == dstw && rows.iinc == 1 && dstoff == rows.Off(y, 0)
    requires dstw > 0 ==> 0 <= dstoff && dstoff + dstw <= dst.Length
    requires srcw > 0 ==> 0 <= srcoff && srcoff + srcw <= src.Length
    requires line == Line(src[..], srcoff, 1, srcw)
    requires Blurs(px, y, line, dstw - srcw + 1)
    requires dst[..] == FillTo(d0, rows, y, 0, px)
    modifies dst
    ensures dst[..] == FillTo(d0, rows, y + 1, 0, px)
  {
    var hsize := dstw - srcw + 1;
    var sums := Quad(0, 0, 0, 0);
    WindowsStart(line, hsize);
    for x := 0 to dstw
      invariant line == Line(src[..], srcoff, 1, srcw)
      invariant dst[..] == FillTo(d0, rows, y, x, px)
      invariant sums == Windows(line, hsize, x)
    {
      RowReads(src[..], srcoff, srcw, x, hsize);
      var before := if x >= hsize then src[srcoff + x - hsize] else 0;
      var after := if x < srcw then src[srcoff + x] else 0;
      var rgb: jint;
      sums, rgb := Slide(sums, before, after, kscale, line, hsize, x, y, px);
      Put(dst, dstoff + x, rgb, d0, rows, y, x, px);
    }
  }

  method FilterHorizontal(dst: array<jint>, dstw: nat, dsth: nat, dstscan: int,
                          src: array<jint>, srcw: nat, srcscan: int)
    requires dst != src
    requires BoxSize(dstw - srcw + 1)
    requires dstw <= dstscan && Holds(dst.Length, dstw, dsth, dstscan)
    requires 0 <= srcscan && Holds(src.Length, srcw, dsth, srcscan)
    modifies dst
    ensures dst[..] == Fill(old(dst[..]), Rows(dstw, dsth, dstscan),
                   HorizontalBlur(src[..], srcw, srcscan, dstw - srcw + 1))
  {
    var hsize := dstw - srcw + 1;
    var kscale: jint := 0x7fff_ffff / (hsize * 255);
    var srcoff, dstoff := 0, 0;
    ghost var rows, px := Rows(dstw, dsth, dstscan), HorizontalBlur(src[..], srcw, srcscan, hsize);
    for y := 0 to dsth
      invariant srcoff == y * srcscan && dstoff == y * dstscan
      invariant dst[..] == FillTo(old(dst[..]), rows, y, 0, px)
    {
      RowInside(y, srcw, dsth, srcscan, src.Length);
      RowInside(y, dstw, dsth, dstscan, dst.Length);
      BlurRow(dst, dstoff, dstw, src, srcoff, srcw, kscale,
              Line(src[..], srcoff, 1, srcw), old(dst[..]), rows, y, px);
      NextLine(y, srcscan);
      NextLine(y, dstscan);
      srcoff := srcoff + srcscan;
      dstoff := dstoff + dstscan;
    }
  }

  /** The inner loop of `filterVertical`: one column. */
  method BlurColumn(dst: array<jint>, dsth: nat, dstscan: int, src: array<jint>, srch: nat, srcscan: int,
                    x: nat, voff: int, kscale: jint,
                    ghost line: seq<jint>, ghost d0: seq<jint>, ghost columns: Layout, ghost px: (int, int) -> jint)
    requires dst != src
    requires BoxSize(dsth - srch + 1) && kscale == KScale(dsth - srch + 1) && voff == (dsth - srch + 1) * srcscan
    requires columns == Columns(columns.lines, dsth, dstscan)
    requires x < dstscan && Holds(dst.Length, x + 1, dsth, dstscan)
    requires x < srcscan && Holds(src.Length, x + 1, srch, srcscan)
    requires line == Line(src[..], x, srcscan, srch)
    requires Blurs(px, x, line, dsth - srch + 1)
    requires dst[..] == FillTo(d0, columns, x, 0, px)
    modifies dst
    ensures dst[..] == FillTo(d0, columns, x + 1, 0, px)
  {
    var vsize := dsth - srch + 1;
    var sums := Quad(0, 0, 0, 0);
    var srcoff, dstoff := x, x;
    WindowsStart(line, vsize);
    for y := 0 to dsth
      invariant line == Line(src[..], x, srcscan, srch)
      invariant srcoff == x + y * srcscan && dstoff == x + y * dstscan
      invariant dst[..] == FillTo(d0, columns, x, y, px)
      invariant sums == Windows(line, vsize, y)
    {
      ColumnReads(src[..], x, y, vsize, srch, srcscan);
      OffsetInside(x, y, x + 1, dsth, dstscan, dst.Length);
      var before := if srcoff >= voff then src[srcoff - voff] else 0;
      var after := if y < srch then src[srcoff] else 0;
      var rgb: jint;
      sums, rgb := Slide(sums, before, after, kscale, line, vsize, y, x, px);
      Put(dst, dstoff, rgb, d0, columns, x, y, px);
      NextLine(y, srcscan);
      NextLine(y, dstscan);
      srcoff := srcoff + srcscan;
      dstoff := dstoff + dstscan;
    }
  }

  method FilterVertical(dst: array<jint>, dstw: nat, dsth: nat, dstscan: int,
                        src: array<jint>, srch: nat, srcscan: int)
    requires dst != src
    requires BoxSize(dsth - srch + 1)
    requires dstw <= dstscan && Holds(dst.Length, dstw, dsth, dstscan)
    requires dstw <= srcscan && Holds(src.Length, dstw, srch, srcscan)
    modifies dst
    ensures dst[..] == Fill(old(dst[..]), Columns(dstw, dsth, dstscan),
                   VerticalBlur(src[..], srch, srcscan, dsth - srch + 1))
  {
    var vsize := dsth - srch + 1;
    var kscale: jint := 0x7fff_ffff / (vsize * 255);
    var voff := vsize * srcscan;
    ghost var columns, px := Columns(dstw, dsth, dstscan), VerticalBlur(src[..], srch, srcscan, vsize);
    for x := 0 to dstw
      invariant dst[..] == FillTo(old(dst[..]), columns, x, 0, px)
    {
      BlurColumn(dst, dsth, dstscan, src, srch, srcscan, x, voff, kscale,
                 Line(src[..], x, srcscan, srch), old(dst[..]), columns, px);
    }
  }

  /** The vertical filters compare flat offsets where the row numbers are meant. */
  lemma RowTest(x: int, y: int, vsize: int, scan: int)
    requires 0 <= x < scan
    ensures x + y * scan >= vsize * scan <==> y >= vsize
    ensures x + y * scan - vsize * scan == x + (y - vsize) * scan
  {
    var d := y - vsize;
    assert d * scan == y * scan - vsize * scan;
    assert d >= 0 ==> d * scan >= 0;
    assert d <= -1 ==> d * scan <= -scan;
  }

  /** Where a horizontal filter reads. */
  lemma RowReads(s: seq<jint>, off: int, srcw: nat, x: nat, hsize: int)
    requires srcw > 0 ==> 0 <= off && off + srcw <= |s|
    requires 1 <= hsize && x < srcw + hsize - 1
    ensures x >= hsize ==> 0 <= off + x - hsize < |s|
    ensures x < srcw ==> 0 <= off + x < |s|
    ensures At(Line(s, off, 1, srcw), x - hsize) == if x >= hsize then s[off + x - hsize] else 0
    ensures At(Line(s, off, 1, srcw), x) == if x < srcw then s[off + x] else 0
  {
  }

  /** Where a vertical filter reads: the offsets are in range and name the pixels of column x. */
  lemma ColumnReads(s: seq<jint>, x: nat, y: nat, vsize: int, srch: nat, scan: int)
    requires x < scan && Holds(|s|, x + 1, srch, scan)
    requires 1 <= vsize && y < srch + vsize - 1
    ensures x + y * scan >= vsize * scan ==> 0 <= x + y * scan - vsize * scan < |s|
    ensures y < srch ==> 0 <= x + y * scan < |s|
    ensures At(Line(s, x, scan, srch), y - vsize)
         == if x + y * scan >= vsize * scan then s[x + y * scan - vsize * scan] else 0
    ensures At(Line(s, x, scan, srch), y) == if y < srch then s[x + y * scan] else 0
  {
    RowTest(x, y, vsize, scan);
    if y >= vsize {
      OffsetInside(x, y - vsize, x + 1, srch, scan, |s|);
    }
    if y < srch {
      OffsetInside(x, y, x + 1, srch, scan, |s|);
    }
  }
}

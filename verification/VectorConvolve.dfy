/** `filterVector` of SSELinearConvolvePeer.cc: a weighted sum of bilinear samples along a line, per pixel. */
module VectorConvolve {
  import opened Pixels
  import opened Sums
  import opened Strips
  import opened Lines
  import opened Convolution
  import opened Bilinear
  import opened Sampling
  import opened LinearConvolve

  /** The term of sample i of the line that starts at (x, y) and advances by (dx, dy). */
  ghost function LineTerm(v: (int, int) -> real, w: nat, h: nat, weights: seq<real>, x: real, y: real, dx: real,
                          dy: real): int -> real {
    i => (if 0 <= i < |weights| then weights[i] * Sample(v, w, h, Along(x, i, dx), Along(y, i, dy)) else 0.0)
  }

  function Along(x: real, i: int, d: real): real {
    x + i as real * d
  }

  lemma AlongStep(x: real, i: int, d: real)
    ensures Along(x, 0, d) == x && Along(x, i + 1, d) == Along(x, i, d) + d
  {
    assert (i + 1) as real * d == i as real * d + d;
  }

  ghost function LineSum(v: (int, int) -> real, w: nat, h: nat, weights: seq<real>, x: real, y: real, dx: real,
                         dy: real): real {
    Sum(LineTerm(v, w, h, weights, x, y, dx, dy), 0, |weights|)
  }

  /** The geometry arguments: corner, offset and delta of the sample line, and the steps per column and row. */
  datatype Geometry = Geometry(x0: real, y0: real, offsetx: real, offsety: real, deltax: real, deltay: real,
                               dxcol: real, dycol: real, dxrow: real, dyrow: real) {

    /** Where the sample line of the pixel in the given column and row starts. */
    function StartX(col: int, row: int): real {
      Along(Along(x0 + (dxrow + dxcol) * 0.5, row, dxrow), col, dxcol) + offsetx
    }

    function StartY(col: int, row: int): real {
      Along(Along(y0 + (dyrow + dycol) * 0.5, row, dyrow), col, dycol) + offsety
    }
  }

  ghost function ChannelSum(img: seq<jint>, w: nat, h: nat, scan: int, c: Chan, weights: seq<real>, g: Geometry,
                            col: int, row: int): real {
    LineSum(Plane(img, scan, c), w, h, weights, g.StartX(col, row), g.StartY(col, row), g.deltax, g.deltay)
  }

  /** Each channel: the clamped weighted sum of the samples along the line of this pixel. */
  ghost function VectorPixel(img: seq<jint>, w: nat, h: nat, scan: int, weights: seq<real>, g: Geometry, col: int,
                             row: int): jint {
    Pack(FvalToByte(ChannelSum(img, w, h, scan, A, weights, g, col, row)),
         FvalToByte(ChannelSum(img, w, h, scan, R, weights, g, col, row)),
         FvalToByte(ChannelSum(img, w, h, scan, G, weights, g, col, row)),
         FvalToByte(ChannelSum(img, w, h, scan, B, weights, g, col, row)))
  }

  lemma VectorPixelBytes(img: seq<jint>, w: nat, h: nat, scan: int, weights: seq<real>, g: Geometry, col: int,
                         row: int, c: Chan)
    ensures Byte(VectorPixel(img, w, h, scan, weights, g, col, row), c)
         == FvalToByte(ChannelSum(img, w, h, scan, c, weights, g, col, row))
  {
    UnpackPack(FvalToByte(ChannelSum(img, w, h, scan, A, weights, g, col, row)),
               FvalToByte(ChannelSum(img, w, h, scan, R, weights, g, col, row)),
               FvalToByte(ChannelSum(img, w, h, scan, G, weights, g, col, row)),
               FvalToByte(ChannelSum(img, w, h, scan, B, weights, g, col, row)), c);
  }

  lemma LineTermAt(v: (int, int) -> real, w: nat, h: nat, weights: seq<real>, x: real, y: real, dx: real, dy: real,
                   i: nat,
                   before: real, after: real, sampx: real, sampy: real)
    requires i < |weights| && sampx == Along(x, i, dx) && sampy == Along(y, i, dy)
    requires before == Sum(LineTerm(v, w, h, weights, x, y, dx, dy), 0, i)
    requires Added(before, after, v, w, h, sampx, sampy, weights[i])
    ensures after == Sum(LineTerm(v, w, h, weights, x, y, dx, dy), 0, i + 1)
  {
  }

  /** The innermost loop: the coordinates stepped by `deltax`, `deltay` stay on the line. */
  method SampleLine(src: array<jint>, w: nat, h: nat, scan: int, weights: seq<real>, x: real, y: real, dx: real,
                    dy: real, fvals: array<real>)
    requires fvals.Length == 4 && 0 <= scan && Holds(src.Length, w, h, scan)
    requires fvals[0] == 0.0 && fvals[1] == 0.0 && fvals[2] == 0.0 && fvals[3] == 0.0
    modifies fvals
    ensures fvals[0] == LineSum(Plane(src[..], scan, R), w, h, weights, x, y, dx, dy)
    ensures fvals[1] == LineSum(Plane(src[..], scan, G), w, h, weights, x, y, dx, dy)
    ensures fvals[2] == LineSum(Plane(src[..], scan, B), w, h, weights, x, y, dx, dy)
    ensures fvals[3] == LineSum(Plane(src[..], scan, A), w, h, weights, x, y, dx, dy)
  {
    var sampx, sampy := x, y;
    AlongStep(x, 0, dx);
    AlongStep(y, 0, dy);
    ghost var vr, vg, vb, va := Plane(src[..], scan, R), Plane(src[..], scan, G), Plane(src[..], scan, B),
        Plane(src[..], scan, A);
    for i := 0 to |weights|
      invariant sampx == Along(x, i, dx) && sampy == Along(y, i, dy)
      invariant vr == Plane(src[..], scan, R) && vg == Plane(src[..], scan, G)
      invariant vb == Plane(src[..], scan, B) && va == Plane(src[..], scan, A)
      invariant fvals[0] == Sum(LineTerm(vr, w, h, weights, x, y, dx, dy), 0, i)
      invariant fvals[1] == Sum(LineTerm(vg, w, h, weights, x, y, dx, dy), 0, i)
      invariant fvals[2] == Sum(LineTerm(vb, w, h, weights, x, y, dx, dy), 0, i)
      invariant fvals[3] == Sum(LineTerm(va, w, h, weights, x, y, dx, dy), 0, i)
    {
      ghost var r, g, b, a := fvals[0], fvals[1], fvals[2], fvals[3];
      LAccumSample(src, sampx, sampy, w, h, scan, weights[i], fvals);
      LineTermAt(vr, w, h, weights, x, y, dx, dy, i, r, fvals[0], sampx, sampy);
      LineTermAt(vg, w, h, weights, x, y, dx, dy, i, g, fvals[1], sampx, sampy);
      LineTermAt(vb, w, h, weights, x, y, dx, dy, i, b, fvals[2], sampx, sampy);
      LineTermAt(va, w, h, weights, x, y, dx, dy, i, a, fvals[3], sampx, sampy);
      AlongStep(x, i, dx);
      AlongStep(y, i, dy);
      sampx := sampx + dx;
      sampy := sampy + dy;
    }
  }

  /** The output of `filterVector`, by row and column. */
  ghost function Vectored(img: seq<jint>, w: nat, h: nat, scan: int, weights: seq<real>, g: Geometry)
    : (int, int) -> jint
  {
    (row, col) => VectorPixel(img, w, h, scan, weights, g, col, row)
  }

  /** One destination pixel, from the position its sample line starts at. */
  method Pixel(src: array<jint>, w: nat, h: nat, scan: int, weights: seq<real>, x: real, y: real, dx: real, dy: real,
               ghost g: Geometry, ghost col: int, ghost row: int)
    returns (rgb: jint)
    requires 0 <= scan && Holds(src.Length, w, h, scan)
    requires x == g.StartX(col, row) && y == g.StartY(col, row) && dx == g.deltax && dy == g.deltay
    ensures rgb == Vectored(src[..], w, h, scan, weights, g)(row, col)
  {
    var fvals := new real[4](_ => 0.0);
    SampleLine(src, w, h, scan, weights, x, y, dx, dy, fvals);
    rgb := Pack(FvalToByte(fvals[3]), FvalToByte(fvals[0]), FvalToByte(fvals[1]), FvalToByte(fvals[2]));
    assert rgb == VectorPixel(src[..], w, h, scan, weights, g, col, row);
  }

  /** The middle loop: one row of destination pixels. */
  method Row(dst: array<jint>, dstrow: int, dstw: nat, src: array<jint>, w: nat, h: nat, scan: int, weights: seq<real>,
             srcx0: real, srcy0: real, g: Geometry,
             ghost d0: seq<jint>, ghost rows: Layout, ghost row: nat, ghost px: (int, int) -> jint)
    requires dst != src && 0 <= scan && Holds(src.Length, w, h, scan)
    requires rows.len == dstw && rows.iinc == 1 && dstrow == rows.Off(row, 0)
    requires dstw > 0 ==> 0 <= dstrow && dstrow + dstw <= dst.Length
    requires srcx0 == Along(g.x0 + (g.dxrow + g.dxcol) * 0.5, row, g.dxrow)
    requires srcy0 == Along(g.y0 + (g.dyrow + g.dycol) * 0.5, row, g.dyrow)
    requires px == Vectored(src[..], w, h, scan, weights, g)
    requires dst[..] == FillTo(d0, rows, row, 0, px)
    modifies dst
    ensures dst[..] == FillTo(d0, rows, row + 1, 0, px)
  {
    var srcx, srcy := srcx0, srcy0;
    AlongStep(srcx0, 0, g.dxcol);
    AlongStep(srcy0, 0, g.dycol);
    for col := 0 to dstw
      invariant srcx == Along(srcx0, col, g.dxcol) && srcy == Along(srcy0, col, g.dycol)
      invariant px == Vectored(src[..], w, h, scan, weights, g)
      invariant dst[..] == FillTo(d0, rows, row, col, px)
    {
      var rgb := Pixel(src, w, h, scan, weights, srcx + g.offsetx, srcy + g.offsety, g.deltax, g.deltay, g, col, row);
      Put(dst, dstrow + col, rgb, d0, rows, row, col, px);
      AlongStep(srcx0, col, g.dxcol);
      AlongStep(srcy0, col, g.dycol);
      srcx := srcx + g.dxcol;
      srcy := srcy + g.dycol;
    }
  }

  method FilterVector(dst: array<jint>, dstw: nat, dsth: nat, dstscan: int,
                      src: array<jint>, srcw: nat, srch: nat, srcscan: int, weights: seq<real>, count: nat, g: Geometry)
    requires dst != src && count <= |weights|
    requires 0 <= dstscan && Holds(dst.Length, dstw, dsth, dstscan)
    requires 0 <= srcscan && Holds(src.Length, srcw, srch, srcscan)
    modifies dst
    ensures count > 128 ==> dst[..] == old(dst[..])
    ensures count <= 128 ==>
              dst[..] == Fill(old(dst[..]), Rows(dstw, dsth, dstscan),
                              Vectored(src[..], srcw, srch, srcscan, weights[..count], g))
  {
    if count > 128 {
      return;
    }
    var dstrow := 0;
    var srcx0 := g.x0 + (g.dxrow + g.dxcol) * 0.5;
    var srcy0 := g.y0 + (g.dyrow + g.dycol) * 0.5;
    ghost var startx, starty := srcx0, srcy0;
    AlongStep(startx, 0, g.dxrow);
    AlongStep(starty, 0, g.dyrow);
    ghost var rows, px := Rows(dstw, dsth, dstscan), Vectored(src[..], srcw, srch, srcscan, weights[..count], g);
    for dy := 0 to dsth
      invariant dstrow == dy * dstscan
      invariant srcx0 == Along(startx, dy, g.dxrow) && srcy0 == Along(starty, dy, g.dyrow)
      invariant dst[..] == FillTo(old(dst[..]), rows, dy, 0, px)
    {
      RowInside(dy, dstw, dsth, dstscan, dst.Length);
      Row(dst, dstrow, dstw, src, srcw, srch, srcscan, weights[..count], srcx0, srcy0, g, old(dst[..]), rows, dy, px);
      AlongStep(startx, dy, g.dxrow);
      AlongStep(starty, dy, g.dyrow);
      NextLine(dy, dstscan);
      srcx0 := srcx0 + g.dxrow;
      srcy0 := srcy0 + g.dyrow;
      dstrow := dstrow + dstscan;
    }
  }

  lemma AlongClosed(x: real, n: int, d: real, m: int, e: real)
    ensures Along(Along(x, n, d), m, e) == x + n as real * d + m as real * e
  {
  }

  /** The stepped coordinates in closed form: corner, half a cell, whole cells and the offset. */
  lemma StartClosedForm(g: Geometry, col: int, row: int)
    ensures g.StartX(col, row)
         == g.x0 + (g.dxrow + g.dxcol) / 2.0 + col as real * g.dxcol + row as real * g.dxrow + g.offsetx
    ensures g.StartY(col, row)
         == g.y0 + (g.dyrow + g.dycol) / 2.0 + col as real * g.dycol + row as real * g.dyrow + g.offsety
  {
    AlongClosed(g.x0 + (g.dxrow + g.dxcol) * 0.5, row, g.dxrow, col, g.dxcol);
    AlongClosed(g.y0 + (g.dyrow + g.dycol) * 0.5, row, g.dyrow, col, g.dycol);
  }

  /** With non-negative weights, pointwise larger images have larger sums along every line. */
  lemma LineSumMonotone(v: (int, int) -> real, u: (int, int) -> real, w: nat, h: nat, weights: seq<real>,
                        x: real, y: real, dx: real, dy: real)
    requires NonNegative(weights) && forall i, j :: 0 <= i < w && 0 <= j < h ==> v(i, j) <= u(i, j)
    ensures LineSum(v, w, h, weights, x, y, dx, dy) <= LineSum(u, w, h, weights, x, y, dx, dy)
  {
    var f, g := LineTerm(v, w, h, weights, x, y, dx, dy), LineTerm(u, w, h, weights, x, y, dx, dy);
    forall i | 0 <= i < |weights|
      ensures f(i) <= g(i)
    {
      var sx, sy := Along(x, i, dx), Along(y, i, dy);
      SampleMonotone(v, u, w, h, sx, sy);
      ScaleUp(Sample(v, w, h, sx, sy), Sample(u, w, h, sx, sy), weights[i]);
    }
    SumMonotone(f, g, 0, |weights|);
  }

  lemma PlaneBelowAlpha(img: seq<jint>, scan: int, c: Chan, i: int, j: int)
    requires forall k :: 0 <= k < |img| ==> Premultiplied(img[k])
    ensures Plane(img, scan, c)(i, j) <= Plane(img, scan, A)(i, j)
  {
    assert Premultiplied(At(img, Offset(i, j, scan)));
  }

  /** Non-negative weights keep premultiplied images premultiplied. */
  lemma VectorPremultiplied(img: seq<jint>, w: nat, h: nat, scan: int, weights: seq<real>, g: Geometry, col: int,
                            row: int)
    requires NonNegative(weights) && forall k :: 0 <= k < |img| ==> Premultiplied(img[k])
    ensures Premultiplied(VectorPixel(img, w, h, scan, weights, g, col, row))
  {
    forall c: Chan
      ensures Byte(VectorPixel(img, w, h, scan, weights, g, col, row), c)
           <= Byte(VectorPixel(img, w, h, scan, weights, g, col, row), A)
    {
      forall i, j | 0 <= i < w && 0 <= j < h
        ensures Plane(img, scan, c)(i, j) <= Plane(img, scan, A)(i, j)
      {
        PlaneBelowAlpha(img, scan, c, i, j);
      }
      VectorPixelBytes(img, w, h, scan, weights, g, col, row, c);
      VectorPixelBytes(img, w, h, scan, weights, g, col, row, A);
      LineSumMonotone(Plane(img, scan, c), Plane(img, scan, A), w, h, weights,
                      g.StartX(col, row), g.StartY(col, row), g.deltax, g.deltay);
      FvalToByteMonotone(ChannelSum(img, w, h, scan, c, weights, g, col, row),
                         ChannelSum(img, w, h, scan, A, weights, g, col, row));
    }
  }

  /** Over whole images: every pixel `filterVector` writes is premultiplied. */
  lemma ImagePremultiplied(img: seq<jint>, w: nat, h: nat, scan: int, weights: seq<real>, g: Geometry,
                           d0: seq<jint>, dstw: nat, dsth: nat, dstscan: int, col: int, row: int)
    requires NonNegative(weights) && forall k :: 0 <= k < |img| ==> Premultiplied(img[k])
    requires dstw <= dstscan && Holds(|d0|, dstw, dsth, dstscan) && 0 <= col < dstw && 0 <= row < dsth
    ensures var rows := Rows(dstw, dsth, dstscan);
            && 0 <= rows.Off(row, col) < |d0|
            && Premultiplied(Fill(d0, rows, Vectored(img, w, h, scan, weights, g))[rows.Off(row, col)])
  {
    ImageLayout(dstw, dsth, dstscan, |d0|);
    FillAt(d0, Rows(dstw, dsth, dstscan), Vectored(img, w, h, scan, weights, g), row, col);
    VectorPremultiplied(img, w, h, scan, weights, g, col, row);
  }

  /** Sample i of the pixel in the given column and row is taken here, whatever the order of stepping. */
  ghost predicate SampledAt(g: Geometry, col: int, row: int, i: int, x: real, y: real) {
    && x == g.x0 + (g.dxrow + g.dxcol) / 2.0 + col as real * g.dxcol + row as real * g.dxrow + g.offsetx
            + i as real * g.deltax
    && y == g.y0 + (g.dyrow + g.dycol) / 2.0 + col as real * g.dycol + row as real * g.dyrow + g.offsety
            + i as real * g.deltay
  }

  lemma SampledAlong(g: Geometry, col: int, row: int, i: int, x: real, y: real)
    requires SampledAt(g, col, row, i, x, y)
    ensures Along(g.StartX(col, row), i, g.deltax) == x && Along(g.StartY(col, row), i, g.deltay) == y
  {
    StartClosedForm(g, col, row);
  }

  /** Term i is weights[i] times the sample of channel c at the i-th point of the pixel. */
  ghost predicate Samples(img: seq<jint>, w: nat, h: nat, scan: int, c: Chan, weights: seq<real>, g: Geometry,
                          col: int, row: int, xs: int -> real, ys: int -> real, term: int -> real) {
    forall i :: 0 <= i < |weights| ==>
      && SampledAt(g, col, row, i, xs(i), ys(i))
      && term(i) == weights[i] * Sample(Plane(img, scan, c), w, h, xs(i), ys(i))
  }

  lemma SampleTermIs(v: (int, int) -> real, w: nat, h: nat, weights: seq<real>, x: real, y: real, dx: real, dy: real,
                     i: int, sx: real, sy: real)
    requires 0 <= i < |weights| && Along(x, i, dx) == sx && Along(y, i, dy) == sy
    ensures LineTerm(v, w, h, weights, x, y, dx, dy)(i) == weights[i] * Sample(v, w, h, sx, sy)
  {
  }

  lemma LineSumOnGeometry(img: seq<jint>, w: nat, h: nat, scan: int, c: Chan, weights: seq<real>, g: Geometry,
                          col: int, row: int, xs: int -> real, ys: int -> real, term: int -> real)
    requires Samples(img, w, h, scan, c, weights, g, col, row, xs, ys, term)
    ensures ChannelSum(img, w, h, scan, c, weights, g, col, row) == Sum(term, 0, |weights|)
  {
    var v, x, y := Plane(img, scan, c), g.StartX(col, row), g.StartY(col, row);
    var f := LineTerm(v, w, h, weights, x, y, g.deltax, g.deltay);
    forall i | 0 <= i < |weights|
      ensures f(i) == term(i)
    {
      SampledAlong(g, col, row, i, xs(i), ys(i));
      SampleTermIs(v, w, h, weights, x, y, g.deltax, g.deltay, i, xs(i), ys(i));
    }
    SumEqual(f, term, 0, |weights|);
  }

  /**
   * On the geometry's own numbers: channel c of the pixel stored in a column and row is the clamped
   * sum over i of weights[i] times the sample of that channel at the i-th point.
   */
  lemma OnGeometry(img: seq<jint>, w: nat, h: nat, scan: int, weights: seq<real>, g: Geometry, d0: seq<jint>,
                   dstw: nat, dsth: nat, dstscan: int, col: int, row: int, c: Chan,
                   xs: int -> real, ys: int -> real, term: int -> real)
    requires dstw <= dstscan && Holds(|d0|, dstw, dsth, dstscan) && 0 <= col < dstw && 0 <= row < dsth
    requires Samples(img, w, h, scan, c, weights, g, col, row, xs, ys, term)
    ensures 0 <= row * dstscan + col < |d0|
    ensures var out := Fill(d0, Rows(dstw, dsth, dstscan), Vectored(img, w, h, scan, weights, g));
            Byte(out[row * dstscan + col], c) == FvalToByte(Sum(term, 0, |weights|))
  {
    ImageLayout(dstw, dsth, dstscan, |d0|);
    FillAt(d0, Rows(dstw, dsth, dstscan), Vectored(img, w, h, scan, weights, g), row, col);
    VectorPixelBytes(img, w, h, scan, weights, g, col, row, c);
    LineSumOnGeometry(img, w, h, scan, c, weights, g, col, row, xs, ys, term);
  }
}

/** The bilinear samplers of SSEUtils.cc, which accumulate four guarded neighbours into `fvals`. */
module Sampling {
  import opened Pixels
  import opened Strips
  import opened Lines
  import opened Bilinear

  /** Channel c of an image held row by row with the given scan length, as a function of column and row. */
  ghost function Plane(img: seq<jint>, scan: int, c: Chan): (int, int) -> real {
    (i, j) => PlaneAt(img, Offset(i, j, scan), c)
  }

  function Offset(i: int, j: int, scan: int): int {
    j * scan + i
  }

  function PlaneAt(img: seq<jint>, k: int, c: Chan): real {
    Byte(At(img, k), c) as real
  }

  /** Component k of a map of four floats per point. */
  ghost function MapPlane(map': seq<real>, scan: int, k: int): (int, int) -> real {
    (i, j) => RealAt(map', 4 * Offset(i, j, scan) + k)
  }

  function RealAt(s: seq<real>, o: int): real {
    if 0 <= o < |s| then s[o] else 0.0
  }

  /** What one tap adds to a channel: the pixel in column i, row j, zero outside, times m. */
  ghost function Term(v: (int, int) -> real, w: nat, h: nat, i: int, j: int, m: real): real {
    Clip(v, w, h, i, j) * m
  }

  /** What the four taps around cell (ix, iy) add. */
  ghost function CellSum(v: (int, int) -> real, w: nat, h: nat, ix: int, iy: int, a: real, b: real, c: real,
                         d: real): real {
    Term(v, w, h, ix, iy, a) + Term(v, w, h, ix - 1, iy, b)
    + Term(v, w, h, ix, iy - 1, c) + Term(v, w, h, ix - 1, iy - 1, d)
  }

  lemma TermOutside(v: (int, int) -> real, w: nat, h: nat, i: int, j: int, m: real)
    requires !(0 <= i < w && 0 <= j < h)
    ensures Term(v, w, h, i, j, m) == 0.0
  {
  }

  method Accumulate(p0: real, p1: real, p2: real, p3: real, m: real, fvals: array<real>)
    requires fvals.Length == 4
    modifies fvals
    ensures fvals[0] == old(fvals[0]) + p0 * m && fvals[1] == old(fvals[1]) + p1 * m
    ensures fvals[2] == old(fvals[2]) + p2 * m && fvals[3] == old(fvals[3]) + p3 * m
  {
    fvals[0] := fvals[0] + p0 * m;
    fvals[1] := fvals[1] + p1 * m;
    fvals[2] := fvals[2] + p2 * m;
    fvals[3] := fvals[3] + p3 * m;
  }

  lemma TermInside(img: seq<jint>, w: nat, h: nat, scan: int, c: Chan, i: int, j: int, offset: int, m: real)
    requires 0 <= i < w && 0 <= j < h && offset == Offset(i, j, scan) && 0 <= offset < |img|
    ensures Term(Plane(img, scan, c), w, h, i, j, m) == Byte(img[offset], c) as real * m
  {
    assert Plane(img, scan, c)(i, j) == PlaneAt(img, offset, c);
  }

  method LAccum(pixel: jint, mul: real, fvals: array<real>, ghost m: real, ghost r: real, ghost g: real,
                ghost b: real, ghost a: real)
    requires fvals.Length == 4 && m == mul / 255.0
    requires r == Byte(pixel, R) as real * m && g == Byte(pixel, G) as real * m
    requires b == Byte(pixel, B) as real * m && a == Byte(pixel, A) as real * m
    modifies fvals
    ensures fvals[0] == old(fvals[0]) + r && fvals[1] == old(fvals[1]) + g
    ensures fvals[2] == old(fvals[2]) + b && fvals[3] == old(fvals[3]) + a
  {
    var mul' := mul / 255.0;
    Accumulate(Byte(pixel, R) as real, Byte(pixel, G) as real, Byte(pixel, B) as real, Byte(pixel, A) as real, mul',
               fvals);
  }

  /** A guarded `laccum` of the pixel in column i, row j. */
  method Tap(guard: bool, img: array<jint>, ghost i: int, ghost j: int, ghost w: nat, ghost h: nat, ghost scan: int,
             offset: int, mul: real, fvals: array<real>, ghost m: real,
             ghost vr: (int, int) -> real, ghost vg: (int, int) -> real, ghost vb: (int, int) -> real,
             ghost va: (int, int) -> real)
    requires fvals.Length == 4 && 0 <= scan && Holds(img.Length, w, h, scan) && m == mul / 255.0
    requires guard <==> 0 <= i < w && 0 <= j < h
    requires guard ==> offset == Offset(i, j, scan)
    requires vr == Plane(img[..], scan, R) && vg == Plane(img[..], scan, G)
    requires vb == Plane(img[..], scan, B) && va == Plane(img[..], scan, A)
    modifies fvals
    ensures fvals[0] == old(fvals[0]) + Term(vr, w, h, i, j, m) && fvals[1] == old(fvals[1]) + Term(vg, w, h, i, j, m)
    ensures fvals[2] == old(fvals[2]) + Term(vb, w, h, i, j, m) && fvals[3] == old(fvals[3]) + Term(va, w, h, i, j, m)
  {
    if guard {
      OffsetInside(i, j, w, h, scan, img.Length);
      TermInside(img[..], w, h, scan, R, i, j, offset, m);
      TermInside(img[..], w, h, scan, G, i, j, offset, m);
      TermInside(img[..], w, h, scan, B, i, j, offset, m);
      TermInside(img[..], w, h, scan, A, i, j, offset, m);
      LAccum(img[offset], mul, fvals, m, Term(vr, w, h, i, j, m), Term(vg, w, h, i, j, m), Term(vb, w, h, i, j, m),
             Term(va, w, h, i, j, m));
    } else {
      TermOutside(vr, w, h, i, j, m);
      TermOutside(vg, w, h, i, j, m);
      TermOutside(vb, w, h, i, j, m);
      TermOutside(va, w, h, i, j, m);
    }
  }

  /** The four guarded accumulations around cell (ix, iy), with multipliers wa, wb, wc and wd. */
  method Neighbours(img: array<jint>, ix: int, iy: int, w: nat, h: nat, scan: int,
                    wa: real, wb: real, wc: real, wd: real, fvals: array<real>,
                    ghost a: real, ghost b: real, ghost c: real, ghost d: real,
                    ghost vr: (int, int) -> real, ghost vg: (int, int) -> real, ghost vb: (int, int) -> real,
                    ghost va: (int, int) -> real)
    requires fvals.Length == 4 && 0 <= scan && Holds(img.Length, w, h, scan)
    requires 0 <= ix <= w && 0 <= iy <= h
    requires a == wa / 255.0 && b == wb / 255.0 && c == wc / 255.0 && d == wd / 255.0
    requires vr == Plane(img[..], scan, R) && vg == Plane(img[..], scan, G)
    requires vb == Plane(img[..], scan, B) && va == Plane(img[..], scan, A)
    modifies fvals
    ensures fvals[0] == old(fvals[0]) + CellSum(vr, w, h, ix, iy, a, b, c, d)
    ensures fvals[1] == old(fvals[1]) + CellSum(vg, w, h, ix, iy, a, b, c, d)
    ensures fvals[2] == old(fvals[2]) + CellSum(vb, w, h, ix, iy, a, b, c, d)
    ensures fvals[3] == old(fvals[3]) + CellSum(va, w, h, ix, iy, a, b, c, d)
  {
    var offset := iy * scan + ix;
    NextLine(iy - 1, scan);
    Tap(iy < h && ix < w, img, ix, iy, w, h, scan, offset, wa, fvals, a, vr, vg, vb, va);
    Tap(iy < h && ix > 0, img, ix - 1, iy, w, h, scan, offset - 1, wb, fvals, b, vr, vg, vb, va);
    Tap(iy > 0 && ix < w, img, ix, iy - 1, w, h, scan, offset - scan, wc, fvals, c, vr, vg, vb, va);
    Tap(iy > 0 && ix > 0, img, ix - 1, iy - 1, w, h, scan, offset - scan - 1, wd, fvals, d, vr, vg, vb, va);
  }

  lemma Unscale(weight: real, scale: real, k: real, mul: real, m: real)
    requires mul == weight * scale && m == mul / 255.0 && k == scale / 255.0
    ensures m == weight * k
  {
  }

  /** The taps around a cell add up to the bilinear sample, times the common factor of their weights. */
  lemma CellSumIsSample(v: (int, int) -> real, w: nat, h: nat, x: real, y: real, ix: int, iy: int, fx: real, fy: real,
                        k: real, a: real, b: real, c: real, d: real, a': real, b': real, c': real, d': real)
    requires Cell(x, ix, fx) && Cell(y, iy, fy) && CellWeights(fx, fy, a, b, c, d)
    requires a' == a * k && b' == b * k && c' == c * k && d' == d * k
    ensures CellSum(v, w, h, ix, iy, a', b', c', d') == k * Sample(v, w, h, x, y)
  {
    SampleIsFour(v, w, h, x, y, ix, iy, fx, fy, a, b, c, d);
    var p, q, r, s := Clip(v, w, h, ix, iy), Clip(v, w, h, ix - 1, iy), Clip(v, w, h, ix, iy - 1),
        Clip(v, w, h, ix - 1, iy - 1);
    WeightedScale(k, a, b, c, d, a', b', c', d', p, q, r, s, Sample(v, w, h, x, y));
  }

  /** `after` is `before` plus factor times the sample of channel c at (x, y). */
  ghost predicate Added(before: real, after: real, v: (int, int) -> real, w: nat, h: nat, x: real, y: real,
                        factor: real) {
    after == before + factor * Sample(v, w, h, x, y)
  }

  /** Outside, nothing is added and the sample vanishes; inside, the taps add up to the sample. */
  method SampleAt(img: array<jint>, x: real, y: real, w: nat, h: nat, scan: int, scale: real, fvals: array<real>,
                  ghost k: real,
                  ghost vr: (int, int) -> real, ghost vg: (int, int) -> real, ghost vb: (int, int) -> real,
                  ghost va: (int, int) -> real)
    requires fvals.Length == 4 && 0 <= scan && Holds(img.Length, w, h, scan) && k == scale / 255.0
    requires vr == Plane(img[..], scan, R) && vg == Plane(img[..], scan, G)
    requires vb == Plane(img[..], scan, B) && va == Plane(img[..], scan, A)
    modifies fvals
    ensures Added(old(fvals[0]), fvals[0], vr, w, h, x, y, k) && Added(old(fvals[1]), fvals[1], vg, w, h, x, y, k)
    ensures Added(old(fvals[2]), fvals[2], vb, w, h, x, y, k) && Added(old(fvals[3]), fvals[3], va, w, h, x, y, k)
  {
    var fx, fy := x + 0.5, y + 0.5;
    var ix, iy := Trunc(fx), Trunc(fy);
    if fx > 0.0 && fy > 0.0 && ix <= w && iy <= h {
      fx := fx - ix as real;
      fy := fy - iy as real;
      var fract := fx * fy;
      var wb, wc, wd := fy - fract, fx - fract, 1.0 - fx - fy + fract;
      var ma, mb, mc, md := fract * scale, wb * scale, wc * scale, wd * scale;
      ghost var a, b, c, d := ma / 255.0, mb / 255.0, mc / 255.0, md / 255.0;
      Unscale(fract, scale, k, ma, a);
      Unscale(wb, scale, k, mb, b);
      Unscale(wc, scale, k, mc, c);
      Unscale(wd, scale, k, md, d);
      CellSumIsSample(vr, w, h, x, y, ix, iy, fx, fy, k, fract, wb, wc, wd, a, b, c, d);
      CellSumIsSample(vg, w, h, x, y, ix, iy, fx, fy, k, fract, wb, wc, wd, a, b, c, d);
      CellSumIsSample(vb, w, h, x, y, ix, iy, fx, fy, k, fract, wb, wc, wd, a, b, c, d);
      CellSumIsSample(va, w, h, x, y, ix, iy, fx, fy, k, fract, wb, wc, wd, a, b, c, d);
      Neighbours(img, ix, iy, w, h, scan, ma, mb, mc, md, fvals, a, b, c, d, vr, vg, vb, va);
    } else {
      SampleOutside(vr, w, h, x, y);
      SampleOutside(vg, w, h, x, y);
      SampleOutside(vb, w, h, x, y);
      SampleOutside(va, w, h, x, y);
    }
  }

  /** Adds factor times the bilinear sample at (x, y), in pixels, which may lie in or out of the image. */
  method LAccumSample(img: array<jint>, x: real, y: real, w: nat, h: nat, scan: int, factor: real, fvals: array<real>)
    requires fvals.Length == 4 && 0 <= scan && Holds(img.Length, w, h, scan)
    modifies fvals
    ensures Added(old(fvals[0]), fvals[0], Plane(img[..], scan, R), w, h, x, y, factor)
    ensures Added(old(fvals[1]), fvals[1], Plane(img[..], scan, G), w, h, x, y, factor)
    ensures Added(old(fvals[2]), fvals[2], Plane(img[..], scan, B), w, h, x, y, factor)
    ensures Added(old(fvals[3]), fvals[3], Plane(img[..], scan, A), w, h, x, y, factor)
  {
    var scale := factor * 255.0;
    SampleAt(img, x, y, w, h, scan, scale, fvals, factor,
             Plane(img[..], scan, R), Plane(img[..], scan, G), Plane(img[..], scan, B), Plane(img[..], scan, A));
  }

  /** Sets `fvals` to the bilinear sample, in 0..1, at (x, y) given as fractions of width and height. */
  method LSample(img: array<jint>, x: real, y: real, w: nat, h: nat, scan: int, fvals: array<real>)
    requires fvals.Length == 4 && 0 <= scan && Holds(img.Length, w, h, scan)
    modifies fvals
    ensures Added(0.0, fvals[0], Plane(img[..], scan, R), w, h, x * w as real, y * h as real, 1.0 / 255.0)
    ensures Added(0.0, fvals[1], Plane(img[..], scan, G), w, h, x * w as real, y * h as real, 1.0 / 255.0)
    ensures Added(0.0, fvals[2], Plane(img[..], scan, B), w, h, x * w as real, y * h as real, 1.0 / 255.0)
    ensures Added(0.0, fvals[3], Plane(img[..], scan, A), w, h, x * w as real, y * h as real, 1.0 / 255.0)
  {
    fvals[0], fvals[1], fvals[2], fvals[3] := 0.0, 0.0, 0.0, 0.0;
    SampleAt(img, x * w as real, y * h as real, w, h, scan, 1.0, fvals, 1.0 / 255.0,
             Plane(img[..], scan, R), Plane(img[..], scan, G), Plane(img[..], scan, B), Plane(img[..], scan, A));
  }

  /** A map of `size` floats holds w by h points of four components with the given scan length. */
  predicate MapHolds(size: int, w: int, h: int, scan: int) {
    w > 0 && h > 0 ==> 4 * ((h - 1) * scan + w) <= size
  }

  lemma MapTermInside(map': seq<real>, w: nat, h: nat, scan: int, k: int, i: int, j: int, offset: int, m: real)
    requires 0 <= i < w && 0 <= j < h && offset == 4 * Offset(i, j, scan) && 0 <= offset + k < |map'|
    ensures Term(MapPlane(map', scan, k), w, h, i, j, m) == map'[offset + k] * m
  {
    assert MapPlane(map', scan, k)(i, j) == RealAt(map', offset + k);
  }

  /** A guarded `faccum` of the point in column i, row j. */
  method FTap(guard: bool, map': array<real>, ghost i: int, ghost j: int, ghost w: nat, ghost h: nat, ghost scan: int,
              offset: int, fract: real, fvals: array<real>,
              ghost v0: (int, int) -> real, ghost v1: (int, int) -> real, ghost v2: (int, int) -> real,
              ghost v3: (int, int) -> real)
    requires fvals.Length == 4 && fvals != map' && 0 <= scan && MapHolds(map'.Length, w, h, scan)
    requires guard <==> 0 <= i < w && 0 <= j < h
    requires guard ==> offset == 4 * Offset(i, j, scan)
    requires v0 == MapPlane(map'[..], scan, 0) && v1 == MapPlane(map'[..], scan, 1)
    requires v2 == MapPlane(map'[..], scan, 2) && v3 == MapPlane(map'[..], scan, 3)
    modifies fvals
    ensures fvals[0] == old(fvals[0]) + Term(v0, w, h, i, j, fract)
    ensures fvals[1] == old(fvals[1]) + Term(v1, w, h, i, j, fract)
    ensures fvals[2] == old(fvals[2]) + Term(v2, w, h, i, j, fract)
    ensures fvals[3] == old(fvals[3]) + Term(v3, w, h, i, j, fract)
  {
    if guard {
      OffsetInside(i, j, w, h, scan, (h - 1) * scan + w);
      MapTermInside(map'[..], w, h, scan, 0, i, j, offset, fract);
      MapTermInside(map'[..], w, h, scan, 1, i, j, offset, fract);
      MapTermInside(map'[..], w, h, scan, 2, i, j, offset, fract);
      MapTermInside(map'[..], w, h, scan, 3, i, j, offset, fract);
      Accumulate(map'[offset], map'[offset + 1], map'[offset + 2], map'[offset + 3], fract, fvals);
    } else {
      TermOutside(v0, w, h, i, j, fract);
      TermOutside(v1, w, h, i, j, fract);
      TermOutside(v2, w, h, i, j, fract);
      TermOutside(v3, w, h, i, j, fract);
    }
  }

  method FNeighbours(map': array<real>, ix: int, iy: int, w: nat, h: nat, scan: int, a: real, b: real, c: real,
                     d: real, fvals: array<real>,
                     ghost v0: (int, int) -> real, ghost v1: (int, int) -> real, ghost v2: (int, int) -> real,
                     ghost v3: (int, int) -> real)
    requires fvals.Length == 4 && fvals != map' && 0 <= scan && MapHolds(map'.Length, w, h, scan)
    requires 0 <= ix <= w && 0 <= iy <= h
    requires v0 == MapPlane(map'[..], scan, 0) && v1 == MapPlane(map'[..], scan, 1)
    requires v2 == MapPlane(map'[..], scan, 2) && v3 == MapPlane(map'[..], scan, 3)
    modifies fvals
    ensures fvals[0] == old(fvals[0]) + CellSum(v0, w, h, ix, iy, a, b, c, d)
    ensures fvals[1] == old(fvals[1]) + CellSum(v1, w, h, ix, iy, a, b, c, d)
    ensures fvals[2] == old(fvals[2]) + CellSum(v2, w, h, ix, iy, a, b, c, d)
    ensures fvals[3] == old(fvals[3]) + CellSum(v3, w, h, ix, iy, a, b, c, d)
  {
    var offset := 4 * (iy * scan + ix);
    NextLine(iy - 1, scan);
    FTap(iy < h && ix < w, map', ix, iy, w, h, scan, offset, a, fvals, v0, v1, v2, v3);
    FTap(iy < h && ix > 0, map', ix - 1, iy, w, h, scan, offset - 4, b, fvals, v0, v1, v2, v3);
    FTap(iy > 0 && ix < w, map', ix, iy - 1, w, h, scan, offset - scan * 4, c, fvals, v0, v1, v2, v3);
    FTap(iy > 0 && ix > 0, map', ix - 1, iy - 1, w, h, scan, offset - scan * 4 - 4, d, fvals, v0, v1, v2, v3);
  }

  /** Sets `fvals` to the bilinear sample of a float map at (x, y) given as fractions of width and height. */
  method FSample(map': array<real>, x: real, y: real, w: nat, h: nat, scan: int, fvals: array<real>)
    requires fvals.Length == 4 && fvals != map' && 0 <= scan && MapHolds(map'.Length, w, h, scan)
    modifies fvals
    ensures Added(0.0, fvals[0], MapPlane(map'[..], scan, 0), w, h, x * w as real, y * h as real, 1.0)
    ensures Added(0.0, fvals[1], MapPlane(map'[..], scan, 1), w, h, x * w as real, y * h as real, 1.0)
    ensures Added(0.0, fvals[2], MapPlane(map'[..], scan, 2), w, h, x * w as real, y * h as real, 1.0)
    ensures Added(0.0, fvals[3], MapPlane(map'[..], scan, 3), w, h, x * w as real, y * h as real, 1.0)
  {
    fvals[0], fvals[1], fvals[2], fvals[3] := 0.0, 0.0, 0.0, 0.0;
    FSampleAt(map', x * w as real, y * h as real, w, h, scan, fvals,
              MapPlane(map'[..], scan, 0), MapPlane(map'[..], scan, 1), MapPlane(map'[..], scan, 2),
              MapPlane(map'[..], scan, 3));
  }

  method FSampleAt(map': array<real>, x: real, y: real, w: nat, h: nat, scan: int, fvals: array<real>,
                   ghost v0: (int, int) -> real, ghost v1: (int, int) -> real, ghost v2: (int, int) -> real,
                   ghost v3: (int, int) -> real)
    requires fvals.Length == 4 && fvals != map' && 0 <= scan && MapHolds(map'.Length, w, h, scan)
    requires v0 == MapPlane(map'[..], scan, 0) && v1 == MapPlane(map'[..], scan, 1)
    requires v2 == MapPlane(map'[..], scan, 2) && v3 == MapPlane(map'[..], scan, 3)
    modifies fvals
    ensures Added(old(fvals[0]), fvals[0], v0, w, h, x, y, 1.0) && Added(old(fvals[1]), fvals[1], v1, w, h, x, y, 1.0)
    ensures Added(old(fvals[2]), fvals[2], v2, w, h, x, y, 1.0) && Added(old(fvals[3]), fvals[3], v3, w, h, x, y, 1.0)
  {
    var fx, fy := x + 0.5, y + 0.5;
    var ix, iy := Trunc(fx), Trunc(fy);
    if fx > 0.0 && fy > 0.0 && ix <= w && iy <= h {
      fx := fx - ix as real;
      fy := fy - iy as real;
      var fract := fx * fy;
      var b, c, d := fy - fract, fx - fract, 1.0 - fx - fy + fract;
      CellSumIsSample(v0, w, h, x, y, ix, iy, fx, fy, 1.0, fract, b, c, d, fract, b, c, d);
      CellSumIsSample(v1, w, h, x, y, ix, iy, fx, fy, 1.0, fract, b, c, d, fract, b, c, d);
      CellSumIsSample(v2, w, h, x, y, ix, iy, fx, fy, 1.0, fract, b, c, d, fract, b, c, d);
      CellSumIsSample(v3, w, h, x, y, ix, iy, fx, fy, 1.0, fract, b, c, d, fract, b, c, d);
      FNeighbours(map', ix, iy, w, h, scan, fract, b, c, d, fvals, v0, v1, v2, v3);
    } else {
      SampleOutside(v0, w, h, x, y);
      SampleOutside(v1, w, h, x, y);
      SampleOutside(v2, w, h, x, y);
      SampleOutside(v3, w, h, x, y);
    }
  }

  /** The plane is the image: at the centre of pixel (i, j) the sample is channel c of the element at j * scan + i. */
  lemma PlaneOnSource(img: seq<jint>, w: int, h: int, scan: int, c: Chan, i: int, j: int)
    requires 0 <= i < w && 0 <= j < h && 0 <= j * scan + i < |img|
    ensures Sample(Plane(img, scan, c), w, h, i as real + 0.5, j as real + 0.5) == Byte(img[j * scan + i], c) as real
  {
    SampleAtCentre(Plane(img, scan, c), w, h, i, j);
  }

  /** The same for component k of a float map, held at 4 * (j * scan + i) + k. */
  lemma MapPlaneOnSource(map': seq<real>, w: int, h: int, scan: int, k: int, i: int, j: int)
    requires 0 <= i < w && 0 <= j < h && 0 <= 4 * (j * scan + i) + k < |map'|
    ensures Sample(MapPlane(map', scan, k), w, h, i as real + 0.5, j as real + 0.5) == map'[4 * (j * scan + i) + k]
  {
    SampleAtCentre(MapPlane(map', scan, k), w, h, i, j);
  }
}

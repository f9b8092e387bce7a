/** The repeated passes of SSEBoxBlurPeer.java: blur an image again and again, letting it grow each time. */
module BoxBlurPasses {
  import opened Pixels
  import opened Sums
  import opened Strips
  import opened Lines
  import opened BoxBlur
  import opened BoxBlurLaws

  /** One line blurred with a window of n: n - 1 pixels longer. */
  ghost function BlurLine(line: seq<jint>, n: int): (r: seq<jint>)
    requires BoxSize(n)
    ensures |r| == |line| + n - 1
  {
    seq(|line| + n - 1, x => BlurPixel(line, n, x))
  }

  predicate BoxSizes(sizes: seq<int>) {
    forall n :: n in sizes ==> BoxSize(n)
  }

  /** One line blurred with several windows in turn. */
  ghost function BlurAll(line: seq<jint>, sizes: seq<int>): seq<jint>
    requires BoxSizes(sizes)
  {
    if sizes == [] then line else BlurLine(BlurAll(line, sizes[..|sizes| - 1]), sizes[|sizes| - 1])
  }

  /** Blurring with any sequence of windows keeps premultiplied lines premultiplied. */
  lemma {:induction false} PassesPremultiplied(line: seq<jint>, sizes: seq<int>)
    requires BoxSizes(sizes) && forall i :: 0 <= i < |line| ==> Premultiplied(line[i])
    ensures forall i :: 0 <= i < |BlurAll(line, sizes)| ==> Premultiplied(BlurAll(line, sizes)[i])
    decreases |sizes|
  {
    if sizes != [] {
      var before, n := BlurAll(line, sizes[..|sizes| - 1]), sizes[|sizes| - 1];
      PassesPremultiplied(line, sizes[..|sizes| - 1]);
      forall x | 0 <= x < |before| + n - 1
        ensures Premultiplied(BlurLine(before, n)[x])
      {
        BlurPremultiplied(before, n, x);
      }
    }
  }

  /** The window sizes of the passes that grow a length from cur to final by inc at a time. */
  function Sizes(cur: int, final: int, inc: int): seq<int>
    requires inc >= 1
    decreases final - cur
  {
    if cur >= final then []
    else if cur + inc > final then [final - cur + 1]
    else [inc + 1] + Sizes(cur + inc, final, inc)
  }

  /** Growth rounded up to the next even number. */
  function Grow(inc: int, iterations: int): int {
    (inc * iterations + 1) / 2 * 2
  }

  function Repeat(n: int, k: nat): (r: seq<int>)
    ensures |r| == k && forall i :: 0 <= i < k ==> r[i] == n
  {
    seq(k, _ => n)
  }

  lemma {:induction false} SizesRepeat(cur: int, inc: int, k: nat, extra: int)
    requires inc >= 1 && 0 <= extra <= 1
    ensures Sizes(cur, cur + inc * k + extra, inc)
         == if extra == 0 then Repeat(inc + 1, k)
            else if inc == 1 then Repeat(2, k + 1)
            else Repeat(inc + 1, k) + [2]
    decreases k
  {
    if k == 0 {
      if extra == 1 && inc == 1 {
        assert Sizes(cur + 1, cur + 1, 1) == [];
      }
    } else {
      assert inc * k == inc + inc * (k - 1) && inc * (k - 1) >= 0;
      SizesRepeat(cur + inc, inc, k - 1, extra);
      assert [inc + 1] + Repeat(inc + 1, k - 1) == Repeat(inc + 1, k);
      assert inc == 1 ==> [inc + 1] + Repeat(2, k) == Repeat(2, k + 1);
    }
  }

  /** `iterations` full passes, and one more of two pixels exactly when the total growth would be odd. */
  function PassSizes(inc: int, iterations: nat): seq<int> {
    Repeat(inc + 1, iterations) + if inc * iterations % 2 == 0 then [] else [2]
  }

  lemma PassCount(cur: int, inc: int, iterations: nat)
    requires inc >= 1
    ensures Sizes(cur, cur + Grow(inc, iterations), inc) == PassSizes(inc, iterations)
  {
    var extra := inc * iterations % 2;
    assert Grow(inc, iterations) == inc * iterations + extra;
    SizesRepeat(cur, inc, iterations, extra);
    if extra == 1 && inc == 1 {
      assert Repeat(2, iterations + 1) == Repeat(2, iterations) + [2];
    }
  }

  /** Line l of an image: its row l for horizontal passes, its column l for vertical ones. */
  ghost function ImageLine(img: seq<jint>, horizontal: bool, l: int, len: nat, scan: int): seq<jint> {
    if horizontal then Line(img, l * scan, 1, len) else Line(img, l, scan, len)
  }

  /** Every line of the first image is the blurred line of the second. */
  ghost predicate LinesBlurred(dst: seq<jint>, dstscan: int, src: seq<jint>, srcscan: int, horizontal: bool,
                               lines: nat, newlen: nat, len: nat) {
    BoxSize(newlen - len + 1) &&
    forall l :: 0 <= l < lines ==> LineBlurred(dst, dstscan, src, srcscan, horizontal, l, newlen, len)
  }

  ghost predicate LineBlurred(dst: seq<jint>, dstscan: int, src: seq<jint>, srcscan: int, horizontal: bool, l: int,
                              newlen: nat, len: nat)
    requires BoxSize(newlen - len + 1)
  {
    ImageLine(dst, horizontal, l, newlen, dstscan)
    == BlurLine(ImageLine(src, horizontal, l, len, srcscan), newlen - len + 1)
  }

  /** One pass: every line of the destination is the blurred line of the source. */
  method Pass(dst: array<jint>, src: array<jint>, horizontal: bool, lines: nat, len: nat, newlen: nat, dstscan: int,
              srcscan: int)
    requires dst != src && BoxSize(newlen - len + 1)
    requires horizontal ==> newlen <= dstscan && Holds(dst.Length, newlen, lines, dstscan)
    requires horizontal ==> len <= srcscan && Holds(src.Length, len, lines, srcscan)
    requires !horizontal ==> lines <= dstscan && Holds(dst.Length, lines, newlen, dstscan)
    requires !horizontal ==> lines <= srcscan && Holds(src.Length, lines, len, srcscan)
    modifies dst
    ensures LinesBlurred(dst[..], dstscan, src[..], srcscan, horizontal, lines, newlen, len)
  {
    ghost var d0, s := dst[..], src[..];
    if horizontal {
      FilterHorizontal(dst, newlen, lines, dstscan, src, len, srcscan);
      forall l | 0 <= l < lines
        ensures LineBlurred(dst[..], dstscan, s, srcscan, true, l, newlen, len)
      {
        RowBlurred(d0, s, l, lines, len, newlen, dstscan, srcscan);
      }
    } else {
      FilterVertical(dst, lines, newlen, dstscan, src, len, srcscan);
      forall l | 0 <= l < lines
        ensures LineBlurred(dst[..], dstscan, s, srcscan, false, l, newlen, len)
      {
        ColumnBlurred(d0, s, l, lines, len, newlen, dstscan, srcscan);
      }
    }
  }

  lemma RowBlurred(d0: seq<jint>, s: seq<jint>, l: int, lines: nat, len: nat, newlen: nat, dstscan: int, srcscan: int)
    requires BoxSize(newlen - len + 1) && 0 <= l < lines && newlen <= dstscan && Holds(|d0|, newlen, lines, dstscan)
    ensures Line(Fill(d0, Rows(newlen, lines, dstscan), HorizontalBlur(s, len, srcscan, newlen - len + 1)),
                 l * dstscan, 1, newlen)
         == BlurLine(Line(s, l * srcscan, 1, len), newlen - len + 1)
  {
    var n := newlen - len + 1;
    var rows, px := Rows(newlen, lines, dstscan), HorizontalBlur(s, len, srcscan, n);
    var d := Fill(d0, rows, px);
    ImageLayout(newlen, lines, dstscan, |d0|);
    forall x | 0 <= x < newlen
      ensures Line(d, l * dstscan, 1, newlen)[x] == BlurLine(Line(s, l * srcscan, 1, len), n)[x]
    {
      FillAt(d0, rows, px, l, x);
      LineAt(d, l * dstscan, 1, newlen, x, rows.Off(l, x));
    }
  }

  lemma ColumnBlurred(d0: seq<jint>, s: seq<jint>, l: int, lines: nat, len: nat, newlen: nat, dstscan: int,
                      srcscan: int)
    requires BoxSize(newlen - len + 1) && 0 <= l < lines && lines <= dstscan && Holds(|d0|, lines, newlen, dstscan)
    ensures Line(Fill(d0, Columns(lines, newlen, dstscan), VerticalBlur(s, len, srcscan, newlen - len + 1)), l,
                 dstscan, newlen)
         == BlurLine(Line(s, l, srcscan, len), newlen - len + 1)
  {
    var n := newlen - len + 1;
    var columns, px := Columns(lines, newlen, dstscan), VerticalBlur(s, len, srcscan, n);
    var d := Fill(d0, columns, px);
    ImageLayout(lines, newlen, dstscan, |d0|);
    forall y | 0 <= y < newlen
      ensures Line(d, l, dstscan, newlen)[y] == BlurLine(Line(s, l, srcscan, len), n)[y]
    {
      FillAt(d0, columns, px, l, y);
      LineAt(d, l, dstscan, newlen, y, columns.Off(l, y));
    }
  }

  lemma {:induction false} BlurAllStep(line: seq<jint>, sizes: seq<int>, n: int)
    requires BoxSizes(sizes) && BoxSize(n)
    ensures BoxSizes(sizes + [n]) && BlurAll(line, sizes + [n]) == BlurLine(BlurAll(line, sizes), n)
  {
    assert (sizes + [n])[..|sizes|] == sizes;
  }

  /** The passes done so far and those to come make up the whole. */
  ghost predicate Remaining(done: seq<int>, cur: int, final: int, inc: int, all: seq<int>)
    requires inc >= 1
  {
    done + Sizes(cur, final, inc) == all
  }

  lemma SizesStep(cur: int, final: int, inc: int, done: seq<int>, all: seq<int>, next: int)
    requires inc >= 1 && cur < final && next == (if cur + inc > final then final else cur + inc)
    requires Remaining(done, cur, final, inc, all)
    ensures Remaining(done + [next - cur + 1], next, final, inc, all)
  {
  }

  /** A pixel array from the renderer, wide enough for w by h pixels. */
  method CompatibleImage(w: nat, h: nat, scan: int) returns (pixels: array<jint>)
    requires w <= scan
    ensures fresh(pixels) && Holds(pixels.Length, w, h, scan)
  {
    pixels := new jint[scan * h];
    assert h > 0 ==> scan * h == (h - 1) * scan + scan;
  }

  /** The extent of an image along its rows, or along its columns. */
  function Length(w: nat, h: nat, horizontal: bool): nat {
    if horizontal then w else h
  }

  /** Every line of the image is the source line blurred with the given windows in turn. */
  ghost predicate PassesDone(img: seq<jint>, scan: int, src: seq<jint>, srcscan: int, horizontal: bool, lines: nat,
                             len: nat, srclen: nat, sizes: seq<int>) {
    BoxSizes(sizes) &&
    forall l :: 0 <= l < lines ==> LinePassed(img, scan, src, srcscan, horizontal, l, len, srclen, sizes)
  }

  ghost predicate LinePassed(img: seq<jint>, scan: int, src: seq<jint>, srcscan: int, horizontal: bool, l: int,
                             len: nat, srclen: nat, sizes: seq<int>)
    requires BoxSizes(sizes)
  {
    ImageLine(img, horizontal, l, len, scan) == BlurAll(ImageLine(src, horizontal, l, srclen, srcscan), sizes)
  }

  lemma LineDone(dst: seq<jint>, dstscan: int, cur: seq<jint>, curscan: int, src: seq<jint>, srcscan: int,
                 horizontal: bool,
                 l: int, newlen: nat, len: nat, srclen: nat, done: seq<int>, n: int)
    requires BoxSizes(done) && LinePassed(cur, curscan, src, srcscan, horizontal, l, len, srclen, done)
    requires BoxSize(n) && n == newlen - len + 1 && LineBlurred(dst, dstscan, cur, curscan, horizontal, l, newlen, len)
    ensures BoxSizes(done + [n]) && LinePassed(dst, dstscan, src, srcscan, horizontal, l, newlen, srclen, done + [n])
  {
    BlurAllStep(ImageLine(src, horizontal, l, srclen, srcscan), done, n);
  }

  /** One more pass over an image that has had some. */
  lemma PassDone(dst: seq<jint>, dstscan: int, cur: seq<jint>, curscan: int, src: seq<jint>, srcscan: int,
                 horizontal: bool,
                 lines: nat, newlen: nat, len: nat, srclen: nat, done: seq<int>, n: int)
    requires PassesDone(cur, curscan, src, srcscan, horizontal, lines, len, srclen, done)
    requires LinesBlurred(dst, dstscan, cur, curscan, horizontal, lines, newlen, len) && n == newlen - len + 1
    ensures PassesDone(dst, dstscan, src, srcscan, horizontal, lines, newlen, srclen, done + [n])
  {
    BlurAllStep([], done, n);
    forall l | 0 <= l < lines
      ensures LinePassed(dst, dstscan, src, srcscan, horizontal, l, newlen, srclen, done + [n])
    {
      LineDone(dst, dstscan, cur, curscan, src, srcscan, horizontal, l, newlen, len, srclen, done, n);
    }
  }

  /** The body of the loop: one more pass into a new, larger image. */
  method NextPass(cur: array<jint>, curw: nat, curh: nat, curscan: int, hinc: nat, vinc: nat, finalw: nat,
                  finalh: nat, horizontal: bool,
                  stride: int -> int, ghost src: seq<jint>, ghost srcscan: int, ghost srclen: nat, ghost done: seq<int>)
    returns (dst: array<jint>, neww: nat, newh: nat, newscan: int)
    requires curw <= curscan && Holds(cur.Length, curw, curh, curscan) && curw <= finalw && curh <= finalh
    requires horizontal ==> BoxSize(hinc + 1) && vinc == 0
    requires !horizontal ==> BoxSize(vinc + 1) && hinc == 0
    requires forall w: nat :: w <= stride(w)
    requires PassesDone(cur[..], curscan, src, srcscan, horizontal, Length(curw, curh, !horizontal),
                        Length(curw, curh, horizontal), srclen, done)
    ensures fresh(dst) && neww <= newscan && Holds(dst.Length, neww, newh, newscan)
    ensures neww == (if curw + hinc > finalw then finalw else curw + hinc)
    ensures newh == (if curh + vinc > finalh then finalh else curh + vinc)
    ensures PassesDone(dst[..], newscan, src, srcscan, horizontal, Length(curw, curh, !horizontal),
                       Length(neww, newh, horizontal), srclen,
                       done + [Length(neww, newh, horizontal) - Length(curw, curh, horizontal) + 1])
  {
    neww, newh := curw + hinc, curh + vinc;
    if neww > finalw {
      neww := finalw;
    }
    if newh > finalh {
      newh := finalh;
    }
    newscan := stride(neww);
    dst := CompatibleImage(neww, newh, newscan);
    var lines, len, newlen := Length(curw, curh, !horizontal), Length(curw, curh, horizontal),
        Length(neww, newh, horizontal);
    Pass(dst, cur, horizontal, lines, len, newlen, newscan, curscan);
    PassDone(dst[..], newscan, cur[..], curscan, src, srcscan, horizontal, lines, newlen, len, srclen, done,
             newlen - len + 1);
  }

  /** The image grows along its lines only, by an even amount. */
  lemma Growths(inc: int, iterations: int, horizontal: bool, gx: int, gy: int, hx: int, hy: int)
    requires inc >= 1 && iterations >= 1 && hx == gx / 2 && hy == gy / 2
    requires gx == Grow(if horizontal then inc else 0, iterations)
    requires gy == Grow(if horizontal then 0 else inc, iterations)
    ensures gx == 2 * hx >= 0 && gy == 2 * hy >= 0
    ensures if horizontal then gx == Grow(inc, iterations) && gy == 0 else gx == 0 && gy == Grow(inc, iterations)
  {
    assert inc * iterations >= 1 && 0 * iterations == 0;
  }

  /** The loop over the passes: blur until the image has grown to its final size. */
  method Passes(src: array<jint>, srcw: nat, srch: nat, srcscan: int, horizontal: bool, hinc: nat, vinc: nat,
                finalw: nat, finalh: nat,
                stride: int -> int, ghost inc: int)
    returns (cur: array<jint>, curw: nat, curh: nat, curscan: int)
    requires inc >= 1 && BoxSize(inc + 1) && hinc == (if horizontal then inc else 0)
    requires vinc == (if horizontal then 0 else inc)
    requires srcw <= srcscan && Holds(src.Length, srcw, srch, srcscan)
    requires srcw <= finalw && srch <= finalh && Length(srcw, srch, !horizontal) == Length(finalw, finalh, !horizontal)
    requires forall w: nat :: w <= stride(w)
    ensures curw == finalw && curh == finalh
    ensures PassesDone(cur[..], curscan, src[..], srcscan, horizontal, Length(srcw, srch, !horizontal),
                       Length(finalw, finalh, horizontal),
                       Length(srcw, srch, horizontal),
                       Sizes(Length(srcw, srch, horizontal), Length(finalw, finalh, horizontal), inc))
  {
    cur, curw, curh, curscan := src, srcw, srch, srcscan;
    ghost var len, final, done: seq<int> := Length(srcw, srch, horizontal), Length(finalw, finalh, horizontal), [];
    ghost var lines, all := Length(srcw, srch, !horizontal), Sizes(len, final, inc);
    while curw < finalw || curh < finalh
      invariant Length(curw, curh, horizontal) <= final && Length(curw, curh, !horizontal) == lines
      invariant curw <= curscan && Holds(cur.Length, curw, curh, curscan)
      invariant Remaining(done, Length(curw, curh, horizontal), final, inc, all)
      invariant PassesDone(cur[..], curscan, src[..], srcscan, horizontal, lines, Length(curw, curh, horizontal), len,
                           done)
      decreases final - Length(curw, curh, horizontal)
    {
      var dst, neww, newh, newscan :=
        NextPass(cur, curw, curh, curscan, hinc, vinc, finalw, finalh, horizontal, stride, src[..], srcscan, len, done);
      SizesStep(Length(curw, curh, horizontal), final, inc, done, all, Length(neww, newh, horizontal));
      done := done + [Length(neww, newh, horizontal) - Length(curw, curh, horizontal) + 1];
      cur, curw, curh, curscan := dst, neww, newh, newscan;
    }
    assert done == all;
  }

  /**
   * `filter`; `stride` is the scan length the renderer gives an image of some width.  The image
   * grows by an even amount, equally on both sides, and every line of it is the source line blurred
   * with `iterations` windows of the box size, and with one of two pixels more when the growth needs
   * it to be even.
   */
  method Filter(src: array<jint>, srcx: int, srcy: int, srcw: nat, srch: nat, srcscan: int, horizontal: bool,
                boxSize: int, iterations: int, stride: int -> int)
    returns (cur: array<jint>, x: int, y: int, curw: nat, curh: nat, curscan: int)
    requires boxSize * 255 <= 0x7fff_ffff && srcw <= srcscan && Holds(src.Length, srcw, srch, srcscan)
    requires forall w: nat :: w <= stride(w)
    ensures 2 * (srcx - x) == curw - srcw && 2 * (srcy - y) == curh - srch
    ensures iterations < 1 || boxSize < 2 ==> cur == src && curw == srcw && curh == srch && curscan == srcscan
    ensures iterations >= 1 && boxSize >= 2 ==>
              && Length(curw, curh, horizontal) == Length(srcw, srch, horizontal) + Grow(boxSize - 1, iterations)
              && Length(curw, curh, !horizontal) == Length(srcw, srch, !horizontal)
              && PassesDone(cur[..], curscan, src[..], srcscan, horizontal, Length(srcw, srch, !horizontal),
                            Length(curw, curh, horizontal), Length(srcw, srch, horizontal),
                            PassSizes(boxSize - 1, iterations))
  {
    var hinc, vinc := if horizontal then boxSize - 1 else 0, if horizontal then 0 else boxSize - 1;
    if iterations < 1 || (hinc < 1 && vinc < 1) {
      return src, srcx, srcy, srcw, srch, srcscan;
    }
    PassCount(Length(srcw, srch, horizontal), boxSize - 1, iterations);
    var growx, growy := Grow(hinc, iterations), Grow(vinc, iterations);
    Growths(boxSize - 1, iterations, horizontal, growx, growy, growx / 2, growy / 2);
    cur, curw, curh, curscan := Passes(src, srcw, srch, srcscan, horizontal, hinc, vinc,
                                       srcw + growx, srch + growy, stride, boxSize - 1);
    x, y := srcx - growx / 2, srcy - growy / 2;
  }

  /** The growth is the smallest even number that covers all the passes. */
  lemma GrowIsEven(inc: int, iterations: int)
    ensures Grow(inc, iterations) % 2 == 0
    ensures inc * iterations <= Grow(inc, iterations) <= inc * iterations + 1
  {
  }

  lemma LineOnSource(img: seq<jint>, start: int, step: int, len: nat, src: seq<jint>, sstart: int, sstep: int,
                     srclen: nat,
                     n: int, x: int, c: Chan, off: int, term: int -> int)
    requires BoxSize(n) && len == srclen + n - 1 && 0 <= x < len && off == start + x * step && 0 <= off < |img|
    requires Line(img, start, step, len) == BlurLine(Line(src, sstart, sstep, srclen), n)
    requires Elements(src, sstart, sstep, srclen, c, term, x + 1 - n, x + 1)
    ensures var b := Byte(img[off], c);
            b * 0x80_0000 <= ISum(term, x + 1 - n, x + 1) * (0x7fff_ffff / (n * 255)) < (b + 1) * 0x80_0000
  {
    var line := Line(src, sstart, sstep, srclen);
    LineAt(img, start, step, len, x, off);
    WindowOnSource(src, sstart, sstep, srclen, c, n, x + 1, term);
    BlurPixelBytes(line, c, n, x);
    ScaledBounds(ISum(term, x + 1 - n, x + 1), n, BlurByte(line, c, n, x), 0x7fff_ffff / (n * 255));
  }

  /**
   * After a single pass with window n, on the elements of the two arrays: position x of line l lies
   * at l * scan + x for rows and at l + x * scan for columns, and holds the scaled sum of n elements.
   */
  lemma OnePassOnSource(img: seq<jint>, scan: int, src: seq<jint>, srcscan: int, horizontal: bool, lines: nat, len: nat,
                        srclen: nat, n: int, l: int, x: int, c: Chan, off: int, term: int -> int)
    requires BoxSize(n) && len == srclen + n - 1 && 0 <= l < lines && 0 <= x < len
    requires PassesDone(img, scan, src, srcscan, horizontal, lines, len, srclen, [n])
    requires off == (if horizontal then l * scan + x else l + x * scan) && 0 <= off < |img|
    requires Elements(src, if horizontal then l * srcscan else l, if horizontal then 1 else srcscan, srclen, c, term,
                      x + 1 - n, x + 1)
    ensures var b := Byte(img[off], c);
            b * 0x80_0000 <= ISum(term, x + 1 - n, x + 1) * (0x7fff_ffff / (n * 255)) < (b + 1) * 0x80_0000
  {
    BlurAllStep(ImageLine(src, horizontal, l, srclen, srcscan), [], n);
    assert [] + [n] == [n];
    assert LinePassed(img, scan, src, srcscan, horizontal, l, len, srclen, [n]);
    if horizontal {
      LineOnSource(img, l * scan, 1, len, src, l * srcscan, 1, srclen, n, x, c, off, term);
    } else {
      LineOnSource(img, l, scan, len, src, l, srcscan, srclen, n, x, c, off, term);
    }
  }
}

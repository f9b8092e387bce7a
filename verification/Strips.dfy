/**
 * How a filter sweeps a flat pixel array: `lines` parallel lines of `len` positions, the
 * offset advancing by `linc` from line to line and by `iinc` along a line.  Rows of an image
 * and columns of an image are both of this shape.
 */
module Strips {

  datatype Layout = Layout(lines: nat, len: nat, linc: int, iinc: int) {

    function Off(l: int, i: int): int {
      l * linc + i * iinc
    }

    predicate Has(l: int, i: int) {
      0 <= l < lines && 0 <= i < len
    }

    /** Every offset of the sweep lies in an array of the given size. */
    ghost predicate Fits(size: int) {
      forall l, i :: Has(l, i) ==> 0 <= Off(l, i) < size
    }

    /** No two positions of the sweep share an offset. */
    ghost predicate Injective() {
      forall l, i, m, j :: Has(l, i) && Has(m, j) && Off(l, i) == Off(m, j) ==> l == m && i == j
    }
  }

  function Store<T>(d: seq<T>, k: int, v: T): (r: seq<T>)
    ensures |r| == |d|
  {
    if 0 <= k < |d| then d[k := v] else d
  }

  /** The array d after the sweep has stored px at every position before (l, i). */
  ghost function FillTo<T>(d: seq<T>, s: Layout, l: nat, i: nat, px: (int, int) -> T): (r: seq<T>)
    ensures |r| == |d|
    decreases l, i
  {
    if i > 0 then Store(FillTo(d, s, l, i - 1, px), s.Off(l, i - 1), px(l, i - 1))
    else if l > 0 then FillTo(d, s, l - 1, s.len, px)
    else d
  }

  /** The array d after the whole sweep. */
  ghost function Fill<T>(d: seq<T>, s: Layout, px: (int, int) -> T): seq<T> {
    FillTo(d, s, s.lines, 0, px)
  }

  /** Storing the pixel of the position reached advances the sweep by one position. */
  method Put<T>(dst: array<T>, off: int, v: T, ghost d0: seq<T>, ghost s: Layout, ghost l: nat, ghost i: nat,
                ghost px: (int, int) -> T)
    requires 0 <= off < dst.Length && off == s.Off(l, i) && v == px(l, i)
    requires dst[..] == FillTo(d0, s, l, i, px)
    modifies dst
    ensures dst[..] == FillTo(d0, s, l, i + 1, px)
  {
    ghost var d := dst[..];
    dst[off] := v;
    assert dst[..] == d[off := v];
  }

  lemma {:induction false} FillToAt<T>(d: seq<T>, s: Layout, px: (int, int) -> T, l: nat, i: nat, m: int, j: int)
    requires s.Fits(|d|) && s.Injective() && s.Has(m, j)
    requires l <= s.lines && i <= s.len && (i > 0 ==> l < s.lines) && (m < l || (m == l && j < i))
    ensures 0 <= s.Off(m, j) < |d| && FillTo(d, s, l, i, px)[s.Off(m, j)] == px(m, j)
    decreases l, i
  {
    if i == 0 {
      FillToAt(d, s, px, l - 1, s.len, m, j);
    } else if m != l || j != i - 1 {
      FillToAt(d, s, px, l, i - 1, m, j);
      assert s.Has(l, i - 1);
    }
  }

  lemma {:induction false} FillToElsewhere<T>(d: seq<T>, s: Layout, px: (int, int) -> T, l: nat, i: nat, k: int)
    requires 0 <= k < |d| && l <= s.lines && i <= s.len && (i > 0 ==> l < s.lines)
    requires forall m, j :: s.Has(m, j) ==> s.Off(m, j) != k
    ensures FillTo(d, s, l, i, px)[k] == d[k]
    decreases l, i
  {
    if i > 0 {
      FillToElsewhere(d, s, px, l, i - 1, k);
      assert s.Has(l, i - 1);
    } else if l > 0 {
      FillToElsewhere(d, s, px, l - 1, s.len, k);
    }
  }

  /** After an injective sweep every position holds its own pixel. */
  lemma FillAt<T>(d: seq<T>, s: Layout, px: (int, int) -> T, m: int, j: int)
    requires s.Fits(|d|) && s.Injective() && s.Has(m, j)
    ensures 0 <= s.Off(m, j) < |d| && Fill(d, s, px)[s.Off(m, j)] == px(m, j)
  {
    FillToAt(d, s, px, s.lines, 0, m, j);
  }

  /** A sweep leaves every offset it does not visit as it was. */
  lemma FillElsewhere<T>(d: seq<T>, s: Layout, px: (int, int) -> T, k: int)
    requires 0 <= k < |d| && forall m, j :: s.Has(m, j) ==> s.Off(m, j) != k
    ensures Fill(d, s, px)[k] == d[k]
  {
    FillToElsewhere(d, s, px, s.lines, 0, k);
  }

  /** An array of `size` elements holds an image of w by h with the given scan length. */
  predicate Holds(size: int, w: int, h: int, scan: int) {
    w > 0 && h > 0 ==> (h - 1) * scan + w <= size
  }

  function Rows(w: nat, h: nat, scan: int): Layout {
    Layout(h, w, scan, 1)
  }

  function Columns(w: nat, h: nat, scan: int): Layout {
    Layout(w, h, 1, scan)
  }

  lemma NextLine(l: int, inc: int)
    ensures (l + 1) * inc == l * inc + inc
  {
  }

  lemma OffsetInside(x: int, y: int, w: int, h: int, scan: int, size: int)
    requires 0 <= x < w && 0 <= y < h && 0 <= scan && Holds(size, w, h, scan)
    ensures 0 <= y * scan + x < size
  {
    assert y * scan <= (h - 1) * scan;
    assert 0 <= y * scan;
  }

  lemma RowInside(y: int, w: int, h: int, scan: int, size: int)
    requires 0 <= y < h && 0 <= scan && Holds(size, w, h, scan)
    ensures w > 0 ==> 0 <= y * scan && y * scan + w <= size
  {
    if w > 0 {
      OffsetInside(0, y, w, h, scan, size);
      OffsetInside(w - 1, y, w, h, scan, size);
    }
  }

  lemma OffsetUnique(x: int, y: int, x': int, y': int, scan: int)
    requires 0 <= x < scan && 0 <= x' < scan
    requires y * scan + x == y' * scan + x'
    ensures x == x' && y == y'
  {
    var d := y' - y;
    assert d * scan == x - x' by {
      assert (y + d) * scan == y * scan + d * scan;
    }
    assert d > 0 ==> d * scan >= scan;
    assert d < 0 ==> d * scan <= -scan;
  }

  /** Sweeping an image by rows or by columns stays inside it and never revisits an offset. */
  lemma ImageLayout(w: nat, h: nat, scan: int, size: int)
    requires w <= scan && Holds(size, w, h, scan)
    ensures Rows(w, h, scan).Fits(size) && Rows(w, h, scan).Injective()
    ensures Columns(w, h, scan).Fits(size) && Columns(w, h, scan).Injective()
  {
    var rows, cols := Rows(w, h, scan), Columns(w, h, scan);
    forall l, i | rows.Has(l, i)
      ensures 0 <= rows.Off(l, i) < size
    {
      OffsetInside(i, l, w, h, scan, size);
    }
    forall l, i | cols.Has(l, i)
      ensures 0 <= cols.Off(l, i) < size
    {
      OffsetInside(l, i, w, h, scan, size);
    }
    forall l, i, m, j | rows.Has(l, i) && rows.Has(m, j) && rows.Off(l, i) == rows.Off(m, j)
      ensures l == m && i == j
    {
      OffsetUnique(i, l, j, m, scan);
    }
    forall l, i, m, j | cols.Has(l, i) && cols.Has(m, j) && cols.Off(l, i) == cols.Off(m, j)
      ensures l == m && i == j
    {
      OffsetUnique(l, i, m, j, scan);
    }
  }
}

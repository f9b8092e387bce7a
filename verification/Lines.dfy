/** One line of pixels (a row or a column), zero-extended on both sides, and its windows. */
module Lines {
  import opened Pixels
  import opened Sums

  /** The pixels at start, start + step, ... of a flat pixel array. */
  function Line(s: seq<jint>, start: int, step: int, len: nat): (r: seq<jint>)
    ensures |r| == len
    ensures forall i :: 0 <= i < len && 0 <= start + i * step < |s| ==> r[i] == s[start + i * step]
  {
    seq(len, (i: int) => var k := start + i * step; if 0 <= k < |s| then s[k] else 0)
  }

  /** A line extended by zero pixels on both sides. */
  function At(line: seq<jint>, i: int): jint {
    if 0 <= i < |line| then line[i] else 0
  }

  lemma LineAt(s: seq<jint>, start: int, step: int, len: nat, i: nat, off: int)
    requires off == start + i * step && (i < len ==> 0 <= off < |s|)
    ensures At(Line(s, start, step, len), i) == if i < len then s[off] else 0
  {
  }

  /** m equal pixels. */
  function FlatLine(m: nat, p: jint): (line: seq<jint>)
    ensures |line| == m && forall i :: 0 <= i < m ==> line[i] == p
  {
    seq(m, _ => p)
  }

  /** The values of one channel along a line, zero outside it. */
  function Val(line: seq<jint>, c: Chan): int -> int {
    i => Byte(At(line, i), c)
  }

  /** The sum of one channel over the n positions before position e. */
  ghost function Window(line: seq<jint>, c: Chan, n: int, e: int): int {
    ISum(Val(line, c), e - n, e)
  }

  /** Moving the window one step drops its oldest value and takes in the newest. */
  lemma WindowSlides(line: seq<jint>, c: Chan, n: int, x: int)
    requires n >= 1
    ensures Window(line, c, n, x + 1) == Window(line, c, n, x) - Val(line, c)(x - n) + Val(line, c)(x)
  {
    var v := Val(line, c);
    ISumSplit(v, x - n, x - n + 1, x + 1);
    ISumSplit(v, x - n, x, x + 1);
    assert ISum(v, x - n, x - n + 1) == ISum(v, x - n, x - n) + v(x - n);
  }

  lemma {:induction false} RangeBounds(line: seq<jint>, c: Chan, lo: int, hi: int)
    requires lo <= hi
    ensures 0 <= ISum(Val(line, c), lo, hi) <= 255 * (hi - lo)
    decreases hi - lo
  {
    if lo < hi {
      RangeBounds(line, c, lo, hi - 1);
    }
  }

  /** A line darkened pixel by pixel: each pixel's c is at most its counterpart's c'. */
  predicate Dominated(line: seq<jint>, c: Chan, line': seq<jint>, c': Chan) {
    |line| == |line'| && forall i :: 0 <= i < |line| ==> Byte(line[i], c) <= Byte(line'[i], c')
  }

  lemma LineDominated(s: seq<jint>, s': seq<jint>, c: Chan, start: int, step: int, len: nat)
    requires Dominated(s, c, s', c)
    ensures Dominated(Line(s, start, step, len), c, Line(s', start, step, len), c)
  {
  }

  lemma WindowMonotone(line: seq<jint>, c: Chan, line': seq<jint>, c': Chan, n: int, e: int)
    requires Dominated(line, c, line', c')
    ensures Window(line, c, n, e) <= Window(line', c', n, e)
  {
    ISumMonotone(Val(line, c), Val(line', c'), e - n, e);
  }

  lemma LinePremultiplied(s: seq<jint>, start: int, step: int, len: nat)
    requires forall k :: 0 <= k < |s| ==> Premultiplied(s[k])
    ensures forall i :: 0 <= i < len ==> Premultiplied(Line(s, start, step, len)[i])
  {
    assert Premultiplied(0);
  }

  /** A range that misses the line sums to zero. */
  lemma OutsideIsZero(line: seq<jint>, c: Chan, lo: int, hi: int)
    requires lo <= hi && (hi <= 0 || |line| <= lo)
    ensures ISum(Val(line, c), lo, hi) == 0
  {
    ISumConstant(Val(line, c), 0, lo, hi);
  }

  /** The sum of the first m windows, those before positions 1, ..., m. */
  ghost function WindowsTotal(line: seq<jint>, c: Chan, n: int, m: int): int {
    ISum(x => Window(line, c, n, x + 1), 0, m)
  }

  lemma {:induction false} WindowsTotalGrow(line: seq<jint>, c: Chan, n: int, m: int)
    requires n >= 1 && m >= 0
    ensures WindowsTotal(line, c, n, m)
         == WindowsTotal(line, c, n - 1, m) + ISum(Val(line, c), 1 - n, m + 1 - n)
    decreases m
  {
    if m > 0 {
      WindowsTotalGrow(line, c, n, m - 1);
      var v := Val(line, c);
      ISumSplit(v, m - n, m - n + 1, m);
      assert ISum(v, m - n, m - n + 1) == ISum(v, m - n, m - n) + v(m - n);
      assert ISum(v, 1 - n, m + 1 - n) == ISum(v, 1 - n, m - n) + v(m - n);
    }
  }

  lemma WindowsTotalStep(line: seq<jint>, c: Chan, n: int)
    requires n >= 1
    ensures WindowsTotal(line, c, n, |line| + n - 1)
         == WindowsTotal(line, c, n - 1, |line| + n - 1) + ISum(Val(line, c), 0, |line|)
  {
    WindowsTotalGrow(line, c, n, |line| + n - 1);
    ISumSplit(Val(line, c), 1 - n, 0, |line|);
    OutsideIsZero(line, c, 1 - n, 0);
  }

  lemma NextMultiple(n: int, s: int)
    ensures (n + 1) * s == n * s + s
  {
  }

  /** Every pixel of a line is counted by exactly n of its |line| + n - 1 windows. */
  lemma {:induction false} WindowsConserve(line: seq<jint>, c: Chan, n: int)
    requires n >= 1
    ensures WindowsTotal(line, c, n, |line| + n - 1) == n * ISum(Val(line, c), 0, |line|)
    decreases n
  {
    WindowsTotalStep(line, c, n);
    var m := |line| + n - 1;
    if n == 1 {
      ISumConstant(x => Window(line, c, 0, x + 1), 0, 0, m);
    } else {
      WindowsConserve(line, c, n - 1);
      NextMultiple(n - 1, ISum(Val(line, c), 0, |line|));
      OutsideIsZero(line, c, |line|, m);
      assert Window(line, c, n - 1, m) == 0;
    }
  }

  /** The terms are channel c of the elements at start, start + step, ... of a flat array, zero outside the line. */
  ghost predicate Elements(s: seq<jint>, start: int, step: int, len: int, c: Chan, term: int -> int, lo: int, hi: int) {
    forall i :: lo <= i < hi ==>
      term(i) == if 0 <= i < len && 0 <= start + i * step < |s| then Byte(s[start + i * step], c) else 0
  }

  /** A window of a line is the sum of those elements of the array. */
  lemma WindowOnSource(s: seq<jint>, start: int, step: int, len: nat, c: Chan, n: int, e: int, term: int -> int)
    requires Elements(s, start, step, len, c, term, e - n, e)
    ensures Window(Line(s, start, step, len), c, n, e) == ISum(term, e - n, e)
  {
    var line := Line(s, start, step, len);
    forall i | e - n <= i < e
      ensures Val(line, c)(i) == term(i)
    {
      ValOnSource(s, start, step, len, c, i);
    }
    ISumEqual(Val(line, c), term, e - n, e);
  }

  lemma ValOnSource(s: seq<jint>, start: int, step: int, len: nat, c: Chan, i: int)
    ensures Val(Line(s, start, step, len), c)(i)
         == if 0 <= i < len && 0 <= start + i * step < |s| then Byte(s[start + i * step], c) else 0
  {
    BlackByte(c);
  }

  lemma BlackByte(c: Chan)
    ensures Byte(0, c) == 0
  {
  }
}

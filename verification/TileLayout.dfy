/** The tile layout of CustomTilePane.java. */
module TileLayout {
  import opened Pixels
  import opened Sums

  datatype HPos = LEFT | HCENTER | RIGHT
  datatype VPos = BASELINE | TOP | VCENTER | BOTTOM

  /** The tile of one child. */
  datatype Tile = Tile(x: real, y: real, width: real, height: real)

  /** How many nodes-per-cell groups are needed: the quotient rounded up. */
  function ComputeOther(numNodes: nat, numCells: int): int {
    var m := if numCells < 1 then 1 else numCells;
    -((-(numNodes as real / m as real)).Floor)
  }

  /** How many tiles fit, but at least one. */
  function ComputeFit(inside: real, tile: real, gap: real): int
    requires tile + gap > 0.0
  {
    var n := Trunc((inside + gap) / (tile + gap));
    if n < 1 then 1 else n
  }

  function ComputeContent(k: int, tile: real, gap: real): real {
    if k == 0 then 0.0 else k as real * tile + (k - 1) as real * gap
  }

  function ComputeXOffset(width: real, contentWidth: real, hpos: HPos): real {
    match hpos
    case LEFT => 0.0
    case HCENTER => (width - contentWidth) / 2.0
    case RIGHT => width - contentWidth
  }

  function ComputeYOffset(height: real, contentHeight: real, vpos: VPos): real {
    match vpos
    case BASELINE => 0.0
    case TOP => 0.0
    case VCENTER => (height - contentHeight) / 2.0
    case BOTTOM => height - contentHeight
  }

  // ----- What a layout should be, one axis at a time -----

  /** k steps of the given length. */
  function Times(k: int, step: real): real {
    k as real * step
  }

  datatype Align = Start | Middle | End

  /** One axis of the pane: where the inside starts, how long it is, the tile, the gap and the alignment. */
  datatype Axis = Axis(start: real, inside: real, tile: real, gap: real, align: Align) {

    predicate Proper() {
      tile + gap > 0.0 && tile <= inside
    }

    function Pitch(): real {
      tile + gap
    }

    /** How far a line of k tiles is shifted from the start. */
    function Shift(k: int): real {
      var free := inside - ComputeContent(k, tile, gap);
      match align
      case Start => 0.0
      case Middle => free / 2.0
      case End => free
    }

    /** Where position p of a line of k tiles begins. */
    function Place(k: int, p: int): real {
      start + Shift(k) + Times(p, Pitch())
    }

    function Fit(): int
      requires Proper()
    {
      ComputeFit(inside, tile, gap)
    }
  }

  /** How many of n children stand in line l when each line but the last holds `per`. */
  function InLine(n: int, per: int, l: int): int {
    if (l + 1) * per <= n then per else n - l * per
  }

  lemma TimesLe(k: int, j: int, step: real)
    requires k <= j && 0.0 <= step
    ensures Times(k, step) <= Times(j, step)
  {
    var d := j - k;
    assert j as real * step == k as real * step + d as real * step;
    assert d as real * step >= 0.0;
  }

  lemma TimesNext(k: int, step: real)
    ensures Times(0, step) == 0.0 && Times(k + 1, step) == Times(k, step) + step
  {
    assert (k + 1) as real * step == k as real * step + step;
  }

  lemma TimesInt(k: int, m: int)
    ensures Times(k, m as real) == (k * m) as real
  {
  }

  /** A quotient lies between its floor and the next integer, also after multiplying out. */
  lemma FloorTimes(x: real, step: real, q: real, k: int)
    requires 0.0 < step && q == x / step && k == q.Floor
    ensures Times(k, step) <= x < Times(k + 1, step)
  {
    assert q * step == x;
    ScaleUp(k as real, q, step);
    ScaleLt(q, (k + 1) as real, step);
  }

  lemma ScaleLt(a: real, b: real, m: real)
    requires a < b && 0.0 < m
    ensures a * m < b * m
  {
  }

  lemma NegateQuotient(x: real, y: real)
    requires y > 0.0
    ensures -(x / y) == (-x) / y
  {
  }

  /** Enough lines for all children, and no line too many. */
  lemma CeilDivision(n: nat, m: int)
    requires m >= 1
    ensures var k := ComputeOther(n, m); (k - 1) * m < n <= k * m || (n == 0 && k == 0)
    ensures ComputeOther(n, m) >= 0
  {
    var k := ComputeOther(n, m);
    var x, step := -(n as real), m as real;
    NegateQuotient(n as real, step);
    FloorTimes(x, step, x / step, -k);
    TimesInt(-k, m);
    TimesInt(-k + 1, m);
    CeilInt(n, m, k);
  }

  lemma CeilInt(n: int, m: int, k: int)
    requires 0 <= n && m >= 1 && -k * m <= -n < (-k + 1) * m
    ensures (k - 1) * m < n <= k * m && k >= 0
  {
    assert -k * m == -(k * m) && (-k + 1) * m == -((k - 1) * m);
    assert k < 0 ==> k * m < 0;
  }

  lemma ContentTimes(k: int, tile: real, gap: real, pitch: real)
    requires k >= 1 && pitch == tile + gap
    ensures ComputeContent(k, tile, gap) == Times(k, pitch) - gap
  {
    assert k as real * pitch == k as real * tile + k as real * gap;
    assert (k - 1) as real * gap == k as real * gap - gap;
  }

  lemma FitTimes(a: Axis, fit: int, pitch: real)
    requires a.Proper() && fit == a.Fit() && pitch == a.Pitch()
    ensures fit >= 1 && Times(fit, pitch) <= a.inside + a.gap < Times(fit + 1, pitch)
  {
    var room := a.inside + a.gap;
    var q := room / pitch;
    FloorTimes(room, pitch, q, q.Floor);
    TimesNext(0, pitch);
    if q.Floor < 1 {
      TimesLe(q.Floor + 1, 1, pitch);
    }
  }

  /** As many tiles as possible: that many fit inside, one more would not. */
  lemma FitIsLargest(a: Axis)
    requires a.Proper()
    ensures a.Fit() >= 1
    ensures ComputeContent(a.Fit(), a.tile, a.gap) <= a.inside < ComputeContent(a.Fit() + 1, a.tile, a.gap)
  {
    FitTimes(a, a.Fit(), a.Pitch());
    ContentTimes(a.Fit(), a.tile, a.gap, a.Pitch());
    ContentTimes(a.Fit() + 1, a.tile, a.gap, a.Pitch());
  }

  /** A full or partial line lies inside the axis, and so does each of its tiles. */
  lemma PlaceInside(a: Axis, k: int, p: int)
    requires a.Proper() && 0 <= p < k <= a.Fit()
    ensures a.start <= a.Place(k, p) && a.Place(k, p) + a.tile <= a.start + a.inside
  {
    var pitch, fit := a.Pitch(), a.Fit();
    FitTimes(a, fit, pitch);
    ContentTimes(k, a.tile, a.gap, pitch);
    TimesLe(k, fit, pitch);
    TimesLe(p + 1, k, pitch);
    TimesLe(0, p, pitch);
    TimesNext(p, pitch);
    PlaceLinear(a.Shift(k), Times(p, pitch), Times(k, pitch), Times(fit, pitch), ComputeContent(k, a.tile, a.gap),
                a.tile, a.gap, a.inside);
  }

  lemma PlaceLinear(shift: real, pp: real, kp: real, fp: real, content: real, tile: real, gap: real, inside: real)
    requires 0.0 <= pp && pp + (tile + gap) <= kp <= fp && fp <= inside + gap && content == kp - gap
    requires shift == 0.0 || shift == (inside - content) / 2.0 || shift == inside - content
    ensures 0.0 <= shift + pp && shift + pp + tile <= inside
  {
  }

  // ----- How far apart two positions are -----

  /** Two stretches of length d that begin at x and y do not overlap. */
  predicate Far(x: real, y: real, d: real) {
    x + d <= y || y + d <= x
  }

  lemma TimesDiff(p: int, q: int, step: real)
    ensures Times(p, step) - Times(q, step) == Times(p - q, step)
  {
  }

  /** Whole steps apart: far enough for every two positions if and only if one step is. */
  lemma StepsFar(m: int, step: real, d: real)
    requires m != 0 && (d <= step || step <= -d) && 0.0 < d
    ensures Times(m, step) <= -d || d <= Times(m, step)
  {
    TimesNext(0, step);
    if step > 0.0 {
      if m > 0 { TimesLe(1, m, step); } else { TimesLe(m, -1, step); TimesNext(-1, step); }
    } else {
      TimesFlip(m, step);
      TimesNext(0, -step);
      if m > 0 { TimesLe(1, m, -step); } else { TimesLe(m, -1, -step); TimesNext(-1, -step); }
    }
  }

  lemma TimesFlip(m: int, step: real)
    ensures Times(m, -step) == -Times(m, step)
  {
  }

  /** Steps and a half apart: never nearer than half a step. */
  lemma HalfStepsFar(m: int, step: real, d: real)
    requires 0.0 < d && 2.0 * d <= step
    ensures Times(m, step) - step / 2.0 <= -d || d <= Times(m, step) - step / 2.0
  {
    TimesNext(0, step);
    if m >= 1 { TimesLe(1, m, step); } else { TimesLe(m, 0, step); }
  }

  /** How a line of k tiles is shifted against one of j tiles. */
  lemma ShiftDiff(a: Axis, k: int, j: int, pitch: real)
    requires k >= 1 && j >= 1 && pitch == a.Pitch()
    ensures a.Shift(k) - a.Shift(j)
         == match a.align case Start => 0.0 case Middle => Times(j - k, pitch) / 2.0 case End => Times(j - k, pitch)
  {
    ContentTimes(k, a.tile, a.gap, pitch);
    ContentTimes(j, a.tile, a.gap, pitch);
    TimesDiff(j, k, pitch);
  }

  lemma PlaceDiff(a: Axis, k: int, p: int, j: int, q: int, pitch: real)
    requires pitch == a.Pitch()
    ensures a.Place(k, p) - a.Place(j, q) == a.Shift(k) - a.Shift(j) + Times(p - q, pitch)
  {
    TimesDiff(p, q, pitch);
  }

  // ----- The layout of n children -----

  /** The axis tiles are packed along first, and the axis the lines are stacked along. */
  datatype Plan = Plan(n: nat, main: Axis, cross: Axis) {

    predicate Proper() {
      main.Proper()
    }

    /** Tiles per full line. */
    function Per(): int
      requires Proper()
    {
      main.Fit()
    }

    function Lines(): int
      requires Proper()
    {
      ComputeOther(n, Per())
    }

    /** The tiles of the last line, as the code counts them. */
    function Remainder(): int
      requires Proper()
    {
      Per() - (Per() * Lines() - n)
    }

    /** Child i begins here along the main axis: in line i / per, aligned by what that line holds. */
    function Along(i: int): real
      requires Proper() && Per() >= 1
    {
      main.Place(InLine(n, Per(), i / Per()), i % Per())
    }

    function Across(i: int): real
      requires Proper() && Per() >= 1
    {
      cross.Place(Lines(), i / Per())
    }

    /** Tiles of one line cannot meet. */
    predicate LineClear()
      requires Proper()
    {
      main.gap >= 0.0 || Per() == 1 || n <= 1
    }

    /** Tiles of different lines cannot meet; a negative pitch stacks the lines backwards. */
    predicate LinesClear()
      requires Proper()
    {
      Lines() <= 1 || cross.gap >= 0.0 || cross.gap + 2.0 * cross.tile <= 0.0 || Staggered()
    }

    /** Two lines only, the second centred so that its tiles stand in the gaps of the first. */
    predicate Staggered()
      requires Proper()
    {
      Lines() == 2 && main.align.Middle? && (Per() - Remainder()) % 2 == 1 && main.gap >= main.tile
    }
  }

  /** A horizontal pane packs its rows, a vertical one its columns. */
  function PlanOf(n: nat, h: Axis, v: Axis, horizontal: bool): Plan {
    if horizontal then Plan(n, h, v) else Plan(n, v, h)
  }

  function AlignH(hpos: HPos): Align {
    match hpos
    case LEFT => Start
    case HCENTER => Middle
    case RIGHT => End
  }

  function AlignV(vpos: VPos): Align {
    match vpos
    case BASELINE => Start
    case TOP => Start
    case VCENTER => Middle
    case BOTTOM => End
  }

  /** Which line a child is in, and how many that line holds. */
  lemma LineOf(p: Plan, i: int, line: int, pos: int)
    requires p.Proper() && p.Per() >= 1 && 0 <= i < p.n && 0 <= pos < p.Per() && i == line * p.Per() + pos
    ensures i / p.Per() == line && i % p.Per() == pos && 0 <= line < p.Lines()
    ensures line < p.Lines() - 1 ==> InLine(p.n, p.Per(), line) == p.Per()
    ensures line == p.Lines() - 1 ==> InLine(p.n, p.Per(), line) == p.Remainder()
    ensures pos < InLine(p.n, p.Per(), line) <= p.Per()
  {
    var per, lines := p.Per(), p.Lines();
    Digits(i, per, line, pos);
    CeilDivision(p.n, per);
    LineBounds(p.n, per, lines, i, line, pos);
  }

  lemma LineBounds(n: int, per: int, lines: int, i: int, line: int, pos: int)
    requires per >= 1 && 0 <= i < n && 0 <= pos < per && i == line * per + pos && (lines - 1) * per < n <= lines * per
    ensures 0 <= line < lines
    ensures line < lines - 1 ==> (line + 1) * per <= n
    ensures line == lines - 1 ==>
              n - line * per == per - (per * lines - n) && ((line + 1) * per <= n ==> n == lines * per)
    ensures pos < InLine(n, per, line) <= per
  {
    assert (line + 1) * per == line * per + per && (lines - 1) * per == lines * per - per;
    assert line >= lines ==> line * per >= lines * per;
    assert line <= -1 ==> line * per <= -per;
    assert line + 1 <= lines - 1 ==> (line + 1) * per <= (lines - 1) * per;
  }

  /** The last line holds exactly the remainder the code computes: the whole line when it is full. */
  lemma LastLineHolds(p: Plan, i: int)
    requires p.Proper() && 0 <= i < p.n
    ensures p.Per() >= 1
    ensures 1 <= p.Remainder() <= p.Per() && (i / p.Per() == p.Lines() - 1 <==> p.n - p.Remainder() <= i)
  {
    FitIsLargest(p.main);
    var per, lines := p.Per(), p.Lines();
    var line, pos := i / per, i % per;
    assert i == line * per + pos;
    CeilDivision(p.n, per);
    LastLineArith(p.n, per, lines, i, line, pos);
  }

  lemma LastLineArith(n: int, per: int, lines: int, i: int, line: int, pos: int)
    requires per >= 1 && 0 <= i < n && 0 <= pos < per && i == line * per + pos && (lines - 1) * per < n <= lines * per
    ensures var r := per - (per * lines - n); 1 <= r <= per && (line == lines - 1 <==> n - r <= i)
  {
    LineBounds(n, per, lines, i, line, pos);
    var m := (lines - 1) * per;
    assert m == lines * per - per && lines * per == per * lines;
    assert line == lines - 1 ==> line * per == m;
    assert line + 1 <= lines - 1 ==> (line + 1) * per <= m;
    assert (line + 1) * per == line * per + per;
  }

  lemma RemainderPositive(p: Plan)
    requires p.Proper() && p.Per() >= 1
    ensures p.Remainder() > 0
  {
    var per, lines := p.Per(), p.Lines();
    CeilDivision(p.n, per);
    assert (lines - 1) * per == per * lines - per;
  }

  /** Every tile lies inside the main axis of the pane. */
  lemma TilesInside(p: Plan, i: int)
    requires p.Proper() && 0 <= i < p.n
    ensures p.Per() >= 1
    ensures p.main.start <= p.Along(i) && p.Along(i) + p.main.tile <= p.main.start + p.main.inside
  {
    FitIsLargest(p.main);
    LineOf(p, i, i / p.Per(), i % p.Per());
    PlaceInside(p.main, InLine(p.n, p.Per(), i / p.Per()), i % p.Per());
  }

  // ----- The code -----

  /** The children of the plan, with x along the main axis or, transposed, y. */
  function SpecTile(p: Plan, horizontal: bool, i: int): Tile
    requires p.Proper() && p.Per() >= 1
  {
    if horizontal then Tile(p.Along(i), p.Across(i), p.main.tile, p.cross.tile)
    else Tile(p.Across(i), p.Along(i), p.cross.tile, p.main.tile)
  }

  /** Two rectangles that do not overlap. */
  predicate Apart(a: Tile, b: Tile) {
    a.x + a.width <= b.x || b.x + b.width <= a.x || a.y + a.height <= b.y || b.y + b.height <= a.y
  }

  lemma ApartByAxis(p: Plan, horizontal: bool, i: int, j: int)
    requires p.Proper() && p.Per() >= 1
    ensures Apart(SpecTile(p, horizontal, i), SpecTile(p, horizontal, j))
       <==> Far(p.Along(i), p.Along(j), p.main.tile) || Far(p.Across(i), p.Across(j), p.cross.tile)
  {
  }

  /** Along and across differ by this much for the children at positions k and m of lines l and o. */
  lemma Distance(p: Plan, i: int, l: int, k: int, j: int, o: int, m: int)
    requires p.Proper() && p.Per() >= 1 && 0 <= i < p.n && 0 <= j < p.n
    requires 0 <= k < p.Per() && i == l * p.Per() + k && 0 <= m < p.Per() && j == o * p.Per() + m
    ensures 1 <= InLine(p.n, p.Per(), l) <= p.Per() && 1 <= InLine(p.n, p.Per(), o) <= p.Per()
    ensures p.Along(i) - p.Along(j)
         == p.main.Shift(InLine(p.n, p.Per(), l)) - p.main.Shift(InLine(p.n, p.Per(), o)) + Times(k - m, p.main.Pitch())
    ensures p.Across(i) - p.Across(j) == Times(l - o, p.cross.Pitch())
  {
    LineOf(p, i, l, k);
    LineOf(p, j, o, m);
    PlaceDiff(p.main, InLine(p.n, p.Per(), l), k, InLine(p.n, p.Per(), o), m, p.main.Pitch());
    PlaceDiff(p.cross, p.Lines(), l, p.Lines(), o, p.cross.Pitch());
  }

  /** Tiles of one line. */
  lemma SameLineFar(p: Plan, i: int, j: int, l: int, k: int, m: int)
    requires p.Proper() && p.Per() >= 1 && p.main.tile > 0.0 && p.LineClear()
    requires 0 <= i < j < p.n && 0 <= k < p.Per() && 0 <= m < p.Per() && i == l * p.Per() + k && j == l * p.Per() + m
    ensures Far(p.Along(i), p.Along(j), p.main.tile)
  {
    Distance(p, i, l, k, j, l, m);
    StepsFar(k - m, p.main.Pitch(), p.main.tile);
  }

  /** Tiles of different lines, the lines themselves apart. */
  lemma OtherLineFar(p: Plan, i: int, j: int, l: int, k: int, o: int, m: int)
    requires p.Proper() && p.Per() >= 1 && p.cross.tile > 0.0
    requires p.cross.gap >= 0.0 || p.cross.gap + 2.0 * p.cross.tile <= 0.0
    requires 0 <= i < p.n && 0 <= j < p.n && l != o
    requires 0 <= k < p.Per() && 0 <= m < p.Per() && i == l * p.Per() + k && j == o * p.Per() + m
    ensures Far(p.Across(i), p.Across(j), p.cross.tile)
  {
    Distance(p, i, l, k, j, o, m);
    StepsFar(l - o, p.cross.Pitch(), p.cross.tile);
  }

  /** Tiles of the two staggered lines. */
  lemma StaggeredFar(p: Plan, i: int, j: int, k: int, m: int)
    requires p.Proper() && p.Per() >= 1 && p.main.tile > 0.0 && p.Staggered()
    requires 0 <= i < j < p.n && 0 <= k < p.Per() && 0 <= m < p.Per() && i == k && j == p.Per() + m
    ensures Far(p.Along(i), p.Along(j), p.main.tile)
  {
    var per, r, pitch := p.Per(), p.Remainder(), p.main.Pitch();
    LineOf(p, i, 0, k);
    LineOf(p, j, 1, m);
    Distance(p, i, 0, k, j, 1, m);
    ShiftDiff(p.main, per, r, pitch);
    var h := (per - r) / 2;
    HalfSteps(r - per, h, pitch);
    TimesDiff(k - m, h, pitch);
    HalfStepsFar(k - m - h, pitch, p.main.tile);
  }

  lemma HalfSteps(d: int, h: int, step: real)
    requires -d == 2 * h + 1
    ensures Times(d, step) / 2.0 == -Times(h, step) - step / 2.0
  {
    assert d as real == -(2.0 * h as real) - 1.0;
  }

  lemma WholeSteps(d: int, h: int, step: real)
    requires -d == 2 * h
    ensures Times(d, step) / 2.0 == -Times(h, step)
  {
    assert d as real == -(2.0 * h as real);
  }

  /** Enough: under both conditions no two tiles overlap. */
  lemma ClearMeansApart(p: Plan, horizontal: bool, i: int, l: int, k: int, j: int, o: int, m: int)
    requires p.Proper() && p.Per() >= 1 && p.main.tile > 0.0 && p.cross.tile > 0.0 && p.LineClear() && p.LinesClear()
    requires 0 <= i < j < p.n && 0 <= k < p.Per() && i == l * p.Per() + k && 0 <= m < p.Per() && j == o * p.Per() + m
    ensures Apart(SpecTile(p, horizontal, i), SpecTile(p, horizontal, j))
  {
    LineOf(p, i, l, k);
    LineOf(p, j, o, m);
    InOrder(i, j, l, k, o, m, p.Per());
    if l == o {
      SameLineFar(p, i, j, l, k, m);
    } else if p.cross.gap >= 0.0 || p.cross.gap + 2.0 * p.cross.tile <= 0.0 {
      OtherLineFar(p, i, j, l, k, o, m);
    } else {
      StaggeredFar(p, i, j, k, m);
    }
    ApartByAxis(p, horizontal, i, j);
  }

  lemma InOrder(i: int, j: int, l: int, k: int, o: int, m: int, per: int)
    requires i < j && 0 <= k < per && 0 <= m < per && i == l * per + k && j == o * per + m
    ensures l <= o
  {
    assert l >= o + 1 ==> l * per >= (o + 1) * per;
    assert (o + 1) * per == o * per + per;
  }

  /** Needed, within a line: its first two tiles overlap. */
  lemma CrowdedLine(p: Plan, horizontal: bool)
    requires p.Proper() && p.Per() >= 1 && p.cross.tile > 0.0 && !p.LineClear()
    ensures !Apart(SpecTile(p, horizontal, 0), SpecTile(p, horizontal, 1))
  {
    Distance(p, 0, 0, 0, 1, 0, 1);
    TimesNext(-1, p.main.Pitch());
    TimesNext(0, p.cross.Pitch());
    ApartByAxis(p, horizontal, 0, 1);
  }

  /** Needed, between lines: some tile of the first line overlaps some tile of the second. */
  lemma CrowdedLines(p: Plan, horizontal: bool) returns (i: int, j: int)
    requires p.Proper() && p.Per() >= 1 && p.main.tile > 0.0 && p.cross.tile > 0.0 && !p.LinesClear()
    ensures 0 <= i < j < p.n && !Apart(SpecTile(p, horizontal, i), SpecTile(p, horizontal, j))
  {
    var per, pitch := p.Per(), p.main.Pitch();
    TwoLines(p);
    var second := InLine(p.n, per, 1);
    var h := (per - second) / 2;
    i := match p.main.align case Start => 0 case Middle => h case End => per - 1;
    j := if p.main.align.End? then per + second - 1 else per;
    LineOf(p, i, 0, i);
    LineOf(p, j, 1, j - per);
    Distance(p, i, 0, i, j, 1, j - per);
    ShiftDiff(p.main, per, second, pitch);
    TimesNext(0, pitch);
    TimesNext(-1, p.cross.Pitch());
    if p.main.align.Middle? {
      if (per - second) % 2 == 0 { WholeSteps(second - per, h, pitch); } else { HalfSteps(second - per, h, pitch); }
    } else if p.main.align.End? {
      TimesDiff(per - second, per - second, pitch);
      TimesFlipCount(second - per, pitch);
    }
    ApartByAxis(p, horizontal, i, j);
  }

  lemma TimesFlipCount(m: int, step: real)
    ensures Times(-m, step) == -Times(m, step)
  {
  }

  /** With two lines or more the first is full, and the second holds a full line or the remainder. */
  lemma TwoLines(p: Plan)
    requires p.Proper() && p.Per() >= 1 && p.Lines() >= 2
    ensures p.Per() < p.n && InLine(p.n, p.Per(), 0) == p.Per() && 1 <= InLine(p.n, p.Per(), 1) <= p.Per()
    ensures p.Per() + InLine(p.n, p.Per(), 1) <= p.n
    ensures InLine(p.n, p.Per(), 1) == if p.Lines() == 2 then p.Remainder() else p.Per()
  {
    var per, lines := p.Per(), p.Lines();
    CeilDivision(p.n, per);
    MulLe(1, lines - 1, per);
    if lines >= 3 {
      MulLe(2, lines - 1, per);
    }
    TwoLinesLinear(p.n, per, lines, (lines - 1) * per, lines * per);
  }

  lemma TwoLinesLinear(n: int, per: int, lines: int, before: int, all: int)
    requires per >= 1 && lines >= 2 && before < n <= all && per <= before && (lines >= 3 ==> 2 * per <= before)
    requires lines == 2 ==> all == 2 * per
    ensures per < n && InLine(n, per, 0) == per && 1 <= InLine(n, per, 1) <= per && per + InLine(n, per, 1) <= n
    ensures InLine(n, per, 1) == if lines == 2 then per - (all - n) else per
  {
  }

  /** No two tiles of a layout overlap if and only if its lines are clear within and between themselves. */
  lemma TilesApartIff(p: Plan, horizontal: bool)
    requires p.Proper() && p.main.tile > 0.0 && p.cross.tile > 0.0
    ensures p.Per() >= 1
    ensures (forall i, j :: 0 <= i < j < p.n ==> Apart(SpecTile(p, horizontal, i), SpecTile(p, horizontal, j)))
       <==> p.LineClear() && p.LinesClear()
  {
    FitIsLargest(p.main);
    if !p.LineClear() {
      CrowdedLine(p, horizontal);
    } else if !p.LinesClear() {
      var i, j := CrowdedLines(p, horizontal);
    } else {
      forall i, j | 0 <= i < j < p.n
        ensures Apart(SpecTile(p, horizontal, i), SpecTile(p, horizontal, j))
      {
        ClearMeansApart(p, horizontal, i, i / p.Per(), i % p.Per(), j, j / p.Per(), j % p.Per());
      }
    }
  }

  /** Two tiles of 10 by 10 side by side in a width of 20 with a gap of -5: the second begins at 5. */
  const CROWDED: Plan := Plan(2, Axis(0.0, 20.0, 10.0, -5.0, Start), Axis(0.0, 20.0, 10.0, 0.0, Start))

  lemma OverlapExample()
    ensures CROWDED.Proper() && CROWDED.Per() == 3 && CROWDED.Along(0) == 0.0 && CROWDED.Along(1) == 5.0
    ensures !Apart(SpecTile(CROWDED, true, 0), SpecTile(CROWDED, true, 1))
  {
    assert CROWDED.Per() == 3 && InLine(2, 3, 0) == 2;
    CrowdedLine(CROWDED, true);
  }

  /** Three tiles in two lines that overlap by half; the third, centred, stands in the gap of the others. */
  const STAGGERED: Plan := Plan(3, Axis(0.0, 40.0, 10.0, 20.0, Middle), Axis(0.0, 40.0, 10.0, -5.0, Start))

  lemma StaggeredExample()
    ensures STAGGERED.Proper() && STAGGERED.Per() >= 1 && STAGGERED.Staggered() && STAGGERED.cross.gap < 0.0
    ensures forall i, j :: 0 <= i < j < 3 ==> Apart(SpecTile(STAGGERED, true, i), SpecTile(STAGGERED, true, j))
  {
    assert STAGGERED.Per() == 2;
    CeilDivision(3, 2);
    TilesApartIff(STAGGERED, true);
  }

  // ----- Where the edges of a layout lie -----

  /** Where a line of k tiles begins and ends on an axis, by its alignment. */
  lemma LineEdges(a: Axis, k: int)
    requires k >= 1
    ensures a.align.Start? ==> a.Place(k, 0) == a.start
    ensures a.align.End? ==> a.Place(k, k - 1) + a.tile == a.start + a.inside
    ensures a.align.Middle? ==> a.Place(k, 0) - a.start == a.start + a.inside - (a.Place(k, k - 1) + a.tile)
  {
    var pitch := a.Pitch();
    ContentTimes(k, a.tile, a.gap, pitch);
    TimesNext(k - 1, pitch);
  }

  /** Positions of a line follow each other at the distance of a tile and a gap. */
  lemma PlaceStep(a: Axis, k: int, p: int)
    ensures a.Place(k, p + 1) == a.Place(k, p) + a.tile + a.gap
  {
    TimesNext(p, a.Pitch());
  }

  /** The space before the first and after the last tile, as an alignment of x demands. */
  predicate AlignedX(hpos: HPos, before: real, after: real) {
    match hpos
    case LEFT => before == 0.0
    case HCENTER => before == after
    case RIGHT => after == 0.0
  }

  predicate AlignedY(vpos: VPos, before: real, after: real) {
    match vpos
    case BASELINE => before == 0.0
    case TOP => before == 0.0
    case VCENTER => before == after
    case BOTTOM => after == 0.0
  }

  /** The first and the last child of a line, and its length. */
  predicate Ends(n: nat, per: int, l: int, first: int, last: int) {
    && per >= 1 && 0 <= first <= last < n && first == l * per
    && last == (if first + per <= n then first + per - 1 else n - 1)
  }

  lemma EndsOfLine(p: Plan, l: int, first: int, last: int)
    requires p.Proper() && p.Per() >= 1 && Ends(p.n, p.Per(), l, first, last)
    ensures InLine(p.n, p.Per(), l) == last - first + 1
    ensures p.Along(first) == p.main.Place(last - first + 1, 0)
    ensures p.Along(last) == p.main.Place(last - first + 1, last - first)
  {
    assert (l + 1) * p.Per() == l * p.Per() + p.Per();
    LineOf(p, first, l, 0);
    LineOf(p, last, l, last - first);
  }

  lemma EndsOfPlan(p: Plan)
    requires p.Proper() && p.Per() >= 1 && p.n >= 1
    ensures p.Lines() >= 1 && p.Across(0) == p.cross.Place(p.Lines(), 0)
    ensures p.Across(p.n - 1) == p.cross.Place(p.Lines(), p.Lines() - 1)
  {
    LineOf(p, 0, 0, 0);
    var i := p.n - 1;
    LineOf(p, i, i / p.Per(), i % p.Per());
    LastLineHolds(p, i);
  }

  /**
   * A horizontal pane: each row, by the number of tiles it holds, is flush with the left edge,
   * centred or flush with the right edge; all rows together with the top, centred or the bottom.
   */
  lemma HorizontalEdges(p: Plan, hpos: HPos, vpos: VPos, l: int, first: int, last: int)
    requires p.Proper() && p.Per() >= 1 && p.main.align == AlignH(hpos) && p.cross.align == AlignV(vpos)
    requires Ends(p.n, p.Per(), l, first, last)
    ensures AlignedX(hpos, SpecTile(p, true, first).x - p.main.start,
                     p.main.start + p.main.inside - (SpecTile(p, true, last).x + p.main.tile))
    ensures AlignedY(vpos, SpecTile(p, true, 0).y - p.cross.start,
                     p.cross.start + p.cross.inside - (SpecTile(p, true, p.n - 1).y + p.cross.tile))
  {
    EndsOfLine(p, l, first, last);
    EndsOfPlan(p);
    LineEdges(p.main, last - first + 1);
    LineEdges(p.cross, p.Lines());
  }

  /** A vertical pane: the same with columns for rows. */
  lemma VerticalEdges(p: Plan, hpos: HPos, vpos: VPos, l: int, first: int, last: int)
    requires p.Proper() && p.Per() >= 1 && p.main.align == AlignV(vpos) && p.cross.align == AlignH(hpos)
    requires Ends(p.n, p.Per(), l, first, last)
    ensures AlignedY(vpos, SpecTile(p, false, first).y - p.main.start,
                     p.main.start + p.main.inside - (SpecTile(p, false, last).y + p.main.tile))
    ensures AlignedX(hpos, SpecTile(p, false, 0).x - p.cross.start,
                     p.cross.start + p.cross.inside - (SpecTile(p, false, p.n - 1).x + p.cross.tile))
  {
    EndsOfLine(p, l, first, last);
    EndsOfPlan(p);
    LineEdges(p.main, last - first + 1);
    LineEdges(p.cross, p.Lines());
  }

  /** Neighbours in a line stand a tile and a gap apart along it and level across it; so do lines, across. */
  lemma TileSteps(p: Plan, i: int)
    requires p.Proper() && p.Per() >= 1 && 0 <= i
    ensures (i + 1) % p.Per() != 0 ==>
              p.Along(i + 1) == p.Along(i) + p.main.tile + p.main.gap && p.Across(i + 1) == p.Across(i)
    ensures p.Across(i + p.Per()) == p.Across(i) + p.cross.tile + p.cross.gap
  {
    var per := p.Per();
    var l, k := i / per, i % per;
    assert i == l * per + k;
    NextChild(i, per, l, k);
    if k + 1 < per {
      Digits(i + 1, per, l, k + 1);
      PlaceStep(p.main, InLine(p.n, per, l), k);
    } else {
      Digits(i + 1, per, l + 1, 0);
    }
    assert i + per == (l + 1) * per + k;
    Digits(i + per, per, l + 1, k);
    PlaceStep(p.cross, p.Lines(), l);
  }

  /** What the loop computes for the child in line `line`, position `pos`. */
  lemma TileIs(p: Plan, i: int, line: int, pos: int, start: real, lastStart: real, crossStart: real)
    requires p.Proper() && p.Per() >= 1 && 0 <= i < p.n && 0 <= pos < p.Per() && i == line * p.Per() + pos
    requires start == p.main.start + p.main.Shift(p.Per())
    requires lastStart == p.main.start + p.main.Shift(p.Remainder())
    requires crossStart == p.cross.start + p.cross.Shift(p.Lines())
    ensures p.Along(i) == (if line == p.Lines() - 1 then lastStart else start) + Times(pos, p.main.Pitch())
    ensures p.Across(i) == crossStart + Times(line, p.cross.Pitch())
  {
    LineOf(p, i, line, pos);
  }

  /** The next child: one position further, or at the start of the next line. */
  lemma NextChild(i: int, per: int, line: int, pos: int)
    requires per >= 1 && 0 <= pos < per && i == line * per + pos
    ensures pos + 1 == per ==> i + 1 == (line + 1) * per
    ensures pos + 1 < per ==> i + 1 == line * per + (pos + 1)
  {
    assert (line + 1) * per == line * per + per;
  }

  lemma XShift(a: Axis, hpos: HPos, k: int)
    requires a.align == AlignH(hpos)
    ensures ComputeXOffset(a.inside, ComputeContent(k, a.tile, a.gap), hpos) == a.Shift(k)
    ensures hpos == LEFT ==> a.Shift(k) == 0.0
  {
  }

  lemma YShift(a: Axis, vpos: VPos, k: int)
    requires a.align == AlignV(vpos)
    ensures ComputeYOffset(a.inside, ComputeContent(k, a.tile, a.gap), vpos) == a.Shift(k)
    ensures vpos == TOP ==> a.Shift(k) == 0.0
  {
  }

  class CustomTilePane {
    var actualRows: int
    var actualColumns: int

    constructor ()
      ensures actualRows == 0 && actualColumns == 0
    {
      actualRows, actualColumns := 0, 0;
    }

    /** The placement loop: a horizontal pane fills its rows one after the other, a vertical one its columns. */
    method Place(n: nat, horizontal: bool, h: Axis, v: Axis, rowX: real, lastRowX: real, columnY: real,
                 lastColumnY: real, ghost p: Plan)
      returns (tiles: seq<Tile>)
      requires p == PlanOf(n, h, v, horizontal) && p.Proper() && p.Per() >= 1
      requires actualColumns == (if horizontal then p.Per() else p.Lines())
      requires actualRows == (if horizontal then p.Lines() else p.Per())
      requires rowX == h.start + h.Shift(actualColumns) && columnY == v.start + v.Shift(actualRows)
      requires lastRowX == (if horizontal then h.start + h.Shift(p.Remainder()) else rowX)
      requires lastColumnY == (if horizontal then columnY else v.start + v.Shift(p.Remainder()))
      ensures |tiles| == n && forall i :: 0 <= i < n ==> tiles[i] == SpecTile(p, horizontal, i)
    {
      tiles := [];
      var r, c := 0, 0;
      for i := 0 to n
        invariant |tiles| == i && forall j :: 0 <= j < i ==> tiles[j] == SpecTile(p, horizontal, j)
        invariant horizontal ==> 0 <= c < actualColumns && i == r * actualColumns + c
        invariant !horizontal ==> 0 <= r < actualRows && i == c * actualRows + r
      {
        var xoffset := if r == actualRows - 1 then lastRowX else rowX;
        var yoffset := if c == actualColumns - 1 then lastColumnY else columnY;
        var tileX := xoffset + Times(c, h.Pitch());
        var tileY := yoffset + Times(r, v.Pitch());
        tiles := tiles + [Tile(tileX, tileY, h.tile, v.tile)];
        if horizontal {
          TileIs(p, i, r, c, rowX, lastRowX, columnY);
          NextChild(i, actualColumns, r, c);
          c := c + 1;
          if c == actualColumns {
            c := 0;
            r := r + 1;
          }
        } else {
          TileIs(p, i, c, r, columnY, lastColumnY, rowX);
          NextChild(i, actualRows, c, r);
          r := r + 1;
          if r == actualRows {
            r := 0;
            c := c + 1;
          }
        }
      }
    }

    /** Counts tiles along the main axis, lines across it, and the tiles of a last line aligned on its own. */
    method Count(n: nat, horizontal: bool, hpos: HPos, vpos: VPos, h: Axis, v: Axis, ghost p: Plan)
      returns (lastRowRemainder: int, lastColumnRemainder: int)
      requires p == PlanOf(n, h, v, horizontal) && p.Proper()
      modifies this
      ensures actualColumns == (if horizontal then p.Per() else p.Lines())
      ensures actualRows == (if horizontal then p.Lines() else p.Per())
      ensures lastRowRemainder == if horizontal && hpos != LEFT then p.Remainder() else 0
      ensures lastColumnRemainder == if !horizontal && vpos != TOP then p.Remainder() else 0
    {
      lastRowRemainder, lastColumnRemainder := 0, 0;
      if horizontal {
        actualColumns := ComputeFit(h.inside, h.tile, h.gap);
        actualRows := ComputeOther(n, actualColumns);
        lastRowRemainder := if hpos != LEFT then actualColumns - (actualColumns * actualRows - n) else 0;
      } else {
        actualRows := ComputeFit(v.inside, v.tile, v.gap);
        actualColumns := ComputeOther(n, actualRows);
        lastColumnRemainder := if vpos != TOP then actualRows - (actualColumns * actualRows - n) else 0;
      }
    }

    /** The counts, the offsets they lead to, and the placement. */
    method Layout(n: nat, horizontal: bool, hpos: HPos, vpos: VPos, h: Axis, v: Axis, ghost p: Plan)
      returns (tiles: seq<Tile>)
      requires p == PlanOf(n, h, v, horizontal) && p.Proper() && h.align == AlignH(hpos) && v.align == AlignV(vpos)
      modifies this
      ensures p.Per() >= 1
      ensures actualColumns == (if horizontal then p.Per() else p.Lines())
      ensures actualRows == (if horizontal then p.Lines() else p.Per())
      ensures |tiles| == n && forall i :: 0 <= i < n ==> tiles[i] == SpecTile(p, horizontal, i)
    {
      FitIsLargest(p.main);
      RemainderPositive(p);
      var lastRowRemainder, lastColumnRemainder := Count(n, horizontal, hpos, vpos, h, v, p);
      XShift(h, hpos, actualColumns);
      XShift(h, hpos, p.Remainder());
      YShift(v, vpos, actualRows);
      YShift(v, vpos, p.Remainder());
      var rowX := h.start + ComputeXOffset(h.inside, ComputeContent(actualColumns, h.tile, h.gap), hpos);
      var columnY := v.start + ComputeYOffset(v.inside, ComputeContent(actualRows, v.tile, v.gap), vpos);
      var lastRowX := if lastRowRemainder > 0
        then h.start + ComputeXOffset(h.inside, ComputeContent(lastRowRemainder, h.tile, h.gap), hpos) else rowX;
      var lastColumnY := if lastColumnRemainder > 0
        then v.start + ComputeYOffset(v.inside, ComputeContent(lastColumnRemainder, v.tile, v.gap), vpos) else columnY;
      tiles := Place(n, horizontal, h, v, rowX, lastRowX, columnY, lastColumnY, p);
    }

    /** Lays out n managed children; insets, gaps and tile size are already snapped to pixels. */
    method LayoutChildren(n: nat, horizontal: bool, hpos: HPos, vpos: VPos, left: real, top: real,
                          insideWidth: real, insideHeight: real, tw: real, th: real, hgap: real, vgap: real)
      returns (tiles: seq<Tile>, ghost p: Plan)
      requires horizontal ==> (if tw > insideWidth then insideWidth else tw) + hgap > 0.0
      requires !horizontal ==> (if th > insideHeight then insideHeight else th) + vgap > 0.0
      modifies this
      ensures var h := Axis(left, insideWidth, if tw > insideWidth then insideWidth else tw, hgap, AlignH(hpos));
              var v := Axis(top, insideHeight, if th > insideHeight then insideHeight else th, vgap, AlignV(vpos));
              p == PlanOf(n, h, v, horizontal)
      ensures p.Proper() && p.Per() >= 1
      ensures horizontal ==> actualColumns == p.Per() && actualRows == p.Lines()
      ensures !horizontal ==> actualRows == p.Per() && actualColumns == p.Lines()
      ensures |tiles| == n && forall i :: 0 <= i < n ==> tiles[i] == SpecTile(p, horizontal, i)
      ensures forall i :: 0 <= i < n ==> tiles[i].width == if tw > insideWidth then insideWidth else tw
      ensures forall i :: 0 <= i < n ==> tiles[i].height == if th > insideHeight then insideHeight else th
    {
      var tileWidth := if tw > insideWidth then insideWidth else tw;
      var tileHeight := if th > insideHeight then insideHeight else th;
      var h := Axis(left, insideWidth, tileWidth, hgap, AlignH(hpos));
      var v := Axis(top, insideHeight, tileHeight, vgap, AlignV(vpos));
      p := PlanOf(n, h, v, horizontal);
      tiles := Layout(n, horizontal, hpos, vpos, h, v, p);
    }
  }
}

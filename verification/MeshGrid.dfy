/** The grid mesh of PNTMeshViewer.java: building it, and recomputing it in place. */
module MeshGrid {
  import Pixels

  datatype Vec = Vec(x: real, y: real, z: real)

  /** A subdivided grid, its scale, the height function and the normal of a triangle. */
  datatype Shape = Shape(sx: nat, sy: nat, scale: real, height: (real, real) -> real, normal: (Vec, Vec, Vec) -> Vec) {

    predicate Proper() {
      sx >= 1 && sy >= 1
    }

    /** Vertices per row. */
    function N(): nat {
      sx + 1
    }

    function Vertices(): nat {
      (sy + 1) * N()
    }

    function Cells(): nat {
      sx * sy
    }
  }

  /** Fraction i / sub of the way from -10 to 10. */
  function Coord(i: int, sub: int): real
    requires sub >= 1
  {
    var d := i as real / sub as real;
    (1.0 - d) * -10.0 + d * 10.0
  }

  function PointAt(s: Shape, x: int, y: int): Vec
    requires s.Proper()
  {
    var fx, fy := Coord(x, s.sx), Coord(y, s.sy);
    Vec(fx * s.scale, fy * s.scale, s.height(fx, fy) * s.scale)
  }

  /** Vertex u stands in column u % n of row u / n. */
  function Point(s: Shape, u: int): Vec
    requires s.Proper()
  {
    PointAt(s, u % s.N(), u / s.N())
  }

  function Get(a: seq<real>, u: int): Vec
    requires 0 <= u && 3 * u + 2 < |a|
  {
    Vec(a[3 * u], a[3 * u + 1], a[3 * u + 2])
  }

  /** A flat array of `total` vectors whose first m are p(0), ..., p(m - 1). */
  ghost predicate VecsTo(a: seq<real>, p: int -> Vec, total: int, m: int) {
    && |a| == 3 * total && 0 <= m <= total
    && forall u :: 0 <= u < m ==> Get(a, u) == p(u)
  }

  ghost function PointOf(s: Shape): int -> Vec
    requires s.Proper()
  {
    u => Point(s, u)
  }

  ghost predicate PointsOk(points: seq<real>, s: Shape)
    requires s.Proper()
  {
    VecsTo(points, PointOf(s), s.Vertices(), s.Vertices())
  }

  /** The texture coordinates of vertex u: its column and row as fractions of the grid. */
  function TexAt(s: Shape, x: int, y: int): (real, real)
    requires s.Proper()
  {
    (x as real / s.sx as real, y as real / s.sy as real)
  }

  ghost function TexOf(s: Shape): int -> (real, real)
    requires s.Proper()
  {
    u => TexAt(s, u % s.N(), u / s.N())
  }

  /** A flat array of `total` pairs whose first m are p(0), ..., p(m - 1). */
  ghost predicate PairsTo(a: seq<real>, p: int -> (real, real), total: int, m: int) {
    && |a| == 2 * total && 0 <= m <= total
    && forall u {:trigger p(u)} :: 0 <= u < m ==> (a[2 * u], a[2 * u + 1]) == p(u)
  }

  ghost predicate TexOk(texCoords: seq<real>, s: Shape)
    requires s.Proper()
  {
    PairsTo(texCoords, TexOf(s), s.Vertices(), s.Vertices())
  }

  /** The top-left vertex of cell c: one vertex more than cells in each row above it. */
  function P00(s: Shape, c: int): int
    requires s.Proper()
  {
    c + c / s.sx
  }

  /** Corner i of face k of cell c. */
  function Corner(s: Shape, c: int, k: int, i: int): int
    requires s.Proper()
  {
    var p00 := P00(s, c);
    var p10 := p00 + s.N();
    if k == 0 then (if i == 0 then p00 else if i == 1 then p10 else p10 + 1)
    else (if i == 0 then p10 + 1 else if i == 1 then p00 + 1 else p00)
  }

  /** The nine ints of face f: point, normal and texture index of each corner. */
  function FaceInts(s: Shape, f: int): seq<int>
    requires s.Proper()
  {
    var c, k := f / 2, f % 2;
    var p0, p1, p2 := Corner(s, c, k, 0), Corner(s, c, k, 1), Corner(s, c, k, 2);
    [p0, f, p0, p1, f, p1, p2, f, p2]
  }

  /** A flat array of `total` faces whose first m are q(0), ..., q(m - 1). */
  ghost predicate FacesTo(faces: seq<int>, q: int -> seq<int>, total: int, m: int) {
    && |faces| == 9 * total && 0 <= m <= total
    && forall f :: 0 <= f < m ==> faces[9 * f..9 * f + 9] == q(f)
  }

  ghost function FaceOf(s: Shape): int -> seq<int>
    requires s.Proper()
  {
    f => FaceInts(s, f)
  }

  ghost predicate FacesOk(faces: seq<int>, s: Shape)
    requires s.Proper()
  {
    FacesTo(faces, FaceOf(s), 2 * s.Cells(), 2 * s.Cells())
  }

  function FaceNormal(s: Shape, c: int, k: int): Vec
    requires s.Proper()
  {
    s.normal(Point(s, Corner(s, c, k, 0)), Point(s, Corner(s, c, k, 1)), Point(s, Corner(s, c, k, 2)))
  }

  ghost function NormalOf(s: Shape): int -> Vec
    requires s.Proper()
  {
    f => FaceNormal(s, f / 2, f % 2)
  }

  /** Normal f belongs to face f. */
  ghost predicate NormalsOk(normals: seq<real>, s: Shape)
    requires s.Proper()
  {
    VecsTo(normals, NormalOf(s), 2 * s.Cells(), 2 * s.Cells())
  }

  /** The three arrays of a mesh of this shape. */
  ghost predicate MeshOk(points: seq<real>, normals: seq<real>, faces: seq<int>, s: Shape)
    requires s.Proper()
  {
    PointsOk(points, s) && NormalsOk(normals, s) && FacesOk(faces, s)
  }

  /** Row y, column x of the vertices. */
  lemma VertexId(s: Shape, x: int, y: int, u: int)
    requires s.Proper() && 0 <= x <= s.sx && 0 <= y <= s.sy && u == y * s.N() + x
    ensures u % s.N() == x && u / s.N() == y && 0 <= u < s.Vertices()
  {
    Pixels.Digits(u, s.N(), y, x);
    assert y * s.N() <= s.sy * s.N();
    assert 0 <= y * s.N();
  }

  /** Row y, column x of the cells. */
  lemma CellId(s: Shape, x: int, y: int, c: int)
    requires s.Proper() && 0 <= x < s.sx && 0 <= y < s.sy && c == y * s.sx + x
    ensures c % s.sx == x && c / s.sx == y && 0 <= c < s.Cells() && P00(s, c) == y * s.N() + x
  {
    Pixels.Digits(c, s.sx, y, x);
    assert y * s.sx <= (s.sy - 1) * s.sx;
    assert 0 <= y * s.sx;
    assert y * s.N() == y * s.sx + y;
  }

  /** Offsets of corner i of face k inside its cell. */
  function DX(k: int, i: int): int {
    if k == 0 then (if i == 2 then 1 else 0) else (if i == 2 then 0 else 1)
  }

  function DY(k: int, i: int): int {
    if k == 0 then (if i == 0 then 0 else 1) else (if i == 0 then 1 else 0)
  }

  lemma CellOf(s: Shape, c: int) returns (x: int, y: int)
    requires s.Proper() && 0 <= c < s.Cells()
    ensures 0 <= x < s.sx && 0 <= y < s.sy && c == y * s.sx + x
  {
    x, y := c % s.sx, c / s.sx;
    assert c == y * s.sx + x;
    assert y >= s.sy ==> y * s.sx >= s.sy * s.sx;
  }

  /** Every corner is a vertex of the grid, at the expected column and row. */
  lemma CornerAt(s: Shape, c: int, k: int, i: int, x: int, y: int)
    requires s.Proper() && 0 <= k < 2 && 0 <= i < 3
    requires 0 <= x < s.sx && 0 <= y < s.sy && c == y * s.sx + x
    ensures var u := Corner(s, c, k, i);
            0 <= u < s.Vertices() && u % s.N() == x + DX(k, i) && u / s.N() == y + DY(k, i)
  {
    CellId(s, x, y, c);
    if DY(k, i) == 0 {
      VertexId(s, x + DX(k, i), y, Corner(s, c, k, i));
    } else {
      NextRow(y, s.N());
      VertexId(s, x + DX(k, i), y + 1, Corner(s, c, k, i));
    }
  }

  lemma NextRow(y: int, n: int)
    ensures (y + 1) * n == y * n + n
  {
  }

  // ----- The methods of the viewer -----

  method PutVec(a: array<real>, u: nat, v: Vec)
    requires 3 * u + 2 < a.Length
    modifies a
    ensures Get(a[..], u) == v
    ensures forall w :: 0 <= w != u && 3 * w + 2 < a.Length ==> Get(a[..], w) == old(Get(a[..], w))
  {
    a[3 * u] := v.x;
    a[3 * u + 1] := v.y;
    a[3 * u + 2] := v.z;
  }

  /** Storing vector u extends a filled prefix, or leaves a filled array filled. */
  method PutNext(a: array<real>, u: nat, v: Vec, ghost p: int -> Vec, ghost total: int)
    requires u < total && v == p(u) && VecsTo(a[..], p, total, u)
    modifies a
    ensures VecsTo(a[..], p, total, u + 1)
  {
    PutVec(a, u, v);
  }

  lemma PointIs(s: Shape, x: int, y: int, u: int)
    requires s.Proper() && 0 <= x <= s.sx && 0 <= y <= s.sy && u == y * s.N() + x
    ensures 0 <= u < s.Vertices() && PointOf(s)(u) == PointAt(s, x, y)
  {
    VertexId(s, x, y, u);
  }

  method PointsRow(points: array<real>, s: Shape, y: nat, base: nat, ghost p: int -> Vec, ghost total: nat)
    requires s.Proper() && y <= s.sy && base == y * s.N() && p == PointOf(s) && total == s.Vertices()
    requires VecsTo(points[..], p, total, base)
    modifies points
    ensures VecsTo(points[..], p, total, base + s.sx + 1)
  {
    for x := 0 to s.sx + 1
      invariant VecsTo(points[..], p, total, base + x)
    {
      PointIs(s, x, y, base + x);
      PutNext(points, base + x, PointAt(s, x, y), p, total);
    }
  }

  /** The loops over the points, the same in `buildTriangleMesh` and in `computeMesh`. */
  method FillPoints(points: array<real>, s: Shape)
    requires s.Proper() && points.Length == 3 * s.Vertices()
    modifies points
    ensures PointsOk(points[..], s)
  {
    ghost var p, total := PointOf(s), s.Vertices();
    var base := 0;
    for y := 0 to s.sy + 1
      invariant base == y * s.N() && VecsTo(points[..], p, total, base)
    {
      PointsRow(points, s, y, base, p, total);
      assert (y + 1) * s.N() == base + s.N();
      base := base + s.N();
    }
  }

  method PutPair(a: array<real>, u: nat, v: (real, real), ghost p: int -> (real, real), ghost total: int)
    requires u < total && v == p(u) && PairsTo(a[..], p, total, u)
    modifies a
    ensures PairsTo(a[..], p, total, u + 1)
  {
    a[2 * u] := v.0;
    a[2 * u + 1] := v.1;
  }

  /** The loops over the texture coordinates, which `buildTriangleMesh` fills along with the points. */
  method FillTexCoords(texCoords: array<real>, s: Shape)
    requires s.Proper() && texCoords.Length == 2 * s.Vertices()
    modifies texCoords
    ensures TexOk(texCoords[..], s)
  {
    ghost var p, total := TexOf(s), s.Vertices();
    var base := 0;
    for y := 0 to s.sy + 1
      invariant base == y * s.N() && PairsTo(texCoords[..], p, total, base)
    {
      for x := 0 to s.sx + 1
        invariant PairsTo(texCoords[..], p, total, base + x)
      {
        VertexId(s, x, y, base + x);
        PutPair(texCoords, base + x, TexAt(s, x, y), p, total);
      }
      assert (y + 1) * s.N() == base + s.N();
      base := base + s.N();
    }
  }

  /** Storing the nine ints of face f extends a filled prefix. */
  method PutFace(faces: array<int>, index: nat, f: nat, p0: int, p1: int, p2: int, ghost q: int -> seq<int>,
                 ghost total: int)
    requires f < total && index == 9 * f && q(f) == [p0, f, p0, p1, f, p1, p2, f, p2] && FacesTo(faces[..], q, total, f)
    modifies faces
    ensures FacesTo(faces[..], q, total, f + 1)
  {
    ghost var before := faces[..];
    faces[index + 0], faces[index + 1], faces[index + 2] := p0, f, p0;
    faces[index + 3], faces[index + 4], faces[index + 5] := p1, f, p1;
    faces[index + 6], faces[index + 7], faces[index + 8] := p2, f, p2;
    forall g | 0 <= g <= f
      ensures faces[..][9 * g..9 * g + 9] == q(g)
    {
      if g < f {
        assert faces[..][9 * g..9 * g + 9] == before[9 * g..9 * g + 9];
      }
    }
  }

  /** The normal of the triangle with the given vertices, read back from the points. */
  lemma NormalIs(points: seq<real>, s: Shape, f: nat, p0: int, p1: int, p2: int)
    requires s.Proper() && PointsOk(points, s)
    requires 0 <= p0 < s.Vertices() && 0 <= p1 < s.Vertices() && 0 <= p2 < s.Vertices()
    requires p0 == Corner(s, f / 2, f % 2, 0) && p1 == Corner(s, f / 2, f % 2, 1) && p2 == Corner(s, f / 2, f % 2, 2)
    ensures s.normal(Get(points, p0), Get(points, p1), Get(points, p2)) == NormalOf(s)(f)
  {
    assert Get(points, p0) == PointOf(s)(p0) && Get(points, p1) == PointOf(s)(p1) && Get(points, p2) == PointOf(s)(p2);
  }

  /** One face of `buildTriangleMesh`: its normal and its nine ints. */
  method BuildFace(faces: array<int>, normals: array<real>, points: array<real>, s: Shape, index: nat, f: nat,
                   p0: nat, p1: nat, p2: nat,
                   ghost q: int -> seq<int>, ghost n: int -> Vec, ghost total: int)
    requires s.Proper() && normals != points && q == FaceOf(s) && n == NormalOf(s) && f < total && index == 9 * f
    requires PointsOk(points[..], s)
    requires p0 < s.Vertices() && p1 < s.Vertices() && p2 < s.Vertices()
    requires p0 == Corner(s, f / 2, f % 2, 0) && p1 == Corner(s, f / 2, f % 2, 1) && p2 == Corner(s, f / 2, f % 2, 2)
    requires FacesTo(faces[..], q, total, f) && VecsTo(normals[..], n, total, f)
    modifies faces, normals
    ensures FacesTo(faces[..], q, total, f + 1) && VecsTo(normals[..], n, total, f + 1)
  {
    NormalIs(points[..], s, f, p0, p1, p2);
    var v := s.normal(Get(points[..], p0), Get(points[..], p1), Get(points[..], p2));
    PutNext(normals, f, v, n, total);
    PutFace(faces, index, f, p0, p1, p2, q, total);
  }

  lemma CornersOf(s: Shape, x: int, y: int, c: int)
    requires s.Proper() && 0 <= x < s.sx && 0 <= y < s.sy && c == y * s.sx + x
    ensures var p00 := y * s.N() + x; p00 == P00(s, c) && 0 <= p00 && p00 + s.N() + 1 < s.Vertices()
    ensures 0 <= c < s.Cells()
  {
    CellId(s, x, y, c);
    CornerAt(s, c, 0, 2, x, y);
    CornerAt(s, c, 0, 0, x, y);
  }

  lemma FaceIndex(before: int, x: int, count: int, index: int)
    requires count == 2 * (before + x) && index == (before * 9 + x * 9) * 2
    ensures index == 9 * count
  {
  }

  /** The corners of the two faces of cell c, from its top-left vertex. */
  lemma CornersOfFaces(s: Shape, c: int, f: int, p00: int)
    requires s.Proper() && f == 2 * c && p00 == P00(s, c)
    ensures f / 2 == c && f % 2 == 0 && (f + 1) / 2 == c && (f + 1) % 2 == 1
    ensures Corner(s, c, 0, 0) == p00 && Corner(s, c, 0, 1) == p00 + s.N() && Corner(s, c, 0, 2) == p00 + s.N() + 1
    ensures Corner(s, c, 1, 0) == p00 + s.N() + 1 && Corner(s, c, 1, 1) == p00 + 1 && Corner(s, c, 1, 2) == p00
  {
  }

  /** The two faces of the cell in column x, row y. */
  method BuildCell(faces: array<int>, normals: array<real>, points: array<real>, s: Shape, x: nat, y: nat,
                   normalCount: nat,
                   ghost q: int -> seq<int>, ghost n: int -> Vec, ghost total: int)
    requires s.Proper() && normals != points && q == FaceOf(s) && n == NormalOf(s) && total == 2 * s.Cells()
    requires PointsOk(points[..], s)
    requires x < s.sx && y < s.sy && normalCount == 2 * (y * s.sx + x)
    requires FacesTo(faces[..], q, total, normalCount) && VecsTo(normals[..], n, total, normalCount)
    modifies faces, normals
    ensures FacesTo(faces[..], q, total, normalCount + 2) && VecsTo(normals[..], n, total, normalCount + 2)
  {
    CornersOf(s, x, y, y * s.sx + x);
    var p00 := y * s.N() + x;
    var p01 := p00 + 1;
    var p10 := p00 + s.N();
    var p11 := p10 + 1;
    var index := (y * s.sx * 9 + x * 9) * 2;
    FaceIndex(y * s.sx, x, normalCount, index);
    CornersOfFaces(s, y * s.sx + x, normalCount, p00);
    BuildFace(faces, normals, points, s, index, normalCount, p00, p10, p11, q, n, total);
    BuildFace(faces, normals, points, s, index + 9, normalCount + 1, p11, p01, p00, q, n, total);
  }

  method BuildTriangleMesh(s: Shape)
    returns (points: array<real>, normals: array<real>, texCoords: array<real>, faces: array<int>)
    requires s.Proper()
    ensures fresh(points) && fresh(normals) && fresh(texCoords) && fresh(faces)
    ensures points != normals && points != texCoords && normals != texCoords
    ensures TexOk(texCoords[..], s) && MeshOk(points[..], normals[..], faces[..], s)
  {
    texCoords := new real[2 * s.Vertices()];
    FillTexCoords(texCoords, s);
    points := new real[3 * s.Vertices()];
    normals := new real[3 * (2 * s.Cells())];
    faces := new int[9 * (2 * s.Cells())];
    FillPoints(points, s);
    ghost var q, n, total := FaceOf(s), NormalOf(s), 2 * s.Cells();
    var normalCount := 0;
    for y := 0 to s.sy
      invariant TexOk(texCoords[..], s) && PointsOk(points[..], s) && normalCount == 2 * (y * s.sx)
      invariant FacesTo(faces[..], q, total, normalCount) && VecsTo(normals[..], n, total, normalCount)
    {
      ghost var rowStart := normalCount;
      for x := 0 to s.sx
        invariant TexOk(texCoords[..], s) && PointsOk(points[..], s) && normalCount == rowStart + 2 * x
        invariant FacesTo(faces[..], q, total, normalCount) && VecsTo(normals[..], n, total, normalCount)
      {
        BuildCell(faces, normals, points, s, x, y, normalCount, q, n, total);
        normalCount := normalCount + 2;
      }
      assert (y + 1) * s.sx == y * s.sx + s.sx;
    }
    assert s.sy * s.sx == s.Cells();
  }

  /** What face f of a built mesh holds, and that its points exist. */
  lemma FaceAt(faces: seq<int>, s: Shape, f: nat)
    requires s.Proper() && FacesOk(faces, s) && f < 2 * s.Cells()
    ensures 9 * f + 9 <= |faces|
    ensures faces[9 * f] == Corner(s, f / 2, f % 2, 0) && faces[9 * f + 3] == Corner(s, f / 2, f % 2, 1)
    ensures faces[9 * f + 6] == Corner(s, f / 2, f % 2, 2)
    ensures faces[9 * f + 1] == f && faces[9 * f + 4] == f && faces[9 * f + 7] == f
    ensures 0 <= faces[9 * f] < s.Vertices() && 0 <= faces[9 * f + 3] < s.Vertices()
    ensures 0 <= faces[9 * f + 6] < s.Vertices()
  {
    var nine := faces[9 * f..9 * f + 9];
    assert nine == FaceOf(s)(f) == FaceInts(s, f);
    assert nine[0] == faces[9 * f] && nine[1] == faces[9 * f + 1];
    assert nine[3] == faces[9 * f + 3] && nine[4] == faces[9 * f + 4];
    assert nine[6] == faces[9 * f + 6] && nine[7] == faces[9 * f + 7];
    var x, y := CellOf(s, f / 2);
    CornerAt(s, f / 2, f % 2, 0, x, y);
    CornerAt(s, f / 2, f % 2, 1, x, y);
    CornerAt(s, f / 2, f % 2, 2, x, y);
  }

  /** Shapes with the same subdivisions; height, scale and normal may differ. */
  predicate SameGrid(s: Shape, t: Shape) {
    s.sx == t.sx && s.sy == t.sy
  }

  /** The faces depend on the subdivisions alone. */
  lemma SameFaces(faces: seq<int>, s: Shape, t: Shape)
    requires s.Proper() && t.Proper() && SameGrid(s, t) && FacesOk(faces, s)
    ensures FacesOk(faces, t)
  {
    forall f | 0 <= f < 2 * t.Cells()
      ensures faces[9 * f..9 * f + 9] == FaceOf(t)(f)
    {
      assert faces[9 * f..9 * f + 9] == FaceOf(s)(f) == FaceInts(s, f) == FaceInts(t, f);
    }
  }

  /**
   * Recomputes points and normals in place for the current shape, whatever shape of the same grid
   * the mesh was built for; the three normal indices of a face always agree.
   */
  method ComputeMesh(points: array<real>, normals: array<real>, faces: array<int>, s: Shape, ghost built: Shape)
    requires s.Proper() && built.Proper() && SameGrid(built, s) && points != normals
    requires MeshOk(points[..], normals[..], faces[..], built)
    modifies points, normals
    ensures MeshOk(points[..], normals[..], faces[..], s)
  {
    SameFaces(faces[..], built, s);
    Recompute(points, normals, faces, s);
  }

  method Recompute(points: array<real>, normals: array<real>, faces: array<int>, s: Shape)
    requires s.Proper() && points != normals
    requires points.Length == 3 * s.Vertices() && normals.Length == 3 * (2 * s.Cells()) && FacesOk(faces[..], s)
    modifies points, normals
    ensures PointsOk(points[..], s) && NormalsOk(normals[..], s)
  {
    FillPoints(points, s);
    ghost var n, total := NormalOf(s), 2 * s.Cells();
    var index := 0;
    ghost var f := 0;
    while index < faces.Length
      invariant index == 9 * f && PointsOk(points[..], s)
      invariant VecsTo(normals[..], n, total, f)
    {
      FaceAt(faces[..], s, f);
      var p0, p1, p2 := faces[index], faces[index + 3], faces[index + 6];
      NormalIs(points[..], s, f, p0, p1, p2);
      var v := s.normal(Get(points[..], p0), Get(points[..], p1), Get(points[..], p2));
      assert faces[index + 1] == faces[index + 4] && faces[index + 1] == faces[index + 7];
      PutNext(normals, faces[index + 1], v, n, total);
      index, f := index + 9, f + 1;
    }
  }

  /** There is only one filled array. */
  lemma VecsUnique(a: seq<real>, b: seq<real>, p: int -> Vec, total: nat)
    requires VecsTo(a, p, total, total) && VecsTo(b, p, total, total)
    ensures a == b
  {
    forall i | 0 <= i < |a|
      ensures a[i] == b[i]
    {
      var u := i / 3;
      assert Get(a, u) == Get(b, u);
      assert i == 3 * u || i == 3 * u + 1 || i == 3 * u + 2;
    }
  }

  lemma FacesUnique(a: seq<int>, b: seq<int>, q: int -> seq<int>, total: nat)
    requires FacesTo(a, q, total, total) && FacesTo(b, q, total, total)
    ensures a == b
  {
    forall i | 0 <= i < |a|
      ensures a[i] == b[i]
    {
      var f, k := i / 9, i % 9;
      assert a[9 * f..9 * f + 9] == q(f) == b[9 * f..9 * f + 9];
      assert a[9 * f..9 * f + 9][k] == a[i] && b[9 * f..9 * f + 9][k] == b[i];
    }
  }

  /** There is only one mesh of a shape. */
  lemma MeshUnique(points: seq<real>, normals: seq<real>, faces: seq<int>,
                   points': seq<real>, normals': seq<real>, faces': seq<int>, s: Shape)
    requires s.Proper() && MeshOk(points, normals, faces, s) && MeshOk(points', normals', faces', s)
    ensures points == points' && normals == normals' && faces == faces'
  {
    VecsUnique(points, points', PointOf(s), s.Vertices());
    VecsUnique(normals, normals', NormalOf(s), 2 * s.Cells());
    FacesUnique(faces, faces', FaceOf(s), 2 * s.Cells());
  }

  /** The shape after a sequence of changes. */
  function Current(built: Shape, changes: seq<Shape>): Shape {
    if changes == [] then built else changes[|changes| - 1]
  }

  /**
   * What the viewer does: it builds the mesh once and recomputes it after every change of the
   * function.  Its arrays are then those of every mesh of the shape as it is now.
   */
  method View(built: Shape, changes: seq<Shape>)
    returns (points: array<real>, normals: array<real>, texCoords: array<real>, faces: array<int>)
    requires built.Proper() && forall i :: 0 <= i < |changes| ==> changes[i].Proper() && SameGrid(built, changes[i])
    ensures fresh(points) && fresh(normals) && fresh(texCoords) && fresh(faces)
    ensures Current(built, changes).Proper() && MeshOk(points[..], normals[..], faces[..], Current(built, changes))
    ensures TexOk(texCoords[..], Current(built, changes))
    ensures Current(built, changes) == if changes == [] then built else changes[|changes| - 1]
  {
    points, normals, texCoords, faces := BuildTriangleMesh(built);
    for i := 0 to |changes|
      invariant fresh(points) && fresh(normals) && points != normals && texCoords != points && texCoords != normals
      invariant Current(built, changes[..i]).Proper() && SameGrid(built, Current(built, changes[..i]))
      invariant TexOk(texCoords[..], built) && MeshOk(points[..], normals[..], faces[..], Current(built, changes[..i]))
    {
      ComputeMesh(points, normals, faces, changes[i], Current(built, changes[..i]));
      assert changes[i] == Current(built, changes[..i + 1]);
    }
    assert changes[..|changes|] == changes;
    SameTexCoords(texCoords[..], built, Current(built, changes));
  }

  lemma SameTexCoords(texCoords: seq<real>, s: Shape, t: Shape)
    requires s.Proper() && t.Proper() && SameGrid(s, t) && TexOk(texCoords, s)
    ensures TexOk(texCoords, t)
  {
    forall u | 0 <= u < t.Vertices()
      ensures (texCoords[2 * u], texCoords[2 * u + 1]) == TexOf(t)(u)
    {
      assert (texCoords[2 * u], texCoords[2 * u + 1]) == TexOf(s)(u) == TexAt(s, u % s.N(), u / s.N());
    }
  }

  /** A fresh build gives, element by element, the arrays of any mesh of the shape, so those of `View`. */
  method RecomputedEqualsBuilt(points: array<real>, normals: array<real>, faces: array<int>, s: Shape)
    returns (points': array<real>, normals': array<real>, faces': array<int>)
    requires s.Proper() && MeshOk(points[..], normals[..], faces[..], s)
    ensures fresh(points') && fresh(normals') && fresh(faces')
    ensures points[..] == points'[..] && normals[..] == normals'[..] && faces[..] == faces'[..]
  {
    var texCoords;
    points', normals', texCoords, faces' := BuildTriangleMesh(s);
    MeshUnique(points[..], normals[..], faces[..], points'[..], normals'[..], faces'[..], s);
  }

  // ----- Orientation -----

  /** The point index of corner i (taken modulo 3) of face f. */
  function VertexOf(faces: seq<int>, f: int, i: int): int
    requires 0 <= f && 9 * f + 9 <= |faces|
  {
    faces[9 * f + 3 * (i % 3)]
  }

  /** Side i of face f runs from a to b. */
  predicate Side(faces: seq<int>, f: int, i: int, a: int, b: int) {
    0 <= f && 9 * f + 9 <= |faces| && 0 <= i < 3 && VertexOf(faces, f, i) == a && VertexOf(faces, f, i + 1) == b
  }

  /** The two ends of side i of face k of cell c. */
  lemma SideVertices(faces: seq<int>, s: Shape, f: nat, c: int, k: int, i: int, j: int)
    requires s.Proper() && FacesOk(faces, s) && f < 2 * s.Cells() && c == f / 2 && k == f % 2
    requires 0 <= i < 3 && j == (i + 1) % 3
    ensures 9 * f + 9 <= |faces|
    ensures VertexOf(faces, f, i) == Corner(s, c, k, i) && VertexOf(faces, f, i + 1) == Corner(s, c, k, j)
  {
    FaceAt(faces, s, f);
  }

  lemma CornerIs(s: Shape, c: int, k: int, i: int, x: int, y: int, u: int)
    requires s.Proper() && 0 <= k < 2 && 0 <= i < 3 && 0 <= x < s.sx && 0 <= y < s.sy && c == y * s.sx + x
    requires u == Corner(s, c, k, i)
    ensures u % s.N() == x + DX(k, i) && u / s.N() == y + DY(k, i)
  {
    CornerAt(s, c, k, i, x, y);
  }

  /** The column and row of both ends of a side, from the cell and the face. */
  lemma SideAt(faces: seq<int>, s: Shape, f: nat, i: int, x: int, y: int)
    requires s.Proper() && FacesOk(faces, s) && f < 2 * s.Cells() && 0 <= i < 3
    requires 0 <= x < s.sx && 0 <= y < s.sy && f / 2 == y * s.sx + x
    ensures 9 * f + 9 <= |faces|
    ensures var k, a, b := f % 2, VertexOf(faces, f, i), VertexOf(faces, f, i + 1);
            && a % s.N() == x + DX(k, i) && a / s.N() == y + DY(k, i)
            && b % s.N() == x + DX(k, (i + 1) % 3) && b / s.N() == y + DY(k, (i + 1) % 3)
  {
    SideVertices(faces, s, f, f / 2, f % 2, i, (i + 1) % 3);
    CornerIs(s, f / 2, f % 2, i, x, y, VertexOf(faces, f, i));
    CornerIs(s, f / 2, f % 2, (i + 1) % 3, x, y, VertexOf(faces, f, i + 1));
  }

  /** No directed edge occurs twice in the whole mesh. */
  lemma DirectedEdgesDistinct(faces: seq<int>, s: Shape, f: nat, i: int, g: nat, j: int, a: int, b: int)
    requires s.Proper() && FacesOk(faces, s) && f < 2 * s.Cells() && g < 2 * s.Cells()
    requires Side(faces, f, i, a, b) && Side(faces, g, j, a, b)
    ensures f == g && i == j
  {
    var x, y := CellOf(s, f / 2);
    var x', y' := CellOf(s, g / 2);
    SideAt(faces, s, f, i, x, y);
    SideAt(faces, s, g, j, x', y');
  }

  /** Both ends lie on the same side of the grid. */
  predicate Border(s: Shape, a: int, b: int)
    requires s.Proper()
  {
    || (a % s.N() == 0 && b % s.N() == 0) || (a % s.N() == s.sx && b % s.N() == s.sx)
    || (a / s.N() == 0 && b / s.N() == 0) || (a / s.N() == s.sy && b / s.N() == s.sy)
  }

  /** An edge on the border belongs to one face only. */
  lemma BorderHasNoOpposite(faces: seq<int>, s: Shape, f: nat, i: int, g: nat, j: int, a: int, b: int)
    requires s.Proper() && FacesOk(faces, s) && f < 2 * s.Cells() && g < 2 * s.Cells()
    requires Side(faces, f, i, a, b) && Border(s, a, b)
    ensures !Side(faces, g, j, b, a)
  {
    if Side(faces, g, j, b, a) {
      var x, y := CellOf(s, f / 2);
      var x', y' := CellOf(s, g / 2);
      SideAt(faces, s, f, i, x, y);
      SideAt(faces, s, g, j, x', y');
    }
  }

  lemma SameVertex(u: int, v: int, n: int)
    requires n > 0 && u % n == v % n && u / n == v / n
    ensures u == v
  {
    assert u == u / n * n + u % n && v == v / n * n + v % n;
  }

  /** The cell across side i of face k of the cell in column x, row y. */
  function AcrossX(x: int, k: int, i: int): int {
    if i != 0 then x else if k == 0 then x - 1 else x + 1
  }

  function AcrossY(y: int, k: int, i: int): int {
    if i != 1 then y else if k == 0 then y + 1 else y - 1
  }

  /** Every other edge occurs once more, in the opposite direction: in the other face across it. */
  lemma InteriorHasOpposite(faces: seq<int>, s: Shape, f: nat, i: int, a: int, b: int) returns (g: nat)
    requires s.Proper() && FacesOk(faces, s) && f < 2 * s.Cells()
    requires Side(faces, f, i, a, b) && !Border(s, a, b)
    ensures g < 2 * s.Cells() && Side(faces, g, i, b, a)
  {
    var x, y := CellOf(s, f / 2);
    SideAt(faces, s, f, i, x, y);
    var k := f % 2;
    var x', y' := AcrossX(x, k, i), AcrossY(y, k, i);
    assert 0 <= x' < s.sx && 0 <= y' < s.sy;
    var c := y' * s.sx + x';
    CellId(s, x', y', c);
    g := 2 * c + (1 - k);
    SideAt(faces, s, g, i, x', y');
    SameVertex(VertexOf(faces, g, i), b, s.N());
    SameVertex(VertexOf(faces, g, i + 1), a, s.N());
  }

  /** An edge occurs in the opposite direction if and only if it is not on the border of the grid. */
  lemma OppositeIffInterior(faces: seq<int>, s: Shape, f: nat, i: int, a: int, b: int)
    requires s.Proper() && FacesOk(faces, s) && f < 2 * s.Cells() && Side(faces, f, i, a, b)
    ensures (exists g, j :: 0 <= g < 2 * s.Cells() && Side(faces, g, j, b, a)) <==> !Border(s, a, b)
  {
    if Border(s, a, b) {
      forall g, j | 0 <= g < 2 * s.Cells()
        ensures !Side(faces, g, j, b, a)
      {
        BorderHasNoOpposite(faces, s, f, i, g, j, a, b);
      }
    } else {
      var g := InteriorHasOpposite(faces, s, f, i, a, b);
    }
  }

  // ----- The arrays of a mesh in closed form -----

  lemma CoordIs(i: int, sub: int, f: real)
    requires sub >= 1 && f == -10.0 + 20.0 * (i as real / sub as real)
    ensures Coord(i, sub) == f
  {
  }

  /** The point of column x, row y: both coordinates run evenly from -10 to 10, x with the column, y with the row. */
  lemma PointEntries(points: seq<real>, s: Shape, x: int, y: int, fx: real, fy: real)
    requires s.Proper() && PointsOk(points, s) && 0 <= x <= s.sx && 0 <= y <= s.sy
    requires fx == -10.0 + 20.0 * (x as real / s.sx as real) && fy == -10.0 + 20.0 * (y as real / s.sy as real)
    ensures var u := 3 * (y * (s.sx + 1) + x);
            && 0 <= u && u + 2 < |points|
            && points[u] == fx * s.scale && points[u + 1] == fy * s.scale && points[u + 2] == s.height(fx, fy) * s.scale
  {
    var u := y * (s.sx + 1) + x;
    VertexId(s, x, y, u);
    CoordIs(x, s.sx, fx);
    CoordIs(y, s.sy, fy);
    assert Get(points, u) == PointOf(s)(u) == PointAt(s, x, y);
  }

  lemma TexEntries(texCoords: seq<real>, s: Shape, x: int, y: int)
    requires s.Proper() && TexOk(texCoords, s) && 0 <= x <= s.sx && 0 <= y <= s.sy
    ensures var u := 2 * (y * (s.sx + 1) + x);
            && 0 <= u && u + 1 < |texCoords|
            && texCoords[u] == x as real / s.sx as real && texCoords[u + 1] == y as real / s.sy as real
  {
    var u := y * (s.sx + 1) + x;
    VertexId(s, x, y, u);
    assert (texCoords[2 * u], texCoords[2 * u + 1]) == TexOf(s)(u) == TexAt(s, x, y);
  }

  /** The two faces of the cell in column x, row y: (p00, p10, p11) and (p11, p01, p00), with normals 2c and 2c + 1. */
  lemma FaceEntries(faces: seq<int>, s: Shape, x: int, y: int, c: int, p: int, q: int)
    requires s.Proper() && FacesOk(faces, s) && 0 <= x < s.sx && 0 <= y < s.sy
    requires c == y * s.sx + x && p == y * (s.sx + 1) + x && q == p + s.sx + 1
    ensures 0 <= c && 18 * c + 18 <= |faces|
    ensures faces[18 * c..18 * c + 9] == [p, 2 * c, p, q, 2 * c, q, q + 1, 2 * c, q + 1]
    ensures faces[18 * c + 9..18 * c + 18] == [q + 1, 2 * c + 1, q + 1, p + 1, 2 * c + 1, p + 1, p, 2 * c + 1, p]
  {
    CellId(s, x, y, c);
    FaceSlice(faces, s, 2 * c);
    FaceSlice(faces, s, 2 * c + 1);
    CornersOfFaces(s, c, 2 * c, p);
  }

  lemma FaceSlice(faces: seq<int>, s: Shape, f: int)
    requires s.Proper() && FacesOk(faces, s) && 0 <= f < 2 * s.Cells()
    ensures 9 * f + 9 <= |faces| && faces[9 * f..9 * f + 9] == FaceInts(s, f)
  {
    assert faces[9 * f..9 * f + 9] == FaceOf(s)(f);
  }

  /** Normal f is the normal of the points that face f names. */
  lemma NormalEntries(points: seq<real>, normals: seq<real>, faces: seq<int>, s: Shape, f: nat, p: int, q: int, r: int)
    requires s.Proper() && MeshOk(points, normals, faces, s) && 9 * f + 9 <= |faces|
    requires p == 3 * faces[9 * f] && q == 3 * faces[9 * f + 3] && r == 3 * faces[9 * f + 6]
    ensures 0 <= p && p + 2 < |points| && 0 <= q && q + 2 < |points| && 0 <= r && r + 2 < |points|
    ensures 3 * f + 2 < |normals|
    ensures Vec(normals[3 * f], normals[3 * f + 1], normals[3 * f + 2])
         == s.normal(Vec(points[p], points[p + 1], points[p + 2]), Vec(points[q], points[q + 1], points[q + 2]),
                     Vec(points[r], points[r + 1], points[r + 2]))
  {
    FaceAt(faces, s, f);
    NormalIs(points, s, f, faces[9 * f], faces[9 * f + 3], faces[9 * f + 6]);
    assert Get(normals, f) == NormalOf(s)(f);
  }
}

/** The initial mesh: the unit square cut into n-by-n cells, each cell cut along its diagonal,
    with the right angle at the newest vertex of both halves. */
module NvbGrid {
  import opened NvbGeometry
  import opened NvbMesh

  /** The spacing of `linspace(0, 1, n + 1)`. */
  function Spacing(n: nat): real
    requires n >= 1
  {
    1.0 / (n as real)
  }

  /** The squared leg of the initial triangles. */
  function CellLegSq(n: nat): real
    requires n >= 1
  {
    Spacing(n) * Spacing(n)
  }

  function Coord(h: real, i: nat): real { i as real * h }

  function GridPoint(h: real, i: nat, j: nat): Point { Point(Coord(h, i), Coord(h, j)) }

  function TriCount(n: nat): nat { 2 * n * n }

  /** Row-major node index. */
  function NId(i: nat, j: nat, m: nat): nat { j * m + i }

  function InitVerts(n: nat): seq<Point>
    requires n >= 1
  {
    seq((n + 1) * (n + 1), k requires 0 <= k => GridPoint(Spacing(n), k % (n + 1), k / (n + 1)))
  }

  /** Triangle ids count cell by cell, row by row, two per cell. */
  function InitTri(n: nat, t: nat): Tri
    requires n >= 1
  {
    CellTri(n, Col(n, t), Row(n, t), Upper(t))
  }

  function Col(n: nat, t: nat): nat
    requires n >= 1
  {
    (t / 2) % n
  }

  function Row(n: nat, t: nat): nat
    requires n >= 1
  {
    (t / 2) / n
  }

  predicate Upper(t: nat) { t % 2 == 1 }

  function CellTri(n: nat, i: nat, j: nat, upper: bool): Tri {
    var m := n + 1;
    var a, b, c, d := NId(i, j, m), NId(i + 1, j, m), NId(i, j + 1, m), NId(i + 1, j + 1, m);
    if upper then Tri(c, d, b, 1) else Tri(a, c, b, 0)
  }

  function InitTris(n: nat, k: nat): map<nat, Tri>
    requires n >= 1
  {
    map t: nat | 0 <= t < k :: InitTri(n, t)
  }

  /** Later vertices win, as repeated dictionary assignment does. */
  function IndexOf(verts: seq<Point>): map<Point, nat> {
    if verts == [] then map[]
    else IndexOf(verts[..|verts| - 1])[verts[|verts| - 1] := |verts| - 1]
  }

  function Initial(n: nat): Mesh
    requires n >= 1
  {
    Mesh(InitVerts(n), InitTris(n, TriCount(n)), map[], IndexOf(InitVerts(n)), TriCount(n))
  }

  function InitialAudit(n: nat): Audit
    requires n >= 1
  {
    Audit(map t | t in InitTris(n, TriCount(n)) :: 0, 0)
  }

  // ----- index arithmetic -----

  lemma QuotientUnique(q: int, r: int, j: int, i: int, m: int)
    requires 0 <= r < m && 0 <= i < m && q * m + r == j * m + i
    ensures q == j && r == i
  {
    var d := j - q;
    assert d * m == j * m - q * m == r - i;
    assert d >= 1 ==> d * m >= m;
    assert d <= -1 ==> d * m <= -m;
  }

  lemma DivModUnique(j: nat, i: nat, m: nat)
    requires i < m
    ensures (j * m + i) / m == j && (j * m + i) % m == i
  {
    var k := j * m + i;
    QuotientUnique(k / m, k % m, j, i, m);
  }

  lemma NIdBound(i: nat, j: nat, m: nat)
    requires i < m && j < m
    ensures NId(i, j, m) < m * m
  {
    assert j * m <= (m - 1) * m == m * m - m;
  }

  lemma VertAt(n: nat, i: nat, j: nat)
    requires n >= 1 && i <= n && j <= n
    ensures NId(i, j, n + 1) < |InitVerts(n)| == (n + 1) * (n + 1)
    ensures InitVerts(n)[NId(i, j, n + 1)] == GridPoint(Spacing(n), i, j)
  {
    NIdBound(i, j, n + 1);
    DivModUnique(j, i, n + 1);
  }

  lemma CellBounds(n: nat, t: nat)
    requires n >= 1 && t < TriCount(n)
    ensures Col(n, t) < n && Row(n, t) < n
  {
    var c := t / 2;
    var q := c / n;
    assert q * n <= c < n * n;
    assert q >= n ==> q * n >= n * n;
  }

  /** An id is determined by its column, row and half. */
  lemma CellsDistinct(n: nat, s: nat, t: nat)
    requires n >= 1 && Col(n, s) == Col(n, t) && Row(n, s) == Row(n, t) && Upper(s) == Upper(t)
    ensures s == t
  {
  }

  // ----- coordinates -----

  lemma MultiplesApart(h: real, i: nat, j: nat)
    requires h > 0.0 && i < j
    ensures Coord(h, i) + h <= Coord(h, j)
  {
    var d := (j - i) as real;
    assert j as real * h == i as real * h + d * h;
    assert (d - 1.0) * h >= 0.0;
  }

  lemma GridPointsDistinct(h: real, i: nat, j: nat, k: nat, l: nat)
    requires h > 0.0 && (i != k || j != l)
    ensures GridPoint(h, i, j) != GridPoint(h, k, l)
  {
  }

  lemma DivModDistinct(k: nat, l: nat, m: nat)
    requires m >= 1 && k != l
    ensures k % m != l % m || k / m != l / m
  {
  }

  lemma SpacingPositive(n: nat)
    requires n >= 1
    ensures Spacing(n) > 0.0
  {
  }

  lemma VertValue(n: nat, k: nat)
    requires n >= 1 && k < |InitVerts(n)|
    ensures InitVerts(n)[k] == GridPoint(Spacing(n), k % (n + 1), k / (n + 1))
  {
    hide GridPoint, Spacing;
  }

  lemma InitVertsDistinct(n: nat, k: nat, l: nat)
    requires n >= 1 && k < |InitVerts(n)| && l < |InitVerts(n)| && k != l
    ensures InitVerts(n)[k] != InitVerts(n)[l]
  {
    hide GridPoint, InitVerts, Spacing;
    VertValue(n, k);
    VertValue(n, l);
    SpacingPositive(n);
    DivModDistinct(k, l, n + 1);
    GridPointsDistinct(Spacing(n), k % (n + 1), k / (n + 1), l % (n + 1), l / (n + 1));
  }

  lemma {:induction false} IndexOfDistinct(verts: seq<Point>)
    requires forall k, l :: 0 <= k < l < |verts| ==> verts[k] != verts[l]
    ensures CoordsOk(verts, IndexOf(verts))
  {
    if verts != [] {
      var rest := verts[..|verts| - 1];
      IndexOfDistinct(rest);
      assert forall i :: 0 <= i < |rest| ==> verts[i] == rest[i];
    }
  }

  // ----- the two triangles of a cell -----

  function CellShape(x: real, y: real, h: real, upper: bool): Shape {
    if upper then Shape(Point(x + h, y + h), Point(x + h, y), Point(x, y + h))
    else Shape(Point(x, y), Point(x + h, y), Point(x, y + h))
  }

  /** The open triangle lies in the open cell, on its own side of the diagonal. */
  lemma CellShapeBox(x: real, y: real, h: real, upper: bool, q: Point)
    requires h > 0.0 && Interior(CellShape(x, y, h, upper), q)
    ensures x < q.x < x + h && y < q.y < y + h
    ensures upper <==> q.x + q.y > x + y + h
    ensures q.x + q.y != x + y + h
  {
  }

  lemma CellsApart(x: real, y: real, u: bool, x': real, y': real, v: bool, h: real)
    requires h > 0.0
    requires x + h <= x' || x' + h <= x || y + h <= y' || y' + h <= y || (x == x' && y == y' && u != v)
    ensures !Overlap(CellShape(x, y, h, u), CellShape(x', y', h, v))
  {
    var s, t := CellShape(x, y, h, u), CellShape(x', y', h, v);
    hide CellShape, Interior;
    forall q
      ensures !(Interior(s, q) && Interior(t, q))
    {
      if Interior(s, q) && Interior(t, q) {
        CellShapeBox(x, y, h, u, q);
        CellShapeBox(x', y', h, v, q);
        assert false;
      }
    }
  }

  lemma CellTriShape(n: nat, i: nat, j: nat, upper: bool)
    requires n >= 1 && i < n && j < n
    ensures IndexOk(InitVerts(n), CellTri(n, i, j, upper))
    ensures ShapeOf(InitVerts(n), CellTri(n, i, j, upper))
         == CellShape(Coord(Spacing(n), i), Coord(Spacing(n), j), Spacing(n), upper)
  {
    var h, m := Spacing(n), n + 1;
    var a, b, c, d := NId(i, j, m), NId(i + 1, j, m), NId(i, j + 1, m), NId(i + 1, j + 1, m);
    assert b < c by {
      assert (j + 1) * m == j * m + m;
    }
    VertAt(n, i, j);
    VertAt(n, i + 1, j);
    VertAt(n, i, j + 1);
    VertAt(n, i + 1, j + 1);
    GridNeighbours(h, i, j);
    hide InitVerts, Spacing, NId, GridPoint, Coord;
  }

  lemma GridNeighbours(h: real, i: nat, j: nat)
    ensures var x, y := Coord(h, i), Coord(h, j);
      && GridPoint(h, i, j) == Point(x, y)
      && GridPoint(h, i + 1, j) == Point(x + h, y)
      && GridPoint(h, i, j + 1) == Point(x, y + h)
      && GridPoint(h, i + 1, j + 1) == Point(x + h, y + h)
  {
  }

  function InitialCell(n: nat, t: nat): Shape
    requires n >= 1
  {
    CellShape(Coord(Spacing(n), Col(n, t)), Coord(Spacing(n), Row(n, t)), Spacing(n), Upper(t))
  }

  lemma InitialShape(n: nat, t: nat)
    requires n >= 1 && t < TriCount(n)
    ensures IndexOk(InitVerts(n), InitTri(n, t))
    ensures ShapeOf(InitVerts(n), InitTri(n, t)) == InitialCell(n, t)
  {
    CellBounds(n, t);
    hide Coord, Col, Row, Upper, CellTri, InitVerts, ShapeOf, CellShape, Spacing;
    CellTriShape(n, Col(n, t), Row(n, t), Upper(t));
  }

  lemma InitialApart(n: nat, s: nat, t: nat)
    requires n >= 1 && s != t
    ensures !Overlap(InitialCell(n, s), InitialCell(n, t))
  {
    var h := Spacing(n);
    assert h > 0.0;
    if Col(n, s) == Col(n, t) && Row(n, s) == Row(n, t) && Upper(s) == Upper(t) {
      CellsDistinct(n, s, t);
    }
    hide Coord, Col, Row, Upper, CellShape, Spacing, Overlap;
    var i, j, k, l := Col(n, s), Row(n, s), Col(n, t), Row(n, t);
    if i < k { MultiplesApart(h, i, k); }
    if k < i { MultiplesApart(h, k, i); }
    if j < l { MultiplesApart(h, j, l); }
    if l < j { MultiplesApart(h, l, j); }
    CellsApart(Coord(h, i), Coord(h, j), Upper(s), Coord(h, k), Coord(h, l), Upper(t), h);
  }

  lemma InitialShapes(n: nat)
    requires n >= 1
    ensures Indexed(Initial(n))
    ensures forall t :: t in Initial(n).tris ==> Shapes(Initial(n))[t] == InitialCell(n, t)
    ensures CoordsOk(InitVerts(n), IndexOf(InitVerts(n)))
  {
    hide InitialCell, InitTri, InitVerts, ShapeOf, IndexOf, TriCount;
    var m := Initial(n);
    forall t | t in m.tris
      ensures IndexOk(m.verts, m.tris[t]) && ShapeOf(m.verts, m.tris[t]) == InitialCell(n, t)
    {
      InitialShape(n, t);
    }
    forall k, l | 0 <= k < l < |InitVerts(n)|
      ensures InitVerts(n)[k] != InitVerts(n)[l]
    {
      InitVertsDistinct(n, k, l);
    }
    IndexOfDistinct(InitVerts(n));
  }

  lemma InitialLevel(n: nat, t: nat)
    requires n >= 1
    ensures LevelOk(CellLegSq(n), InitialCell(n, t), 0)
  {
  }

  lemma InitialLevels(n: nat)
    requires n >= 1 && Indexed(Initial(n))
    ensures LevelsOk(CellLegSq(n), Shapes(Initial(n)), InitialAudit(n).level)
  {
    InitialShapes(n);
    hide CellLegSq, InitialCell, InitTri, InitVerts, Shapes, IndexOf, LevelOk, TriCount;
    forall t | t in Initial(n).tris
      ensures LevelOk(CellLegSq(n), Shapes(Initial(n))[t], 0)
    {
      InitialLevel(n, t);
    }
  }

  lemma InitialDisjoint(n: nat)
    requires n >= 1 && Indexed(Initial(n))
    ensures Disjoint(Shapes(Initial(n)))
  {
    InitialShapes(n);
    hide InitialCell, Initial, Shapes, Overlap;
    var shapes := Shapes(Initial(n));
    forall s, t | s in shapes && t in shapes && s != t
      ensures !Overlap(shapes[s], shapes[t])
    {
      InitialApart(n, s, t);
    }
  }

  /** The starting point of every run. */
  lemma InitialWf(n: nat)
    requires n >= 1
    ensures Wf(CellLegSq(n), Initial(n), InitialAudit(n))
  {
    assert Spacing(n) > 0.0;
    ProductPositive(Spacing(n), Spacing(n), CellLegSq(n));
    hide CellLegSq, InitTri, InitVerts, Shapes, IndexOf, LevelsOk, Disjoint, TriCount;
    InitialShapes(n);
    InitialLevels(n);
    InitialDisjoint(n);
  }
}

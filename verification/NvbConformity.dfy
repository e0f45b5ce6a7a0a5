/** No hanging vertices: in every reached mesh, a live triangle with a vertex inside one of its sides has that
    side's midpoint on record, so a closed mesh is conforming in the geometric sense. */
module NvbConformity {
  import opened NvbGeometry
  import opened NvbMesh
  import opened NvbGrid
  import opened NvbTheorems
  import opened NvbLattice

  /** Live triangles are lattice triangles of their level. */
  predicate TrisOnLattice(n: nat, shapes: map<nat, Shape>, level: map<nat, nat>)
    requires n >= 1
  {
    forall t :: t in shapes && t in level ==> LatticeTri(n, shapes[t], level[t])
  }

  /** Bisected edges are lattice edges. */
  ghost predicate EdgesOnLattice(n: nat, verts: seq<Point>, edgeMid: map<Edge, nat>)
    requires n >= 1
  {
    forall e :: e in edgeMid && e.lo < |verts| && e.hi < |verts| ==> exists k :: LatticeEdge(n, k, verts[e.lo], verts[e.hi])
  }

  /** A vertex is a point of the initial grid or the recorded midpoint of an edge between earlier vertices. */
  ghost predicate HasOrigin(n: nat, verts: seq<Point>, edgeMid: map<Edge, nat>, v: nat)
    requires n >= 1 && v < |verts|
  {
    OnGrid(n, 0, verts[v]) || exists e :: e in edgeMid && edgeMid[e] == v && e.lo <= e.hi < v
  }

  ghost predicate OnLattice(n: nat, m: Mesh, au: Audit)
    requires n >= 1 && Indexed(m)
  {
    && TrisOnLattice(n, Shapes(m), au.level)
    && EdgesOnLattice(n, m.verts, m.edgeMid)
    && forall v :: 0 <= v < |m.verts| ==> HasOrigin(n, m.verts, m.edgeMid, v)
  }

  // ----- the initial grid -----

  lemma GridCoordinate(n: nat, i: int)
    requires n >= 1
    ensures (i as real * Spacing(n)) * (n as real) == i as real
  {
    assert Spacing(n) * (n as real) == 1.0;
  }

  lemma GridNode(n: nat, i: nat, j: nat)
    requires n >= 1
    ensures OnGrid(n, 0, GridPoint(Spacing(n), i, j)) && NodeOf(n, 0, GridPoint(Spacing(n), i, j)) == Node(i, j)
  {
    GridCoordinate(n, i);
    GridCoordinate(n, j);
    NodeIs(n, 0, GridPoint(Spacing(n), i, j), i, j);
  }

  lemma CellOnLattice(n: nat, i: nat, j: nat, upper: bool)
    requires n >= 1
    ensures LatticeTri(n, CellShape(Coord(Spacing(n), i), Coord(Spacing(n), j), Spacing(n), upper), 0)
  {
    hide OnGrid, NodeOf, Spacing, Coord, GridPoint;
    GridNeighbours(Spacing(n), i, j);
    GridNode(n, i, j);
    GridNode(n, i + 1, j);
    GridNode(n, i, j + 1);
    GridNode(n, i + 1, j + 1);
  }

  lemma InitialTriOnLattice(n: nat, t: nat)
    requires n >= 1
    ensures LatticeTri(n, InitialCell(n, t), 0)
  {
    hide LatticeTri, CellShape, Spacing, Coord, Col, Row, Upper;
    CellOnLattice(n, Col(n, t), Row(n, t), Upper(t));
  }

  lemma InitialVertexOnGrid(n: nat, v: nat)
    requires n >= 1 && v < |InitVerts(n)|
    ensures OnGrid(n, 0, InitVerts(n)[v])
  {
    hide OnGrid, NodeOf, Spacing, GridPoint, InitVerts;
    VertValue(n, v);
    GridNode(n, v % (n + 1), v / (n + 1));
  }

  lemma InitialOnLattice(n: nat)
    requires n >= 1
    ensures Indexed(Initial(n)) && OnLattice(n, Initial(n), InitialAudit(n))
  {
    hide LatticeTri, OnGrid, InitVerts, InitTri, IndexOf, Shapes, InitialCell, Indexed, TriCount;
    InitialShapes(n);
    forall t | t in Initial(n).tris
      ensures LatticeTri(n, InitialCell(n, t), 0)
    {
      InitialTriOnLattice(n, t);
    }
    forall v | 0 <= v < |InitVerts(n)|
      ensures OnGrid(n, 0, InitVerts(n)[v])
    {
      InitialVertexOnGrid(n, v);
    }
  }

  // ----- one bisection -----

  lemma HalvesOnLattice(n: nat, s: Shape, level: nat, h: Shape)
    requires n >= 1 && LatticeTri(n, s, level)
    requires h in {HalfA(s), Flip(HalfA(s)), HalfB(s), Flip(HalfB(s))}
    ensures LatticeTri(n, h, level + 1)
  {
    FlipLattice(n, s, level);
    HalfLattice(n, s, level);
    HalfLattice(n, Flip(s), level);
    assert HalfA(Flip(s)) == HalfB(s);
    FlipLattice(n, HalfA(s), level + 1);
    FlipLattice(n, HalfB(s), level + 1);
    hide LatticeTri;
  }

  lemma BaseIsLatticeEdge(n: nat, s: Shape, level: nat)
    requires n >= 1 && LatticeTri(n, s, level)
    ensures exists k :: LatticeEdge(n, k, s.a, s.b)
  {
    hide LatticeTri, LatticeEdge;
    var k := SideIsLatticeEdge(n, s, level, s.a, s.b);
  }

  lemma TrisAfter(n: nat, shapes: map<nat, Shape>, m: Mesh, au: Audit, tid: nat, ha: Shape, hb: Shape)
    requires n >= 1 && TrisOnLattice(n, shapes, au.level) && tid in shapes && tid in m.tris && tid in au.level
    requires ha in {HalfA(shapes[tid]), Flip(HalfA(shapes[tid]))}
    requires hb in {HalfB(shapes[tid]), Flip(HalfB(shapes[tid]))}
    ensures TrisOnLattice(n, (shapes - {tid})[m.next := ha][m.next + 1 := hb], AuditStep(m, au, tid).level)
  {
    hide LatticeTri, HalfA, HalfB, Flip;
    HalvesOnLattice(n, shapes[tid], au.level[tid], ha);
    HalvesOnLattice(n, shapes[tid], au.level[tid], hb);
  }

  lemma EdgesAfter(n: nat, m: Mesh, e: Edge)
    requires n >= 1 && e.lo < |m.verts| && e.hi < |m.verts| && MidsOk(m.verts, m.edgeMid)
    requires EdgesOnLattice(n, m.verts, m.edgeMid) && exists k :: LatticeEdge(n, k, m.verts[e.lo], m.verts[e.hi])
    ensures var r := WithMidpoint(m, e); EdgesOnLattice(n, r.verts, r.edgeMid)
  {
    hide LatticeEdge, Mid;
    WithMidpointFrame(m, e);
    var r := WithMidpoint(m, e);
    forall f | f in r.edgeMid && f.lo < |r.verts| && f.hi < |r.verts|
      ensures exists k :: LatticeEdge(n, k, r.verts[f.lo], r.verts[f.hi])
    {
      assert f.lo < |m.verts| && f.hi < |m.verts| && r.verts[f.lo] == m.verts[f.lo] && r.verts[f.hi] == m.verts[f.hi];
    }
  }

  lemma OriginsAfter(n: nat, m: Mesh, e: Edge)
    requires n >= 1 && e.lo <= e.hi < |m.verts|
    requires forall v :: 0 <= v < |m.verts| ==> HasOrigin(n, m.verts, m.edgeMid, v)
    ensures var r := WithMidpoint(m, e); forall v :: 0 <= v < |r.verts| ==> HasOrigin(n, r.verts, r.edgeMid, v)
  {
    hide OnGrid, Mid;
    WithMidpointFrame(m, e);
    var r := WithMidpoint(m, e);
    forall v | 0 <= v < |r.verts|
      ensures HasOrigin(n, r.verts, r.edgeMid, v)
    {
      if v < |m.verts| {
        assert r.verts[v] == m.verts[v] && HasOrigin(n, m.verts, m.edgeMid, v);
        if !OnGrid(n, 0, m.verts[v]) {
          var f :| f in m.edgeMid && m.edgeMid[f] == v && f.lo <= f.hi < v;
          assert f in r.edgeMid && r.edgeMid[f] == v;
        }
      } else {
        assert r.edgeMid[e] == v;
      }
    }
  }

  lemma SplitOnLattice(n: nat, leg0: real, m: Mesh, au: Audit, tid: nat)
    requires n >= 1 && Wf(leg0, m, au) && OnLattice(n, m, au) && tid in m.tris
    ensures Indexed(Split(m, tid)) && OnLattice(n, Split(m, tid), AuditStep(m, au, tid))
  {
    hide ShapeOf, Shapes, CoordsOk, MidsOk, HalfA, HalfB, Flip, Disjoint, LevelOk, TopOk, LatticeTri, LatticeEdge, HasOrigin,
      EdgesOnLattice, WithMidpoint, AuditStep;
    var e, s := RefinementEdge(m.tris[tid]), Shapes(m)[tid];
    var ha, hb := SplitShapes(m, tid);
    TrisAfter(n, Shapes(m), m, au, tid, ha, hb);
    BaseIsLatticeEdge(n, s, au.level[tid]);
    BaseOfShape(m, tid);
    EdgesAfter(n, m, e);
    OriginsAfter(n, m, e);
  }

  lemma BaseOfShape(m: Mesh, tid: nat)
    requires Indexed(m) && tid in m.tris
    ensures var e := RefinementEdge(m.tris[tid]);
      e.lo < |m.verts| && e.hi < |m.verts| && Shapes(m)[tid].a == m.verts[e.lo] && Shapes(m)[tid].b == m.verts[e.hi]
  {
  }

  lemma {:induction false} ReachedOnLattice(n: nat, tids: seq<nat>)
    requires n >= 1
    ensures OnLattice(n, Reached(n, tids), ReachedAudit(n, tids))
  {
    hide *;
    if tids == [] {
      ReachedNone(n);
      InitialOnLattice(n);
    } else {
      var rest, tid := tids[..|tids| - 1], tids[|tids| - 1];
      ReachedOnLattice(n, rest);
      ReachedWf(n, rest);
      assert rest + [tid] == tids;
      ReachedOneMore(n, rest, tid);
      StepOnLattice(n, CellLegSq(n), Reached(n, rest), ReachedAudit(n, rest), tid);
    }
  }

  lemma ReachedNone(n: nat)
    requires n >= 1
    ensures Reached(n, []) == Initial(n) && ReachedAudit(n, []) == InitialAudit(n)
  {
    hide Initial, InitialAudit;
  }

  lemma StepOnLattice(n: nat, leg0: real, m: Mesh, au: Audit, tid: nat)
    requires n >= 1 && Wf(leg0, m, au) && OnLattice(n, m, au)
    ensures OnLattice(n, RefineTriangle(m, tid), AuditStep(m, au, tid))
  {
    hide Wf, OnLattice, Split;
    if tid in m.tris {
      SplitOnLattice(n, leg0, m, au, tid);
    }
  }

  // ----- hanging vertices -----

  /** The edge of the vertex table between two points. */
  lemma EdgeOfPoints(m: Mesh, e: Edge, f: Edge)
    requires CoordsOk(m.verts, m.coordIndex) && e.lo < |m.verts| && e.hi < |m.verts| && f.lo < |m.verts| && f.hi < |m.verts|
    requires e.lo <= e.hi && f.lo <= f.hi
    requires var a, b, c, d := m.verts[e.lo], m.verts[e.hi], m.verts[f.lo], m.verts[f.hi]; (a == c && b == d) || (a == d && b == c)
    ensures e == f
  {
  }

  /** A vertex inside a lattice edge puts that edge's midpoint on record: its own edge is part of it, and so on up. */
  lemma {:induction false} InnerVertexBisects(n: nat, leg0: real, m: Mesh, au: Audit, e: Edge, k: nat, v: nat)
    requires n >= 1 && Wf(leg0, m, au) && OnLattice(n, m, au) && e.lo <= e.hi < |m.verts| && v < |m.verts|
    requires LatticeEdge(n, k, m.verts[e.lo], m.verts[e.hi]) && InOpenSegment(m.verts[e.lo], m.verts[e.hi], m.verts[v])
    ensures e in m.edgeMid
    decreases v
  {
    hide LatticeEdge, InOpenSegment, OnGrid, Mid, CoordsOk, LevelsOk, Disjoint, TopOk, Shapes, Lengths, TrisOnLattice;
    var p, q := m.verts[e.lo], m.verts[e.hi];
    assert HasOrigin(n, m.verts, m.edgeMid, v);
    if OnGrid(n, 0, m.verts[v]) {
      FinerGrid(n, 0, k, m.verts[v]);
      NotInner(n, k, p, q, m.verts[v]);
    } else {
      var f :| f in m.edgeMid && m.edgeMid[f] == v && f.lo <= f.hi < v;
      var l :| LatticeEdge(n, l, m.verts[f.lo], m.verts[f.hi]);
      EdgesNest(n, k, p, q, l, m.verts[f.lo], m.verts[f.hi]);
      if InOpenSegment(p, q, m.verts[f.lo]) {
        InnerVertexBisects(n, leg0, m, au, e, k, f.lo);
      } else if InOpenSegment(p, q, m.verts[f.hi]) {
        InnerVertexBisects(n, leg0, m, au, e, k, f.hi);
      } else {
        EdgeOfPoints(m, e, f);
      }
    }
  }

  /** Vertex `v` lies strictly inside a side of the live triangle `t`. */
  ghost predicate Hangs(m: Mesh, t: nat, v: nat)
    requires Indexed(m)
  {
    && t in m.tris && v < |m.verts|
    && exists e :: e in EdgesOf(m.tris[t]) && e.lo < |m.verts| && e.hi < |m.verts|
         && InOpenSegment(m.verts[e.lo], m.verts[e.hi], m.verts[v])
  }

  lemma SideOnLattice(n: nat, leg0: real, m: Mesh, au: Audit, t: nat, e: Edge) returns (k: nat)
    requires n >= 1 && Wf(leg0, m, au) && OnLattice(n, m, au) && t in m.tris && e in EdgesOf(m.tris[t])
    ensures e.lo <= e.hi < |m.verts| && LatticeEdge(n, k, m.verts[e.lo], m.verts[e.hi])
  {
    WfShape(leg0, m, au, t);
    ShapesAt(leg0, m, au, t);
    EdgeIsSide(m.tris[t], e);
    SidesOfRight(m.verts, m.tris[t], e);
    hide LatticeTri, LatticeEdge, ShapeOf, HasSide, RightIsosceles, LevelOk;
    k := SideIsLatticeEdge(n, ShapeOf(m.verts, m.tris[t]), au.level[t], m.verts[e.lo], m.verts[e.hi]);
  }

  /** In every reached mesh a triangle with a hanging vertex is pending, so when nothing is pending there is no
      hanging vertex anywhere. */
  lemma HangingIsPending(n: nat, tids: seq<nat>, t: nat, v: nat)
    requires n >= 1 && Hangs(Reached(n, tids), t, v)
    ensures Pending(Reached(n, tids), t)
  {
    hide Reached, ReachedAudit, Wf, OnLattice, LatticeEdge, InOpenSegment, EdgesOf;
    ReachedWf(n, tids);
    ReachedOnLattice(n, tids);
    var m, au := Reached(n, tids), ReachedAudit(n, tids);
    var e :| e in EdgesOf(m.tris[t]) && e.lo < |m.verts| && e.hi < |m.verts|
      && InOpenSegment(m.verts[e.lo], m.verts[e.hi], m.verts[v]);
    var k := SideOnLattice(n, CellLegSq(n), m, au, t, e);
    InnerVertexBisects(n, CellLegSq(n), m, au, e, k, v);
  }
}

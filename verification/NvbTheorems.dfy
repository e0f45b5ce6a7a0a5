/** What every mesh reached from the initial grid by any sequence of bisections satisfies:
    shape and area, at most two triangles to an edge, and the exact measure by which the
    conformity closure terminates. */
module NvbTheorems {
  import opened NvbGeometry
  import opened NvbMesh
  import opened NvbGrid

  function Reached(n: nat, tids: seq<nat>): (m: Mesh)
    requires n >= 1
    ensures Indexed(m)
  {
    InitialWf(n);
    Run(Initial(n), tids)
  }

  function ReachedAudit(n: nat, tids: seq<nat>): Audit
    requires n >= 1
  {
    InitialWf(n);
    AuditRun(Initial(n), InitialAudit(n), tids)
  }

  lemma ReachedWf(n: nat, tids: seq<nat>)
    requires n >= 1
    ensures Wf(CellLegSq(n), Reached(n, tids), ReachedAudit(n, tids))
  {
    hide Wf;
    InitialWf(n);
    RunKeepsWf(CellLegSq(n), Initial(n), InitialAudit(n), tids);
  }

  lemma ReachedOneMore(n: nat, tids: seq<nat>, tid: nat)
    requires n >= 1
    ensures Reached(n, tids + [tid]) == RefineTriangle(Reached(n, tids), tid)
    ensures ReachedAudit(n, tids + [tid]) == AuditStep(Reached(n, tids), ReachedAudit(n, tids), tid)
  {
  }

  lemma WfShape(leg0: real, m: Mesh, au: Audit, t: nat)
    requires Wf(leg0, m, au) && t in m.tris
    ensures t in au.level && LevelOk(leg0, Shapes(m)[t], au.level[t])
    ensures RightIsosceles(Shapes(m)[t])
    ensures Area(Shapes(m)[t]) == Halved(leg0 / 2.0, au.level[t])
  {
    hide CoordsOk, MidsOk, Disjoint, TopOk, Shapes, Area;
    AreaOfRightIsosceles(Shapes(m)[t]);
    HalvedScale(leg0, au.level[t]);
  }

  /** Right isosceles at the newest vertex, with the area of an initial half-cell halved once
      per level. */
  lemma ReachedShapes(n: nat, tids: seq<nat>, t: nat)
    requires n >= 1 && t in Reached(n, tids).tris
    ensures var s := Shapes(Reached(n, tids))[t];
      && RightIsosceles(s)
      && t in ReachedAudit(n, tids).level
      && Area(s) == Halved(CellLegSq(n) / 2.0, ReachedAudit(n, tids).level[t])
  {
    hide *;
    ReachedWf(n, tids);
    WfShape(CellLegSq(n), Reached(n, tids), ReachedAudit(n, tids), t);
  }

  lemma {:induction false} HalvedScale(x: real, k: nat)
    ensures Halved(x / 2.0, k) == Halved(x, k) / 2.0
  {
    if k > 0 {
      HalvedScale(x, k - 1);
    }
  }

  // ----- sums over the live triangles, in id order -----

  function Sum(w: map<nat, real>, k: nat): real {
    if k == 0 then 0.0 else Sum(w, k - 1) + (if k - 1 in w then w[k - 1] else 0.0)
  }

  lemma {:induction false} SumSame(w: map<nat, real>, w': map<nat, real>, k: nat)
    requires forall t: nat :: t < k ==> (t in w <==> t in w') && (t in w ==> w[t] == w'[t])
    ensures Sum(w, k) == Sum(w', k)
  {
    if k > 0 {
      SumSame(w, w', k - 1);
    }
  }

  lemma {:induction false} SumWithout(w: map<nat, real>, tid: nat, k: nat)
    requires tid in w && tid < k
    ensures Sum(w - {tid}, k) == Sum(w, k) - w[tid]
  {
    if tid == k - 1 {
      SumSame(w - {tid}, w, k - 1);
    } else {
      SumWithout(w, tid, k - 1);
    }
  }

  /** Replacing one entry by two new ones at the end. */
  lemma SumSplit(w: map<nat, real>, tid: nat, next: nat, c: real)
    requires tid in w && forall t :: t in w ==> t < next
    ensures Sum((w - {tid})[next := c][next + 1 := c], next + 2) == Sum(w, next) - w[tid] + 2.0 * c
  {
    var w' := (w - {tid})[next := c][next + 1 := c];
    SumSame(w', w - {tid}, next);
    SumWithout(w, tid, next);
    assert Sum(w', next + 2) == Sum(w', next + 1) + c;
    assert Sum(w', next + 1) == Sum(w', next) + c;
  }

  lemma {:induction false} SumConstant(w: map<nat, real>, k: nat, c: real)
    requires forall t: nat :: t < k ==> t in w && w[t] == c
    ensures Sum(w, k) == k as real * c
  {
    if k > 0 {
      SumConstant(w, k - 1, c);
      assert k as real * c == (k - 1) as real * c + c;
    }
  }

  // ----- area is conserved -----

  function Areas(shapes: map<nat, Shape>): map<nat, real> {
    map t | t in shapes :: Area(shapes[t])
  }

  lemma AreasAfter(leg0: real, shapes: map<nat, Shape>, tid: nat, k: nat, next: nat, ha: Shape, hb: Shape)
    requires tid in shapes && LevelOk(leg0, shapes[tid], k)
    requires ha in {HalfA(shapes[tid]), Flip(HalfA(shapes[tid]))}
    requires hb in {HalfB(shapes[tid]), Flip(HalfB(shapes[tid]))}
    ensures var c := Area(shapes[tid]) / 2.0;
      Areas((shapes - {tid})[next := ha][next + 1 := hb]) == (Areas(shapes) - {tid})[next := c][next + 1 := c]
  {
    LevelOfHalf(leg0, shapes[tid], k, ha);
    LevelOfHalf(leg0, shapes[tid], k, hb);
    hide Area, HalfA, HalfB, Flip, LevelOk;
  }

  lemma SplitKeepsArea(leg0: real, m: Mesh, au: Audit, tid: nat)
    requires Wf(leg0, m, au) && tid in m.tris
    ensures Indexed(Split(m, tid))
    ensures Sum(Areas(Shapes(Split(m, tid))), m.next + 2) == Sum(Areas(Shapes(m)), m.next)
  {
    hide Split, Shapes, CoordsOk, MidsOk, Disjoint, TopOk, LevelOk, HalfA, HalfB, Flip, Area;
    var ha, hb := SplitShapes(m, tid);
    AreasAfter(leg0, Shapes(m), tid, au.level[tid], m.next, ha, hb);
    SumSplit(Areas(Shapes(m)), tid, m.next, Area(Shapes(m)[tid]) / 2.0);
  }

  lemma InitialTriangleArea(n: nat, t: nat)
    requires n >= 1 && t < TriCount(n)
    ensures Indexed(Initial(n)) && t in Shapes(Initial(n))
    ensures Area(Shapes(Initial(n))[t]) == CellLegSq(n) / 2.0
  {
    hide CellLegSq, InitialCell, InitTri, InitVerts, IndexOf, Shapes, TriCount, RightIsosceles, Area;
    InitialShapes(n);
    InitialLevel(n, t);
    AreaOfRightIsosceles(InitialCell(n, t));
  }

  lemma InitialAreas(n: nat)
    requires n >= 1
    ensures Indexed(Initial(n)) && Initial(n).next == TriCount(n)
    ensures forall t: nat :: t < TriCount(n) ==>
              t in Areas(Shapes(Initial(n))) && Areas(Shapes(Initial(n)))[t] == CellLegSq(n) / 2.0
  {
    hide CellLegSq, Shapes, Area, TriCount, InitVerts, InitTris, IndexOf;
    InitialShapes(n);
    forall t: nat | t < TriCount(n)
      ensures t in Areas(Shapes(Initial(n))) && Areas(Shapes(Initial(n)))[t] == CellLegSq(n) / 2.0
    {
      InitialTriangleArea(n, t);
    }
  }

  lemma InitialArea(n: nat)
    requires n >= 1
    ensures Indexed(Initial(n))
    ensures Sum(Areas(Shapes(Initial(n))), Initial(n).next) == 1.0
  {
    hide *;
    InitialAreas(n);
    SumConstant(Areas(Shapes(Initial(n))), TriCount(n), CellLegSq(n) / 2.0);
    UnitSquare(n);
  }

  lemma UnitSquare(n: nat)
    requires n >= 1
    ensures TriCount(n) as real * (CellLegSq(n) / 2.0) == 1.0
  {
  }

  lemma AreaStep(leg0: real, m: Mesh, au: Audit, tid: nat)
    requires Wf(leg0, m, au)
    ensures Sum(Areas(Shapes(RefineTriangle(m, tid))), RefineTriangle(m, tid).next) == Sum(Areas(Shapes(m)), m.next)
  {
    assert Indexed(m);
    hide Wf, Split, Shapes, Areas, Sum;
    if tid in m.tris {
      SplitKeepsArea(leg0, m, au, tid);
      SplitFrame(m, tid);
    }
  }

  lemma ReachedNothing(n: nat)
    requires n >= 1
    ensures Reached(n, []) == Initial(n)
  {
  }

  /** The live triangles always cover area one. */
  lemma {:induction false} ReachedArea(n: nat, tids: seq<nat>)
    requires n >= 1
    ensures Sum(Areas(Shapes(Reached(n, tids))), Reached(n, tids).next) == 1.0
  {
    hide *;
    if tids == [] {
      InitialArea(n);
      ReachedNothing(n);
    } else {
      var rest, tid := tids[..|tids| - 1], tids[|tids| - 1];
      ReachedArea(n, rest);
      ReachedWf(n, rest);
      assert rest + [tid] == tids;
      ReachedOneMore(n, rest, tid);
      AreaStep(CellLegSq(n), Reached(n, rest), ReachedAudit(n, rest), tid);
    }
  }

  // ----- at most two triangles to an edge -----

  function Sides(t: Tri, e: Edge): nat {
    (if EKey(t.v0, t.v1) == e then 1 else 0) +
    (if EKey(t.v1, t.v2) == e then 1 else 0) +
    (if EKey(t.v2, t.v0) == e then 1 else 0)
  }

  /** How often `e` is a side of a live triangle with an id below `k`. */
  function OwnerCount(tris: map<nat, Tri>, k: nat, e: Edge): nat {
    if k == 0 then 0
    else OwnerCount(tris, k - 1, e) + (if k - 1 in tris then Sides(tris[k - 1], e) else 0)
  }

  /** How many live triangles with an id below `k` contain the point `q`. */
  function HitCount(shapes: map<nat, Shape>, k: nat, q: Point): nat {
    if k == 0 then 0
    else HitCount(shapes, k - 1, q) + (if k - 1 in shapes && Interior(shapes[k - 1], q) then 1 else 0)
  }

  lemma SidesOfRight(verts: seq<Point>, t: Tri, e: Edge)
    requires IndexOk(verts, t) && RightIsosceles(ShapeOf(verts, t))
    ensures Sides(t, e) <= 1
    ensures Sides(t, e) == 1 ==> e.lo < |verts| && e.hi < |verts| && HasSide(ShapeOf(verts, t), verts[e.lo], verts[e.hi])
  {
    FlipSame(ShapeOf(verts, t));
    DistSqPositive(ShapeOf(verts, t).a, ShapeOf(verts, t).apex);
    assert ShapeOf(verts, t).a != ShapeOf(verts, t).b;
    hide DistSq, Interior, QuarterTurn;
    assert t.v0 != t.v1 && t.v1 != t.v2 && t.v2 != t.v0;
  }

  lemma {:induction false} NoEarlierHit(shapes: map<nat, Shape>, k: nat, u: nat, q: Point)
    requires Disjoint(shapes) && u in shapes && Interior(shapes[u], q) && k <= u
    ensures HitCount(shapes, k, q) == 0
  {
    hide Interior;
    if k > 0 {
      NoEarlierHit(shapes, k - 1, u, q);
      assert k - 1 in shapes ==> !Overlap(shapes[k - 1], shapes[u]);
    }
  }

  lemma {:induction false} HitAtMostOnce(shapes: map<nat, Shape>, k: nat, q: Point)
    requires Disjoint(shapes)
    ensures HitCount(shapes, k, q) <= 1
  {
    if k > 0 {
      HitAtMostOnce(shapes, k - 1, q);
      if k - 1 in shapes && Interior(shapes[k - 1], q) {
        NoEarlierHit(shapes, k - 1, k - 1, q);
      }
    }
  }

  lemma OwnerHasProbe(leg0: real, m: Mesh, au: Audit, t: nat, e: Edge)
    requires Wf(leg0, m, au) && t in m.tris && Sides(m.tris[t], e) > 0
    ensures Sides(m.tris[t], e) == 1 && e.lo < |m.verts| && e.hi < |m.verts|
    ensures var p, q := m.verts[e.lo], m.verts[e.hi];
      Interior(Shapes(m)[t], Probe(p, q, true)) || Interior(Shapes(m)[t], Probe(p, q, false))
  {
    var s := Shapes(m)[t];
    assert LevelOk(leg0, s, au.level[t]);
    assert s == ShapeOf(m.verts, m.tris[t]);
    hide Sides, ShapeOf, Shapes, HasSide, Interior, Probe;
    SidesOfRight(m.verts, m.tris[t], e);
    SideHasProbe(s, m.verts[e.lo], m.verts[e.hi]);
  }

  lemma {:induction false} OwnersHitProbes(leg0: real, m: Mesh, au: Audit, e: Edge, k: nat)
    requires Wf(leg0, m, au) && e.lo < |m.verts| && e.hi < |m.verts|
    ensures var p, q := m.verts[e.lo], m.verts[e.hi];
      OwnerCount(m.tris, k, e) <= HitCount(Shapes(m), k, Probe(p, q, true)) + HitCount(Shapes(m), k, Probe(p, q, false))
  {
    hide Wf, Sides, Shapes, Interior, Probe;
    if k > 0 {
      OwnersHitProbes(leg0, m, au, e, k - 1);
      if k - 1 in m.tris && Sides(m.tris[k - 1], e) > 0 {
        OwnerHasProbe(leg0, m, au, k - 1, e);
      }
    }
  }

  lemma {:induction false} ForeignEdge(leg0: real, m: Mesh, au: Audit, e: Edge, k: nat)
    requires Wf(leg0, m, au) && (e.lo >= |m.verts| || e.hi >= |m.verts|)
    ensures OwnerCount(m.tris, k, e) == 0
  {
    hide Wf, Sides, Shapes;
    if k > 0 {
      ForeignEdge(leg0, m, au, e, k - 1);
      if k - 1 in m.tris && Sides(m.tris[k - 1], e) > 0 {
        OwnerHasProbe(leg0, m, au, k - 1, e);
      }
    }
  }

  /** In every mesh with disjoint right isosceles triangles an edge has at most two owners. */
  lemma AtMostTwoOwners(leg0: real, m: Mesh, au: Audit, e: Edge, k: nat)
    requires Wf(leg0, m, au)
    ensures OwnerCount(m.tris, k, e) <= 2
  {
    if e.lo < |m.verts| && e.hi < |m.verts| {
      OwnersHitProbes(leg0, m, au, e, k);
      HitAtMostOnce(Shapes(m), k, Probe(m.verts[e.lo], m.verts[e.hi], true));
      HitAtMostOnce(Shapes(m), k, Probe(m.verts[e.lo], m.verts[e.hi], false));
    } else {
      ForeignEdge(leg0, m, au, e, k);
    }
  }

  lemma ReachedConforming(n: nat, tids: seq<nat>, e: Edge)
    requires n >= 1
    ensures OwnerCount(Reached(n, tids).tris, Reached(n, tids).next, e) <= 2
  {
    ReachedWf(n, tids);
    AtMostTwoOwners(CellLegSq(n), Reached(n, tids), ReachedAudit(n, tids), e, Reached(n, tids).next);
  }

  /** Two live triangles never have the same three vertices in the same positions, so looking
      a triangle up by its vertex triple finds the one meant. */
  lemma ReachedTriplesDistinct(n: nat, tids: seq<nat>, s: nat, t: nat)
    requires n >= 1 && s in Reached(n, tids).tris && t in Reached(n, tids).tris && s != t
    ensures var a, b := Reached(n, tids).tris[s], Reached(n, tids).tris[t];
      (a.v0, a.v1, a.v2) != (b.v0, b.v1, b.v2)
  {
    ReachedWf(n, tids);
    hide Reached, ReachedAudit, Interior, ShapeOf, CoordsOk, MidsOk, TopOk, Centroid;
    var m := Reached(n, tids);
    var a, b := m.tris[s], m.tris[t];
    TripleCentroid(m.verts, a);
    TripleCentroid(m.verts, b);
    assert !Overlap(Shapes(m)[s], Shapes(m)[t]);
  }

  lemma TripleCentroid(verts: seq<Point>, t: Tri)
    requires IndexOk(verts, t) && RightIsosceles(ShapeOf(verts, t))
    ensures Interior(ShapeOf(verts, t), Centroid(verts[t.v0], verts[t.v1], verts[t.v2]))
  {
    var s := ShapeOf(verts, t);
    CentroidInside(s);
    assert Centroid(verts[t.v0], verts[t.v1], verts[t.v2]) == Centroid(s.apex, s.a, s.b);
  }

  // ----- the closure's measure -----

  function Pow2(k: nat): (r: nat)
    ensures r >= 1
  {
    if k == 0 then 1 else 2 * Pow2(k - 1)
  }

  function Weights(au: Audit): map<nat, real> {
    map t | t in au.level :: if au.level[t] <= au.top then (Pow2(au.top - au.level[t]) - 1) as real else 0.0
  }

  /** The number of bisections that would bring every live triangle to level `top`. */
  function Potential(m: Mesh, au: Audit): real { Sum(Weights(au), m.next) }

  lemma BisectedEdgeIsLong(leg0: real, m: Mesh, au: Audit, e: Edge)
    requires Wf(leg0, m, au) && e in m.edgeMid
    ensures leg0 > 0.0 && e.lo < |m.verts| && e.hi < |m.verts|
    ensures DistSq(m.verts[e.lo], m.verts[e.hi]) >= 4.0 * Halved(leg0, au.top)
  {
    hide CoordsOk, LevelsOk, Disjoint, DistSq, Mid, Halved;
    assert e in Lengths(m.verts, m.edgeMid);
  }

  lemma EdgeIsSide(t: Tri, e: Edge)
    requires e in EdgesOf(t)
    ensures Sides(t, e) >= 1
  {
  }

  lemma ShapesAt(leg0: real, m: Mesh, au: Audit, t: nat)
    requires Wf(leg0, m, au) && t in m.tris
    ensures Indexed(m) && IndexOk(m.verts, m.tris[t]) && Shapes(m)[t] == ShapeOf(m.verts, m.tris[t])
  {
    hide ShapeOf, CoordsOk, MidsOk, LevelsOk, Disjoint, TopOk;
  }

  lemma LevelLeg(leg0: real, s: Shape, k: nat)
    requires LevelOk(leg0, s, k)
    ensures LegSq(s) == Halved(leg0, k)
  {
  }

  /** A side of a level-k triangle is at most as long as the refinement edge of level k. */
  lemma SideIsShort(leg0: real, m: Mesh, au: Audit, tid: nat, e: Edge)
    requires Wf(leg0, m, au) && tid in m.tris && e in EdgesOf(m.tris[tid])
    requires e.lo < |m.verts| && e.hi < |m.verts|
    ensures tid in au.level && DistSq(m.verts[e.lo], m.verts[e.hi]) <= 2.0 * Halved(leg0, au.level[tid])
  {
    hide *;
    var t := m.tris[tid];
    EdgeIsSide(t, e);
    WfShape(leg0, m, au, tid);
    ShapesAt(leg0, m, au, tid);
    SidesOfRight(m.verts, t, e);
    SideLength(ShapeOf(m.verts, t), m.verts[e.lo], m.verts[e.hi]);
    LevelLeg(leg0, Shapes(m)[tid], au.level[tid]);
  }

  /** A pending triangle is never finer than the finest bisected edge. */
  lemma PendingLevel(leg0: real, m: Mesh, au: Audit, tid: nat)
    requires Wf(leg0, m, au) && Pending(m, tid)
    ensures tid in au.level && au.level[tid] < au.top
  {
    hide Wf, DistSq;
    var e :| e in EdgesOf(m.tris[tid]) && e in m.edgeMid;
    BisectedEdgeIsLong(leg0, m, au, e);
    SideIsShort(leg0, m, au, tid, e);
    var k := au.level[tid];
    assert Halved(leg0, k) >= 2.0 * Halved(leg0, au.top);
    if k >= au.top {
      HalvedMonotone(leg0, au.top, k);
    }
  }

  lemma WeightsAfter(m: Mesh, au: Audit, tid: nat)
    requires tid in m.tris && tid in au.level && au.level[tid] < au.top
    ensures var c := (Pow2(au.top - au.level[tid] - 1) - 1) as real;
      && Weights(AuditStep(m, au, tid)) == (Weights(au) - {tid})[m.next := c][m.next + 1 := c]
      && Weights(au)[tid] == 2.0 * c + 1.0
      && AuditStep(m, au, tid).top == au.top
  {
  }

  /** Bisecting a triangle below the top level lowers the potential by exactly one and leaves
      the top level where it is. */
  lemma PotentialDrop(leg0: real, m: Mesh, au: Audit, tid: nat)
    requires Wf(leg0, m, au) && tid in m.tris && tid in au.level && au.level[tid] < au.top
    ensures AuditStep(m, au, tid).top == au.top
    ensures Potential(Split(m, tid), AuditStep(m, au, tid)) == Potential(m, au) - 1.0
  {
    hide Split, Shapes, CoordsOk, MidsOk, Disjoint, LevelOk, TopOk, AuditStep, Sum;
    SplitFrame(m, tid);
    WeightsAfter(m, au, tid);
    SumSplit(Weights(au), tid, m.next, (Pow2(au.top - au.level[tid] - 1) - 1) as real);
  }

  lemma {:induction false} PotentialNonNegative(au: Audit, k: nat)
    ensures Sum(Weights(au), k) >= 0.0
  {
    if k > 0 {
      PotentialNonNegative(au, k - 1);
    }
  }
}

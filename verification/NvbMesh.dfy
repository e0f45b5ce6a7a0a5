/** The newest-vertex-bisection mesh of the adaptive finite-element loop, as values: what one
    bisection does to the vertex list, the triangle table and the midpoint tables, and what
    every sequence of bisections of the initial grid keeps. */
module NvbMesh {
  import opened NvbGeometry

  /** An edge key: the smaller vertex index first. */
  datatype Edge = Edge(lo: nat, hi: nat)

  /** Vertex indices and the position (0, 1 or 2) of the newest vertex. */
  datatype Tri = Tri(v0: nat, v1: nat, v2: nat, newest: nat)

  datatype Mesh = Mesh(verts: seq<Point>, tris: map<nat, Tri>, edgeMid: map<Edge, nat>,
                       coordIndex: map<Point, nat>, next: nat)

  function EKey(a: nat, b: nat): Edge { if a < b then Edge(a, b) else Edge(b, a) }

  function Vertex(t: Tri, i: nat): nat {
    if i == 0 then t.v0 else if i == 1 then t.v1 else t.v2
  }

  /** `(i + 1) % 3` for a position. */
  function Next(i: nat): nat { if i == 2 then 0 else i + 1 }

  function RefinementEdge(t: Tri): Edge {
    EKey(Vertex(t, Next(t.newest)), Vertex(t, Next(Next(t.newest))))
  }

  function EdgesOf(t: Tri): set<Edge> { {EKey(t.v0, t.v1), EKey(t.v1, t.v2), EKey(t.v2, t.v0)} }

  predicate IndexOk(verts: seq<Point>, t: Tri) {
    t.v0 < |verts| && t.v1 < |verts| && t.v2 < |verts| && t.newest < 3
  }

  function ShapeOf(verts: seq<Point>, t: Tri): Shape
    requires IndexOk(verts, t)
  {
    var e := RefinementEdge(t);
    Shape(verts[Vertex(t, t.newest)], verts[e.lo], verts[e.hi])
  }

  /** Every index stored in the mesh points at a vertex, and triangle ids are below `next`. */
  predicate Indexed(m: Mesh) {
    && (forall t :: t in m.tris ==> t < m.next && IndexOk(m.verts, m.tris[t]))
    && (forall p :: p in m.coordIndex ==> m.coordIndex[p] < |m.verts|)
    && (forall e :: e in m.edgeMid ==> m.edgeMid[e] < |m.verts|)
  }

  function Shapes(m: Mesh): (shapes: map<nat, Shape>)
    requires Indexed(m)
    ensures shapes.Keys == m.tris.Keys
  {
    map t | t in m.tris :: ShapeOf(m.verts, m.tris[t])
  }

  // ----- the operations -----

  /** `_midpoint`: look the edge up, else reuse a vertex at the same place, else make one. */
  function WithMidpoint(m: Mesh, e: Edge): Mesh
    requires e.lo < |m.verts| && e.hi < |m.verts|
  {
    if e in m.edgeMid then m
    else
      var cand := Mid(m.verts[e.lo], m.verts[e.hi]);
      if cand in m.coordIndex then
        m.(edgeMid := m.edgeMid[e := m.coordIndex[cand]])
      else
        m.(verts := m.verts + [cand],
           coordIndex := m.coordIndex[cand := |m.verts|],
           edgeMid := m.edgeMid[e := |m.verts|])
  }

  /** `_split`: both children carry the midpoint as their newest vertex. */
  function Split(m: Mesh, tid: nat): Mesh
    requires Indexed(m) && tid in m.tris
  {
    var t := m.tris[tid];
    var apex := Vertex(t, t.newest);
    var e := RefinementEdge(t);
    var m1 := WithMidpoint(m, e);
    var mid := m1.edgeMid[e];
    m1.(tris := (m1.tris - {tid})[m1.next := Tri(apex, e.lo, mid, 2)][m1.next + 1 := Tri(apex, e.hi, mid, 2)],
        next := m1.next + 2)
  }

  function RefineTriangle(m: Mesh, tid: nat): (r: Mesh)
    requires Indexed(m)
    ensures Indexed(r)
  {
    if tid in m.tris then Split(m, tid) else m
  }

  /** Bisections of the listed triangles in order; dead ids are passed over. */
  function Run(m: Mesh, tids: seq<nat>): (r: Mesh)
    requires Indexed(m)
    ensures Indexed(r)
  {
    if tids == [] then m else RefineTriangle(Run(m, tids[..|tids| - 1]), tids[|tids| - 1])
  }

  /** A live triangle with a side whose midpoint has been created. */
  predicate Pending(m: Mesh, tid: nat) {
    tid in m.tris && exists e :: e in EdgesOf(m.tris[tid]) && e in m.edgeMid
  }

  // ----- bisection levels -----

  /** The level of every live triangle, and one more than the highest level ever bisected. */
  datatype Audit = Audit(level: map<nat, nat>, top: nat)

  function AuditStep(m: Mesh, au: Audit, tid: nat): Audit
  {
    if tid in m.tris && tid in au.level then
      var k := au.level[tid] + 1;
      Audit((au.level - {tid})[m.next := k][m.next + 1 := k], if au.top < k then k else au.top)
    else au
  }

  function AuditRun(m: Mesh, au: Audit, tids: seq<nat>): Audit
    requires Indexed(m)
  {
    if tids == [] then au
    else
      var rest := tids[..|tids| - 1];
      AuditStep(Run(m, rest), AuditRun(m, au, rest), tids[|tids| - 1])
  }

  /** `x` halved `k` times. */
  function Halved(x: real, k: nat): real {
    if k == 0 then x else Halved(x, k - 1) / 2.0
  }

  lemma {:induction false} HalvedMonotone(x: real, j: nat, k: nat)
    requires j <= k && x > 0.0
    ensures Halved(x, j) >= Halved(x, k) > 0.0
    ensures j < k ==> Halved(x, j) >= 2.0 * Halved(x, k)
  {
    if j < k {
      HalvedMonotone(x, j, k - 1);
    } else if k > 0 {
      HalvedMonotone(x, j - 1, k - 1);
    }
  }

  // ----- what every reachable mesh satisfies -----

  /** Vertices and coordinates determine each other. */
  predicate CoordsOk(verts: seq<Point>, coordIndex: map<Point, nat>) {
    && (forall i :: 0 <= i < |verts| ==> verts[i] in coordIndex && coordIndex[verts[i]] == i)
    && (forall p :: p in coordIndex ==> coordIndex[p] < |verts| && verts[coordIndex[p]] == p)
  }

  /** A recorded midpoint is the midpoint. */
  predicate MidsOk(verts: seq<Point>, edgeMid: map<Edge, nat>) {
    forall e :: e in edgeMid ==>
      && e.lo < |verts| && e.hi < |verts| && edgeMid[e] < |verts|
      && verts[edgeMid[e]] == Mid(verts[e.lo], verts[e.hi])
  }

  /** Right isosceles at the newest vertex; `k` bisections halve the leg square `k` times. */
  predicate LevelOk(leg0: real, s: Shape, k: nat) {
    RightIsosceles(s) && LegSq(s) == Halved(leg0, k)
  }

  predicate LevelsOk(leg0: real, shapes: map<nat, Shape>, level: map<nat, nat>) {
    && level.Keys == shapes.Keys
    && forall t :: t in shapes ==> LevelOk(leg0, shapes[t], level[t])
  }

  ghost predicate Overlap(s: Shape, t: Shape) {
    exists q :: Interior(s, q) && Interior(t, q)
  }

  ghost predicate Inside(s: Shape, t: Shape) {
    forall q :: Interior(s, q) ==> Interior(t, q)
  }

  /** Open interiors are pairwise disjoint. */
  ghost predicate Disjoint(shapes: map<nat, Shape>) {
    forall s, t :: s in shapes && t in shapes && s != t ==> !Overlap(shapes[s], shapes[t])
  }

  /** Squared lengths of the edges that have been bisected. */
  function Lengths(verts: seq<Point>, edgeMid: map<Edge, nat>): map<Edge, real>
    requires MidsOk(verts, edgeMid)
  {
    map e | e in edgeMid :: DistSq(verts[e.lo], verts[e.hi])
  }

  /** No level above `top`; no bisected edge shorter than the refinement edges of level `top - 1`. */
  predicate TopOk(leg0: real, lengths: map<Edge, real>, au: Audit) {
    && (forall t :: t in au.level ==> au.level[t] <= au.top)
    && (forall e :: e in lengths ==> lengths[e] >= 4.0 * Halved(leg0, au.top))
  }

  ghost predicate Wf(leg0: real, m: Mesh, au: Audit) {
    && leg0 > 0.0 && Indexed(m) && CoordsOk(m.verts, m.coordIndex) && MidsOk(m.verts, m.edgeMid)
    && LevelsOk(leg0, Shapes(m), au.level) && Disjoint(Shapes(m)) && TopOk(leg0, Lengths(m.verts, m.edgeMid), au)
  }

  // ----- one bisection keeps it -----

  lemma WithMidpointCoords(m: Mesh, e: Edge)
    requires CoordsOk(m.verts, m.coordIndex) && e.lo < |m.verts| && e.hi < |m.verts|
    ensures var r := WithMidpoint(m, e); CoordsOk(r.verts, r.coordIndex)
  {
  }

  lemma WithMidpointMids(m: Mesh, e: Edge)
    requires CoordsOk(m.verts, m.coordIndex) && MidsOk(m.verts, m.edgeMid) && e.lo < |m.verts| && e.hi < |m.verts|
    ensures var r := WithMidpoint(m, e); MidsOk(r.verts, r.edgeMid)
  {
    hide Mid;
  }

  lemma WithMidpointFrame(m: Mesh, e: Edge)
    requires e.lo < |m.verts| && e.hi < |m.verts|
    ensures var r := WithMidpoint(m, e);
      && r.tris == m.tris && r.next == m.next
      && m.verts <= r.verts && r.edgeMid.Keys == m.edgeMid.Keys + {e}
  {
  }

  lemma WithMidpointKeeps(m: Mesh, e: Edge)
    requires CoordsOk(m.verts, m.coordIndex) && MidsOk(m.verts, m.edgeMid) && e.lo < |m.verts| && e.hi < |m.verts|
    ensures var r := WithMidpoint(m, e);
      && CoordsOk(r.verts, r.coordIndex) && MidsOk(r.verts, r.edgeMid) && r.tris == m.tris && r.next == m.next
      && m.verts <= r.verts && r.edgeMid.Keys == m.edgeMid.Keys + {e}
      && r.verts[r.edgeMid[e]] == Mid(m.verts[e.lo], m.verts[e.hi])
  {
    WithMidpointCoords(m, e);
    WithMidpointMids(m, e);
    WithMidpointFrame(m, e);
    assert e in WithMidpoint(m, e).edgeMid;
  }

  lemma ChildTriShape(verts: seq<Point>, apex: nat, x: nat, mid: nat)
    requires apex < |verts| && x < |verts| && mid < |verts|
    ensures var h := Shape(verts[mid], verts[apex], verts[x]);
      ShapeOf(verts, Tri(apex, x, mid, 2)) in {h, Flip(h)}
  {
  }

  /** Only the split triangle leaves, two new ones enter, and old vertices stay put. */
  lemma SplitFrame(m: Mesh, tid: nat)
    requires Indexed(m) && tid in m.tris
    ensures var r := Split(m, tid);
      && r.next == m.next + 2
      && r.tris.Keys == m.tris.Keys - {tid} + {m.next, m.next + 1}
      && m.verts <= r.verts
      && forall t :: t in m.tris && t != tid ==> t in r.tris && r.tris[t] == m.tris[t]
  {
    WithMidpointFrame(m, RefinementEdge(m.tris[tid]));
  }

  /** Appending vertices does not move a triangle. */
  lemma SameShape(verts: seq<Point>, verts': seq<Point>, t: Tri)
    requires IndexOk(verts, t) && verts <= verts'
    ensures ShapeOf(verts', t) == ShapeOf(verts, t)
  {
  }

  /** The two children, as shapes, are the two halves of the parent. */
  lemma ChildShapes(m: Mesh, tid: nat)
    requires Indexed(m) && CoordsOk(m.verts, m.coordIndex) && MidsOk(m.verts, m.edgeMid) && tid in m.tris
    ensures var r := Split(m, tid);
      var s := ShapeOf(m.verts, m.tris[tid]);
      && m.next in r.tris && m.next + 1 in r.tris && Indexed(r)
      && ShapeOf(r.verts, r.tris[m.next]) in {HalfA(s), Flip(HalfA(s))}
      && ShapeOf(r.verts, r.tris[m.next + 1]) in {HalfB(s), Flip(HalfB(s))}
  {
    hide CoordsOk, WithMidpoint;
    var r := Split(m, tid);
    var t := m.tris[tid];
    var apex, e := Vertex(t, t.newest), RefinementEdge(t);
    WithMidpointKeeps(m, e);
    assert r == RefineTriangle(m, tid);
    var mid := r.edgeMid[e];
    assert r.tris[m.next] == Tri(apex, e.lo, mid, 2) && r.tris[m.next + 1] == Tri(apex, e.hi, mid, 2);
    ChildTriShape(r.verts, apex, e.lo, mid);
    ChildTriShape(r.verts, apex, e.hi, mid);
  }

  lemma ShapesFrame(m: Mesh, r: Mesh, tid: nat)
    requires Indexed(m) && Indexed(r) && tid in m.tris && m.verts <= r.verts
    requires r.tris.Keys == m.tris.Keys - {tid} + {m.next, m.next + 1}
    requires forall t :: t in m.tris && t != tid ==> r.tris[t] == m.tris[t]
    ensures Shapes(r) == (Shapes(m) - {tid})[m.next := Shapes(r)[m.next]][m.next + 1 := Shapes(r)[m.next + 1]]
  {
    hide ShapeOf;
    forall t | t in m.tris && t != tid
      ensures Shapes(r)[t] == Shapes(m)[t]
    {
      SameShape(m.verts, r.verts, m.tris[t]);
    }
  }

  /** The table of shapes after a bisection. */
  lemma SplitShapes(m: Mesh, tid: nat) returns (ha: Shape, hb: Shape)
    requires Indexed(m) && CoordsOk(m.verts, m.coordIndex) && MidsOk(m.verts, m.edgeMid) && tid in m.tris
    ensures Indexed(Split(m, tid))
    ensures ha in {HalfA(Shapes(m)[tid]), Flip(HalfA(Shapes(m)[tid]))}
    ensures hb in {HalfB(Shapes(m)[tid]), Flip(HalfB(Shapes(m)[tid]))}
    ensures Shapes(Split(m, tid)) == (Shapes(m) - {tid})[m.next := ha][m.next + 1 := hb]
  {
    hide ShapeOf, CoordsOk, MidsOk, HalfA, HalfB, Flip;
    ChildShapes(m, tid);
    SplitFrame(m, tid);
    var r := Split(m, tid);
    ShapesFrame(m, r, tid);
    ha, hb := Shapes(r)[m.next], Shapes(r)[m.next + 1];
  }

  lemma LevelOfHalf(leg0: real, s: Shape, k: nat, h: Shape)
    requires LevelOk(leg0, s, k)
    requires h in {HalfA(s), Flip(HalfA(s)), HalfB(s), Flip(HalfB(s))}
    ensures LevelOk(leg0, h, k + 1)
    ensures Inside(h, s)
    ensures Area(h) == Area(s) / 2.0
  {
    BisectionGeometry(s);
    FlipSame(HalfA(s));
    FlipSame(HalfB(s));
    AreaOfRightIsosceles(s);
    AreaOfRightIsosceles(h);
  }

  lemma HalvesApart(leg0: real, s: Shape, k: nat, h: Shape, g: Shape)
    requires LevelOk(leg0, s, k)
    requires h in {HalfA(s), Flip(HalfA(s))} && g in {HalfB(s), Flip(HalfB(s))}
    ensures Inside(h, s) && Inside(g, s) && !Overlap(h, g)
  {
    LevelOfHalf(leg0, s, k, h);
    LevelOfHalf(leg0, s, k, g);
    BisectionGeometry(s);
    FlipSame(HalfA(s));
    FlipSame(HalfB(s));
  }

  lemma DisjointAfter(shapes: map<nat, Shape>, tid: nat, next: nat, ha: Shape, hb: Shape)
    requires Disjoint(shapes) && tid in shapes && Inside(ha, shapes[tid]) && Inside(hb, shapes[tid])
    requires !Overlap(ha, hb)
    requires next !in shapes && next + 1 !in shapes
    ensures Disjoint((shapes - {tid})[next := ha][next + 1 := hb])
  {
  }

  lemma LengthsAfter(verts: seq<Point>, edgeMid: map<Edge, nat>, verts': seq<Point>, edgeMid': map<Edge, nat>, e: Edge)
    requires MidsOk(verts, edgeMid) && MidsOk(verts', edgeMid') && verts <= verts'
    requires e.lo < |verts| && e.hi < |verts| && edgeMid'.Keys == edgeMid.Keys + {e}
    ensures Lengths(verts', edgeMid') == Lengths(verts, edgeMid)[e := DistSq(verts[e.lo], verts[e.hi])]
  {
    hide DistSq;
  }

  lemma TopAfter(leg0: real, lengths: map<Edge, real>, m: Mesh, au: Audit, tid: nat, e: Edge, s: Shape)
    requires TopOk(leg0, lengths, au) && leg0 > 0.0 && tid in m.tris && tid in au.level
    requires LevelOk(leg0, s, au.level[tid])
    ensures TopOk(leg0, lengths[e := DistSq(s.a, s.b)], AuditStep(m, au, tid))
  {
    var au' := AuditStep(m, au, tid);
    FlipSame(s);
    HalvedMonotone(leg0, au.top, au'.top);
    HalvedMonotone(leg0, au.level[tid] + 1, au'.top);
  }

  lemma SplitKeepsEdges(m: Mesh, tid: nat)
    requires Indexed(m) && CoordsOk(m.verts, m.coordIndex) && MidsOk(m.verts, m.edgeMid) && tid in m.tris
    ensures var r, s := Split(m, tid), Shapes(m)[tid];
      && CoordsOk(r.verts, r.coordIndex) && MidsOk(r.verts, r.edgeMid)
      && Lengths(r.verts, r.edgeMid) == Lengths(m.verts, m.edgeMid)[RefinementEdge(m.tris[tid]) := DistSq(s.a, s.b)]
  {
    hide DistSq, CoordsOk, MidsOk, Lengths;
    var e := RefinementEdge(m.tris[tid]);
    WithMidpointKeeps(m, e);
    var m1, r := WithMidpoint(m, e), Split(m, tid);
    assert r.verts == m1.verts && r.edgeMid == m1.edgeMid && r.coordIndex == m1.coordIndex;
    LengthsAfter(m.verts, m.edgeMid, r.verts, r.edgeMid, e);
  }

  lemma LevelsAfter(leg0: real, shapes: map<nat, Shape>, m: Mesh, au: Audit, tid: nat, ha: Shape, hb: Shape)
    requires LevelsOk(leg0, shapes, au.level) && tid in shapes && tid in m.tris
    requires ha in {HalfA(shapes[tid]), Flip(HalfA(shapes[tid]))}
    requires hb in {HalfB(shapes[tid]), Flip(HalfB(shapes[tid]))}
    ensures LevelsOk(leg0, (shapes - {tid})[m.next := ha][m.next + 1 := hb], AuditStep(m, au, tid).level)
  {
    LevelOfHalf(leg0, shapes[tid], au.level[tid], ha);
    LevelOfHalf(leg0, shapes[tid], au.level[tid], hb);
  }

  lemma SplitKeepsWf(leg0: real, m: Mesh, au: Audit, tid: nat)
    requires Wf(leg0, m, au) && tid in m.tris
    ensures Indexed(Split(m, tid)) && Wf(leg0, Split(m, tid), AuditStep(m, au, tid))
  {
    hide ShapeOf, Shapes, Lengths, CoordsOk, MidsOk, HalfA, HalfB, Flip, Split, Disjoint, LevelOk, AuditStep, TopOk;
    var s := Shapes(m)[tid];
    var ha, hb := SplitShapes(m, tid);
    LevelsAfter(leg0, Shapes(m), m, au, tid, ha, hb);
    HalvesApart(leg0, s, au.level[tid], ha, hb);
    DisjointAfter(Shapes(m), tid, m.next, ha, hb);
    SplitKeepsEdges(m, tid);
    TopAfter(leg0, Lengths(m.verts, m.edgeMid), m, au, tid, RefinementEdge(m.tris[tid]), s);
  }

  lemma RefineKeepsWf(leg0: real, m: Mesh, au: Audit, tid: nat)
    requires Wf(leg0, m, au)
    ensures Wf(leg0, RefineTriangle(m, tid), AuditStep(m, au, tid))
  {
    hide Wf, Split;
    if tid in m.tris {
      SplitKeepsWf(leg0, m, au, tid);
    }
  }

  lemma {:induction false} RunKeepsWf(leg0: real, m: Mesh, au: Audit, tids: seq<nat>)
    requires Wf(leg0, m, au)
    ensures Wf(leg0, Run(m, tids), AuditRun(m, au, tids))
  {
    if tids != [] {
      var rest := tids[..|tids| - 1];
      RunKeepsWf(leg0, m, au, rest);
      RefineKeepsWf(leg0, Run(m, rest), AuditRun(m, au, rest), tids[|tids| - 1]);
    }
  }
}

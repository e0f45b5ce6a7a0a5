/** Plane geometry of newest-vertex bisection, in exact reals.

  A triangle is seen from its newest vertex: `apex` is that vertex and `a`, `b` are the
  ends of the refinement edge opposite to it.  Every fact needed about a bisection is
  linear once a point is described by its two inner products with the legs (`Along`).
 */
module NvbGeometry {

  datatype Point = Point(x: real, y: real)

  datatype Shape = Shape(apex: Point, a: Point, b: Point)

  function Mid(p: Point, q: Point): Point {
    Point((p.x + q.x) / 2.0, (p.y + q.y) / 2.0)
  }

  function DistSq(p: Point, q: Point): real {
    (p.x - q.x) * (p.x - q.x) + (p.y - q.y) * (p.y - q.y)
  }

  /** Inner product of the leg `apex -> to` with `apex -> q`. */
  function Along(apex: Point, to: Point, q: Point): real {
    (q.x - apex.x) * (to.x - apex.x) + (q.y - apex.y) * (to.y - apex.y)
  }

  /** The leg to `b` is the leg to `a` turned by a quarter, one way or the other. */
  predicate QuarterTurn(t: Shape) {
    || (t.b.x - t.apex.x == t.apex.y - t.a.y && t.b.y - t.apex.y == t.a.x - t.apex.x)
    || (t.b.x - t.apex.x == t.a.y - t.apex.y && t.b.y - t.apex.y == t.apex.x - t.a.x)
  }

  /** Right isosceles with the right angle at the apex, and not degenerate. */
  predicate RightIsosceles(t: Shape) {
    QuarterTurn(t) && t.a != t.apex
  }

  function LegSq(t: Shape): real {
    DistSq(t.a, t.apex)
  }

  /** The shoelace formula. */
  function Area(t: Shape): real {
    var cross := (t.a.x - t.apex.x) * (t.b.y - t.apex.y) - (t.a.y - t.apex.y) * (t.b.x - t.apex.x);
    (if cross < 0.0 then -cross else cross) / 2.0
  }

  /** Strictly inside, in the coordinates of the two legs. */
  predicate Interior(t: Shape, q: Point) {
    && Along(t.apex, t.a, q) > 0.0
    && Along(t.apex, t.b, q) > 0.0
    && Along(t.apex, t.a, q) + Along(t.apex, t.b, q) < LegSq(t)
  }

  /** The two halves made by joining the apex to the middle of the refinement edge. */
  function HalfA(t: Shape): Shape { Shape(Mid(t.a, t.b), t.apex, t.a) }

  function HalfB(t: Shape): Shape { Shape(Mid(t.a, t.b), t.apex, t.b) }

  function Flip(t: Shape): Shape { Shape(t.apex, t.b, t.a) }

  lemma ProductPositive(x: real, y: real, s: real)
    requires x > 0.0 && y > 0.0 && s == x * y
    ensures s > 0.0
  {
  }

  lemma SquarePositive(x: real, s: real)
    requires s == x * x
    ensures s >= 0.0 && (x != 0.0 ==> s > 0.0)
  {
    if x < 0.0 {
      ProductPositive(-x, -x, s);
    } else if x > 0.0 {
      ProductPositive(x, x, s);
    }
  }

  lemma SumOfSquaresPositive(x: real, y: real, d: real)
    requires x != 0.0 || y != 0.0
    requires d == x * x + y * y
    ensures d > 0.0
  {
    var s, r := x * x, y * y;
    SquarePositive(x, s);
    SquarePositive(y, r);
  }

  lemma DistSqSymmetric(p: Point, q: Point)
    ensures DistSq(p, q) == DistSq(q, p)
  {
  }

  lemma DistSqPositive(p: Point, q: Point)
    requires p != q
    ensures DistSq(p, q) > 0.0
  {
    SumOfSquaresPositive(p.x - q.x, p.y - q.y, DistSq(p, q));
  }

  /** Products of a vector and its quarter turn. */
  lemma TurnProducts(ux: real, uy: real, vx: real, vy: real)
    requires (vx == -uy && vy == ux) || (vx == uy && vy == -ux)
    ensures ux * vx + uy * vy == 0.0
    ensures vx * vx + vy * vy == ux * ux + uy * uy
    ensures (ux - vx) * (ux - vx) + (uy - vy) * (uy - vy) == 2.0 * (ux * ux + uy * uy)
    ensures (ux + vx) * (ux + vx) + (uy + vy) * (uy + vy) == 2.0 * (ux * ux + uy * uy)
  {
  }

  /** The same, for the legs of a triangle. */
  lemma LegProducts(t: Shape, ux: real, uy: real, vx: real, vy: real)
    requires RightIsosceles(t)
    requires ux == t.a.x - t.apex.x && uy == t.a.y - t.apex.y
    requires vx == t.b.x - t.apex.x && vy == t.b.y - t.apex.y
    ensures ux * vx + uy * vy == 0.0
    ensures ux * ux + uy * uy == LegSq(t) > 0.0
    ensures vx * vx + vy * vy == LegSq(t) == DistSq(t.b, t.apex)
    ensures DistSq(t.a, t.b) == 2.0 * LegSq(t)
  {
    DistSqPositive(t.a, t.apex);
    TurnProducts(ux, uy, vx, vy);
    assert t.a.x - t.b.x == ux - vx && t.a.y - t.b.y == uy - vy;
  }

  /** Swapping the ends of the refinement edge changes nothing that matters. */
  lemma FlipSame(t: Shape)
    requires RightIsosceles(t)
    ensures RightIsosceles(Flip(t))
    ensures LegSq(Flip(t)) == LegSq(t)
    ensures DistSq(t.a, t.b) == 2.0 * LegSq(t)
    ensures forall q :: Interior(Flip(t), q) <==> Interior(t, q)
  {
    LegProducts(t, t.a.x - t.apex.x, t.a.y - t.apex.y, t.b.x - t.apex.x, t.b.y - t.apex.y);
    hide DistSq, Along;
  }

  lemma AreaOfRightIsosceles(t: Shape)
    requires RightIsosceles(t)
    ensures Area(t) == LegSq(t) / 2.0
  {
    var ux, uy := t.a.x - t.apex.x, t.a.y - t.apex.y;
    assert LegSq(t) == ux * ux + uy * uy;
    DistSqPositive(t.a, t.apex);
  }

  /** One half of a bisection: right isosceles with the right angle at the midpoint, half
      the leg square, and its interior is the part of the parent nearer to its own end. */
  lemma HalfIsRightIsosceles(t: Shape)
    requires RightIsosceles(t)
    ensures RightIsosceles(HalfA(t))
    ensures LegSq(HalfA(t)) == LegSq(t) / 2.0
  {
  }

  lemma HalfInterior(t: Shape, q: Point)
    requires RightIsosceles(t)
    ensures Interior(HalfA(t), q)
       <==> Interior(t, q) && Along(t.apex, t.a, q) > Along(t.apex, t.b, q)
  {
    HalfIsRightIsosceles(t);
    HalfCoordinates(t, q);
  }

  /** Coordinates of a point in the half, in terms of its coordinates in the parent. */
  lemma HalfCoordinates(t: Shape, q: Point)
    requires RightIsosceles(t)
    ensures Along(HalfA(t).apex, t.apex, q)
         == (LegSq(t) - Along(t.apex, t.a, q) - Along(t.apex, t.b, q)) / 2.0
    ensures Along(HalfA(t).apex, t.a, q)
         == (Along(t.apex, t.a, q) - Along(t.apex, t.b, q)) / 2.0
  {
  }

  /** What a bisection does to a right isosceles triangle: both halves are right isosceles
      with half the leg square, they lie inside it, and they do not overlap. */
  lemma BisectionGeometry(t: Shape)
    requires RightIsosceles(t)
    ensures RightIsosceles(HalfA(t)) && RightIsosceles(HalfB(t))
    ensures LegSq(HalfA(t)) == LegSq(t) / 2.0 == LegSq(HalfB(t))
    ensures Area(HalfA(t)) + Area(HalfB(t)) == Area(t)
    ensures forall q :: Interior(HalfA(t), q) || Interior(HalfB(t), q) ==> Interior(t, q)
    ensures forall q :: !(Interior(HalfA(t), q) && Interior(HalfB(t), q))
  {
    FlipSame(t);
    HalfIsRightIsosceles(t);
    HalfIsRightIsosceles(Flip(t));
    assert HalfA(Flip(t)) == HalfB(t);
    AreaOfRightIsosceles(t);
    AreaOfRightIsosceles(HalfA(t));
    AreaOfRightIsosceles(HalfB(t));
    forall q
      ensures Interior(HalfA(t), q) || Interior(HalfB(t), q) ==> Interior(t, q)
      ensures !(Interior(HalfA(t), q) && Interior(HalfB(t), q))
    {
      HalfInterior(t, q);
      HalfInterior(Flip(t), q);
    }
  }

  // ----- probe points: one on each side of an edge -----

  /** A point a quarter of the edge's length away from its middle, on a chosen side. */
  function Probe(p: Point, q: Point, left: bool): Point {
    var m := Mid(p, q);
    if left then Point(m.x - (q.y - p.y) / 4.0, m.y + (q.x - p.x) / 4.0)
    else Point(m.x + (q.y - p.y) / 4.0, m.y - (q.x - p.x) / 4.0)
  }

  lemma ProbeSwap(p: Point, q: Point)
    ensures Probe(p, q, true) == Probe(q, p, false)
    ensures Probe(p, q, false) == Probe(q, p, true)
  {
  }

  /** The point `s` along one leg and `r` along the other. */
  function Combine(t: Shape, s: real, r: real): Point {
    Point(t.apex.x + s * (t.a.x - t.apex.x) + r * (t.b.x - t.apex.x),
          t.apex.y + s * (t.a.y - t.apex.y) + r * (t.b.y - t.apex.y))
  }

  lemma ProbeInLeg(t: Shape)
    requires RightIsosceles(t)
    ensures Interior(t, Probe(t.apex, t.a, true)) || Interior(t, Probe(t.apex, t.a, false))
  {
    var ux, uy := t.a.x - t.apex.x, t.a.y - t.apex.y;
    var vx, vy := t.b.x - t.apex.x, t.b.y - t.apex.y;
    var q := Combine(t, 0.5, 0.25);
    assert q in {Probe(t.apex, t.a, true), Probe(t.apex, t.a, false)};
    assert Interior(t, q) by {
      LegProducts(t, ux, uy, vx, vy);
      assert q.x - t.apex.x == 0.5 * ux + 0.25 * vx && q.y - t.apex.y == 0.5 * uy + 0.25 * vy;
      assert Along(t.apex, t.a, q) == 0.5 * (ux * ux + uy * uy) + 0.25 * (ux * vx + uy * vy);
      assert Along(t.apex, t.b, q) == 0.5 * (ux * vx + uy * vy) + 0.25 * (vx * vx + vy * vy);
    }
  }

  lemma ProbeInHypotenuse(t: Shape)
    requires RightIsosceles(t)
    ensures Interior(t, Probe(t.a, t.b, true)) || Interior(t, Probe(t.a, t.b, false))
  {
    var ux, uy := t.a.x - t.apex.x, t.a.y - t.apex.y;
    var vx, vy := t.b.x - t.apex.x, t.b.y - t.apex.y;
    var q := Combine(t, 0.25, 0.25);
    assert q in {Probe(t.a, t.b, true), Probe(t.a, t.b, false)};
    assert Interior(t, q) by {
      LegProducts(t, ux, uy, vx, vy);
      assert q.x - t.apex.x == 0.25 * ux + 0.25 * vx && q.y - t.apex.y == 0.25 * uy + 0.25 * vy;
      assert Along(t.apex, t.a, q) == 0.25 * (ux * ux + uy * uy) + 0.25 * (ux * vx + uy * vy);
      assert Along(t.apex, t.b, q) == 0.25 * (ux * vx + uy * vy) + 0.25 * (vx * vx + vy * vy);
    }
  }

  /** The centroid does not depend on which vertex is called the apex. */
  function Centroid(p: Point, q: Point, r: Point): Point {
    Point((p.x + q.x + r.x) / 3.0, (p.y + q.y + r.y) / 3.0)
  }

  lemma CentroidInside(t: Shape)
    requires RightIsosceles(t)
    ensures Interior(t, Centroid(t.apex, t.a, t.b))
  {
    var ux, uy := t.a.x - t.apex.x, t.a.y - t.apex.y;
    var vx, vy := t.b.x - t.apex.x, t.b.y - t.apex.y;
    var q := Centroid(t.apex, t.a, t.b);
    LegProducts(t, ux, uy, vx, vy);
    assert q.x - t.apex.x == (ux + vx) / 3.0 && q.y - t.apex.y == (uy + vy) / 3.0;
    assert Along(t.apex, t.a, q) == ((ux * ux + uy * uy) + (ux * vx + uy * vy)) / 3.0;
    assert Along(t.apex, t.b, q) == ((ux * vx + uy * vy) + (vx * vx + vy * vy)) / 3.0;
  }

  /** `p`-`q` is one of the sides, in either direction. */
  predicate HasSide(t: Shape, p: Point, q: Point) {
    || (p == t.apex && (q == t.a || q == t.b))
    || (q == t.apex && (p == t.a || p == t.b))
    || (p == t.a && q == t.b)
    || (p == t.b && q == t.a)
  }

  /** Whichever way a right isosceles triangle sits on an edge, it contains one of the two
      probe points of that edge. */
  lemma SideHasProbe(t: Shape, p: Point, q: Point)
    requires RightIsosceles(t) && HasSide(t, p, q)
    ensures Interior(t, Probe(p, q, true)) || Interior(t, Probe(p, q, false))
  {
    FlipSame(t);
    ProbeInLeg(t);
    ProbeInLeg(Flip(t));
    ProbeInHypotenuse(t);
    ProbeSwap(t.apex, t.a);
    ProbeSwap(t.apex, t.b);
    ProbeSwap(t.a, t.b);
  }

  /** A side is at most the refinement edge long. */
  lemma SideLength(t: Shape, p: Point, q: Point)
    requires RightIsosceles(t) && HasSide(t, p, q)
    ensures DistSq(p, q) <= 2.0 * LegSq(t)
    ensures DistSq(p, q) > 0.0
  {
    FlipSame(t);
    DistSqPositive(t.a, t.apex);
    DistSqSymmetric(t.a, t.apex);
    DistSqSymmetric(t.b, t.apex);
    DistSqSymmetric(t.a, t.b);
    hide DistSq, Interior;
    assert DistSq(p, q) == DistSq(t.a, t.b) || DistSq(p, q) == DistSq(t.a, t.apex) || DistSq(p, q) == DistSq(t.b, t.apex);
  }
}

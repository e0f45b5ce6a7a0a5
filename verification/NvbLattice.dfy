/** The lattice edges of the bisection hierarchy.  Every edge a mesh can ever have joins neighbours of a grid
    of spacing 1/(n 2^k): along an axis, or along the one diagonal of a cell that the hierarchy uses.  Two such edges
    never cross, and of two that share an inner point one is part of the other. */
module NvbLattice {
  import opened NvbGeometry

  /** The point a fraction `t` of the way from `a` to `b`. */
  function Partway(a: Point, b: Point, t: real): Point {
    Point(a.x + t * (b.x - a.x), a.y + t * (b.y - a.y))
  }

  /** `p` lies in the open segment from `a` to `b`. */
  ghost predicate InOpenSegment(a: Point, b: Point, p: Point) {
    exists t :: 0.0 < t < 1.0 && p == Partway(a, b, t)
  }

  // ----- grid coordinates -----

  /** How many spacings of level `k` make one. */
  function Scale(n: nat, k: nat): (s: real)
    requires n >= 1
    ensures s >= 1.0
  {
    if k == 0 then n as real else 2.0 * Scale(n, k - 1)
  }

  datatype Node = Node(x: int, y: int)

  /** The grid point of level `k` at or below `p`. */
  function NodeOf(n: nat, k: nat, p: Point): Node
    requires n >= 1
  {
    Node((p.x * Scale(n, k)).Floor, (p.y * Scale(n, k)).Floor)
  }

  predicate OnGrid(n: nat, k: nat, p: Point)
    requires n >= 1
  {
    var q := NodeOf(n, k, p);
    p.x * Scale(n, k) == q.x as real && p.y * Scale(n, k) == q.y as real
  }

  lemma NodeIs(n: nat, k: nat, p: Point, x: int, y: int)
    requires n >= 1 && p.x * Scale(n, k) == x as real && p.y * Scale(n, k) == y as real
    ensures OnGrid(n, k, p) && NodeOf(n, k, p) == Node(x, y)
  {
    hide Scale;
    var u, v := p.x * Scale(n, k), p.y * Scale(n, k);
    FloorIs(u, x);
    FloorIs(v, y);
    assert NodeOf(n, k, p) == Node(u.Floor, v.Floor);
  }

  lemma FloorIs(v: real, x: int)
    requires v == x as real
    ensures v.Floor == x
  {
  }

  lemma ScaleDoubles(n: nat, k: nat)
    requires n >= 1
    ensures Scale(n, k + 1) == 2.0 * Scale(n, k)
  {
  }

  lemma TwiceScale(x: real, s: real)
    ensures x * (2.0 * s) == 2.0 * (x * s)
  {
  }

  lemma DoubledGrid(n: nat, k: nat, p: Point)
    requires n >= 1 && OnGrid(n, k, p)
    ensures OnGrid(n, k + 1, p) && NodeOf(n, k + 1, p) == Node(2 * NodeOf(n, k, p).x, 2 * NodeOf(n, k, p).y)
    ensures NodeOf(n, k + 1, p).x % 2 == 0 && NodeOf(n, k + 1, p).y % 2 == 0
  {
    hide Scale;
    ScaleDoubles(n, k);
    var q, s := NodeOf(n, k, p), Scale(n, k);
    TwiceScale(p.x, s);
    TwiceScale(p.y, s);
    NodeIs(n, k + 1, p, 2 * q.x, 2 * q.y);
  }

  /** A point of a coarser grid has even coordinates on every finer one. */
  lemma {:induction false} FinerGrid(n: nat, k: nat, l: nat, p: Point)
    requires n >= 1 && k <= l && OnGrid(n, k, p)
    ensures OnGrid(n, l, p)
    ensures k < l ==> NodeOf(n, l, p).x % 2 == 0 && NodeOf(n, l, p).y % 2 == 0
    ensures l == k + 1 ==> NodeOf(n, l, p) == Node(2 * NodeOf(n, k, p).x, 2 * NodeOf(n, k, p).y)
  {
    hide OnGrid, NodeOf, Scale;
    if k < l {
      FinerGrid(n, k, l - 1, p);
      DoubledGrid(n, l - 1, p);
    }
  }

  /** The midpoint of two grid points, in doubled coordinates. */
  lemma MidDoubled(n: nat, k: nat, p: Point, q: Point)
    requires n >= 1 && OnGrid(n, k, p) && OnGrid(n, k, q)
    ensures OnGrid(n, k + 1, Mid(p, q))
    ensures var a, b := NodeOf(n, k, p), NodeOf(n, k, q); NodeOf(n, k + 1, Mid(p, q)) == Node(a.x + b.x, a.y + b.y)
  {
    hide Scale;
    ScaleDoubles(n, k);
    var a, b, s := NodeOf(n, k, p), NodeOf(n, k, q), Scale(n, k);
    HalfSum(p.x, q.x, s);
    HalfSum(p.y, q.y, s);
    NodeIs(n, k + 1, Mid(p, q), a.x + b.x, a.y + b.y);
  }

  lemma HalfSum(x: real, y: real, s: real)
    ensures (x + y) / 2.0 * (2.0 * s) == x * s + y * s
  {
  }

  lemma SamePoint(n: nat, k: nat, p: Point, q: Point)
    requires n >= 1 && OnGrid(n, k, p) && OnGrid(n, k, q) && NodeOf(n, k, p) == NodeOf(n, k, q)
    ensures p == q
  {
    Cancel(p.x, q.x, Scale(n, k));
    Cancel(p.y, q.y, Scale(n, k));
  }

  lemma Cancel(x: real, y: real, s: real)
    requires s > 0.0 && x * s == y * s
    ensures x == y
  {
    assert (x - y) * s == 0.0;
  }

  // ----- lattice edges -----

  predicate AxisStep(a: Node, b: Node) {
    (a.y == b.y && (b.x - a.x == 1 || b.x - a.x == -1)) || (a.x == b.x && (b.y - a.y == 1 || b.y - a.y == -1))
  }

  /** The diagonal the hierarchy uses: falling in the initial grid, through the odd points of every finer one. */
  predicate DiagonalStep(k: nat, a: Node, b: Node) {
    && (b.x - a.x == 1 || b.x - a.x == -1) && (b.y - a.y == 1 || b.y - a.y == -1)
    && (if k == 0 then b.x - a.x == a.y - b.y else (a.x + a.y) % 2 == 0)
  }

  predicate AxisEdge(n: nat, k: nat, p: Point, q: Point)
    requires n >= 1
  {
    OnGrid(n, k, p) && OnGrid(n, k, q) && AxisStep(NodeOf(n, k, p), NodeOf(n, k, q))
  }

  predicate DiagonalEdge(n: nat, k: nat, p: Point, q: Point)
    requires n >= 1
  {
    OnGrid(n, k, p) && OnGrid(n, k, q) && DiagonalStep(k, NodeOf(n, k, p), NodeOf(n, k, q))
  }

  predicate LatticeEdge(n: nat, k: nat, p: Point, q: Point)
    requires n >= 1
  {
    AxisEdge(n, k, p, q) || DiagonalEdge(n, k, p, q)
  }

  lemma EdgeTurns(n: nat, k: nat, p: Point, q: Point)
    requires n >= 1
    ensures AxisEdge(n, k, p, q) <==> AxisEdge(n, k, q, p)
    ensures DiagonalEdge(n, k, p, q) <==> DiagonalEdge(n, k, q, p)
  {
    hide OnGrid, NodeOf;
  }

  // ----- inner points, in doubled grid coordinates -----

  predicate StrictlyBetween(a: int, m: int, b: int) { (2 * a < m < 2 * b) || (2 * b < m < 2 * a) }

  /** `m`, in doubled coordinates, lies in the open segment from `a` to `b`, which runs along an axis or a diagonal. */
  predicate Aligned(a: Node, b: Node, m: Node) {
    if a.y == b.y then m.y == 2 * a.y && StrictlyBetween(a.x, m.x, b.x)
    else if a.x == b.x then m.x == 2 * a.x && StrictlyBetween(a.y, m.y, b.y)
    else
      && StrictlyBetween(a.x, m.x, b.x)
      && (if b.x - a.x == b.y - a.y then m.x - 2 * a.x == m.y - 2 * a.y else m.x - 2 * a.x == 2 * a.y - m.y)
  }

  predicate Straight(a: Node, b: Node) {
    a != b && (a.x == b.x || a.y == b.y || b.x - a.x == b.y - a.y || b.x - a.x == a.y - b.y)
  }

  /** A fraction of a number of grid steps. */
  function Part(t: real, d: int): real { t * d as real }

  lemma PartFacts(t: real, d: int)
    requires 0.0 < t < 1.0
    ensures Part(t, 0) == 0.0 && Part(t, -d) == -Part(t, d)
    ensures d > 0 ==> 0.0 < Part(t, d) < d as real
    ensures d < 0 ==> d as real < Part(t, d) < 0.0
  {
    var x := d as real;
    if d > 0 {
      ProductPositive(t, x, t * x);
      ProductPositive(1.0 - t, x, (1.0 - t) * x);
      assert (1.0 - t) * x == x - t * x;
    } else if d < 0 {
      ProductPositive(t, -x, t * -x);
      ProductPositive(1.0 - t, -x, (1.0 - t) * -x);
      assert (1.0 - t) * -x == -x - t * -x && t * -x == -(t * x);
    }
  }

  lemma FractionDoubled(x: real, y: real, z: real, t: real, s: real, a: int, b: int, m: int)
    requires x * s == a as real && y * s == b as real && z * (2.0 * s) == m as real && z == x + t * (y - x)
    ensures m as real == 2.0 * a as real + 2.0 * Part(t, b - a)
  {
    assert z * (2.0 * s) == 2.0 * (x * s) + 2.0 * (t * (y * s - x * s));
  }

  lemma FractionAligned(a: Node, b: Node, m: Node, t: real)
    requires Straight(a, b) && 0.0 < t < 1.0
    requires m.x as real == 2.0 * a.x as real + 2.0 * Part(t, b.x - a.x)
    requires m.y as real == 2.0 * a.y as real + 2.0 * Part(t, b.y - a.y)
    ensures Aligned(a, b, m)
  {
    hide Part;
    PartFacts(t, b.x - a.x);
    PartFacts(t, b.y - a.y);
  }

  /** Segment membership, read off the grid that carries the ends and the halves of its cells. */
  lemma InnerMeansAligned(n: nat, k: nat, p: Point, q: Point, r: Point)
    requires n >= 1 && OnGrid(n, k, p) && OnGrid(n, k, q) && OnGrid(n, k + 1, r) && Straight(NodeOf(n, k, p), NodeOf(n, k, q))
    requires InOpenSegment(p, q, r)
    ensures Aligned(NodeOf(n, k, p), NodeOf(n, k, q), NodeOf(n, k + 1, r))
  {
    hide Straight, Aligned, NodeOf, Part, Scale;
    ScaleDoubles(n, k);
    var t :| 0.0 < t < 1.0 && r == Partway(p, q, t);
    var a, b, m, s := NodeOf(n, k, p), NodeOf(n, k, q), NodeOf(n, k + 1, r), Scale(n, k);
    FractionDoubled(p.x, q.x, r.x, t, s, a.x, b.x, m.x);
    FractionDoubled(p.y, q.y, r.y, t, s, a.y, b.y, m.y);
    FractionAligned(a, b, m, t);
  }

  lemma Share(d: int, e: int, t: real)
    requires (0 < e < d || d < e < 0) && t == e as real / d as real
    ensures 0.0 < t < 1.0 && t * d as real == e as real
  {
    var x, y := d as real, e as real;
    assert t * x == y;
  }

  /** The fraction at which an aligned grid point divides the segment. */
  lemma AlignedFraction(a: Node, b: Node, m: Node) returns (t: real)
    requires Straight(a, b) && Aligned(a, b, Node(2 * m.x, 2 * m.y))
    ensures 0.0 < t < 1.0 && t * (b.x - a.x) as real == (m.x - a.x) as real && t * (b.y - a.y) as real == (m.y - a.y) as real
  {
    if a.x == b.x {
      t := (m.y - a.y) as real / (b.y - a.y) as real;
      Share(b.y - a.y, m.y - a.y, t);
    } else {
      t := (m.x - a.x) as real / (b.x - a.x) as real;
      Share(b.x - a.x, m.x - a.x, t);
      var dx, dy := (b.x - a.x) as real, (b.y - a.y) as real;
      if b.x - a.x == a.y - b.y {
        assert dy == -dx && t * dy == -(t * dx);
      }
    }
  }

  lemma AlignedMeansInner(n: nat, k: nat, p: Point, q: Point, r: Point)
    requires n >= 1 && OnGrid(n, k, p) && OnGrid(n, k, q) && OnGrid(n, k, r) && Straight(NodeOf(n, k, p), NodeOf(n, k, q))
    requires var m := NodeOf(n, k, r); Aligned(NodeOf(n, k, p), NodeOf(n, k, q), Node(2 * m.x, 2 * m.y))
    ensures InOpenSegment(p, q, r)
  {
    hide Straight, Aligned, NodeOf, Scale;
    var a, b, m, s := NodeOf(n, k, p), NodeOf(n, k, q), NodeOf(n, k, r), Scale(n, k);
    var t := AlignedFraction(a, b, m);
    FractionOf(p.x, q.x, r.x, t, s, a.x, b.x, m.x);
    FractionOf(p.y, q.y, r.y, t, s, a.y, b.y, m.y);
    assert r == Partway(p, q, t);
  }

  lemma FractionOf(x: real, y: real, z: real, t: real, s: real, a: int, b: int, m: int)
    requires s >= 1.0 && x * s == a as real && y * s == b as real && z * s == m as real && t * (b - a) as real == (m - a) as real
    ensures z == x + t * (y - x)
  {
    assert (x + t * (y - x)) * s == x * s + t * (y * s - x * s);
    Cancel(z, x + t * (y - x), s);
  }

  // ----- how lattice edges meet -----

  /** A grid point is no inner point of an edge of its own grid. */
  lemma GridPointOutside(a: Node, b: Node, m: Node)
    requires (b.x - a.x == 0 || b.x - a.x == 1 || b.x - a.x == -1) && (b.y - a.y == 0 || b.y - a.y == 1 || b.y - a.y == -1)
    ensures !Aligned(a, b, Node(2 * m.x, 2 * m.y))
  {
  }

  /** On one grid, an edge through the middle of another is that edge. */
  lemma SameGridEdges(k: nat, a: Node, b: Node, c: Node, d: Node)
    requires (AxisStep(a, b) || DiagonalStep(k, a, b)) && (AxisStep(c, d) || DiagonalStep(k, c, d))
    requires Aligned(a, b, Node(c.x + d.x, c.y + d.y))
    ensures (a == c && b == d) || (a == d && b == c)
  {
  }

  predicate Even(a: Node) { a.x % 2 == 0 && a.y % 2 == 0 }

  /** A coarse edge through the middle of a finer one has an end of the finer one as an inner point. */
  lemma CoarseAndFine(l: nat, a: Node, b: Node, c: Node, d: Node)
    requires Straight(a, b) && Even(a) && Even(b) && l >= 1 && (AxisStep(c, d) || DiagonalStep(l, c, d))
    requires Aligned(a, b, Node(c.x + d.x, c.y + d.y))
    ensures Aligned(a, b, Node(2 * c.x, 2 * c.y)) || Aligned(a, b, Node(2 * d.x, 2 * d.y))
  {
    if a.x != b.x && a.y != b.y {
      FineIsParallel(l, a, b, c, d);
    }
  }

  /** It runs along a diagonal only with a diagonal. */
  lemma FineIsParallel(l: nat, a: Node, b: Node, c: Node, d: Node)
    requires Straight(a, b) && Even(a) && Even(b) && a.x != b.x && a.y != b.y && l >= 1
    requires AxisStep(c, d) || DiagonalStep(l, c, d)
    requires Aligned(a, b, Node(c.x + d.x, c.y + d.y))
    ensures if b.x - a.x == b.y - a.y then c.x - a.x == c.y - a.y && d.x - a.x == d.y - a.y
            else c.x - a.x == a.y - c.y && d.x - a.x == a.y - d.y
  {
  }

  lemma {:induction false} FinerStraight(n: nat, k: nat, l: nat, p: Point, q: Point)
    requires n >= 1 && k <= l && OnGrid(n, k, p) && OnGrid(n, k, q) && Straight(NodeOf(n, k, p), NodeOf(n, k, q))
    ensures OnGrid(n, l, p) && OnGrid(n, l, q) && Straight(NodeOf(n, l, p), NodeOf(n, l, q))
  {
    if k < l {
      hide OnGrid, NodeOf;
      FinerStraight(n, k, l - 1, p, q);
      FinerGrid(n, l - 1, l, p);
      FinerGrid(n, l - 1, l, q);
    }
  }

  lemma NotInner(n: nat, k: nat, p: Point, q: Point, r: Point)
    requires n >= 1 && LatticeEdge(n, k, p, q) && OnGrid(n, k, r)
    ensures !InOpenSegment(p, q, r)
  {
    hide OnGrid, NodeOf, Aligned, InOpenSegment;
    if InOpenSegment(p, q, r) {
      FinerGrid(n, k, k + 1, r);
      InnerMeansAligned(n, k, p, q, r);
      GridPointOutside(NodeOf(n, k, p), NodeOf(n, k, q), NodeOf(n, k, r));
      assert false;
    }
  }

  /** If the middle of one lattice edge is an inner point of another, they are the same edge or an end of the first
      is an inner point of the second as well. */
  lemma EdgesNest(n: nat, k: nat, a: Point, b: Point, l: nat, c: Point, d: Point)
    requires n >= 1 && LatticeEdge(n, k, a, b) && LatticeEdge(n, l, c, d) && InOpenSegment(a, b, Mid(c, d))
    ensures (a == c && b == d) || (a == d && b == c) || InOpenSegment(a, b, c) || InOpenSegment(a, b, d)
  {
    hide OnGrid, NodeOf, Aligned, InOpenSegment, Mid;
    MidDoubled(n, l, c, d);
    if l < k {
      FinerGrid(n, l + 1, k, Mid(c, d));
      NotInner(n, k, a, b, Mid(c, d));
    } else if l == k {
      InnerMeansAligned(n, k, a, b, Mid(c, d));
      SameGridEdges(k, NodeOf(n, k, a), NodeOf(n, k, b), NodeOf(n, k, c), NodeOf(n, k, d));
      SameEnds(n, k, a, b, c, d);
    } else {
      FinerStraight(n, k, l, a, b);
      FinerGrid(n, k, l, a);
      FinerGrid(n, k, l, b);
      InnerMeansAligned(n, l, a, b, Mid(c, d));
      CoarseAndFine(l, NodeOf(n, l, a), NodeOf(n, l, b), NodeOf(n, l, c), NodeOf(n, l, d));
      var x, y := NodeOf(n, l, c), NodeOf(n, l, d);
      if Aligned(NodeOf(n, l, a), NodeOf(n, l, b), Node(2 * x.x, 2 * x.y)) {
        AlignedMeansInner(n, l, a, b, c);
      } else {
        AlignedMeansInner(n, l, a, b, d);
      }
    }
  }

  lemma SameEnds(n: nat, k: nat, a: Point, b: Point, c: Point, d: Point)
    requires n >= 1 && OnGrid(n, k, a) && OnGrid(n, k, b) && OnGrid(n, k, c) && OnGrid(n, k, d)
    requires var p, q, r, s := NodeOf(n, k, a), NodeOf(n, k, b), NodeOf(n, k, c), NodeOf(n, k, d);
      (p == r && q == s) || (p == s && q == r)
    ensures (a == c && b == d) || (a == d && b == c)
  {
    hide OnGrid, NodeOf;
    if NodeOf(n, k, a) == NodeOf(n, k, c) && NodeOf(n, k, b) == NodeOf(n, k, d) {
      SamePoint(n, k, a, c);
      SamePoint(n, k, b, d);
    } else {
      SamePoint(n, k, a, d);
      SamePoint(n, k, b, c);
    }
  }

  // ----- lattice triangles -----

  /** Legs along the axes and refinement edge along a diagonal, or the other way round, by turns. */
  predicate LatticeTri(n: nat, s: Shape, level: nat)
    requires n >= 1
  {
    var k := level / 2;
    if level % 2 == 0 then AxisEdge(n, k, s.apex, s.a) && AxisEdge(n, k, s.apex, s.b) && DiagonalEdge(n, k, s.a, s.b)
    else DiagonalEdge(n, k + 1, s.apex, s.a) && DiagonalEdge(n, k + 1, s.apex, s.b) && AxisEdge(n, k, s.a, s.b)
  }

  lemma FlipLattice(n: nat, s: Shape, level: nat)
    requires n >= 1 && LatticeTri(n, s, level)
    ensures LatticeTri(n, Flip(s), level)
  {
    hide AxisEdge, DiagonalEdge;
    EdgeTurns(n, level / 2, s.a, s.b);
  }

  lemma EvenHalf(k: nat, p: Node, a: Node, b: Node)
    requires AxisStep(p, a) && AxisStep(p, b) && DiagonalStep(k, a, b)
    ensures var m := Node(a.x + b.x, a.y + b.y);
      DiagonalStep(k + 1, m, Node(2 * p.x, 2 * p.y)) && DiagonalStep(k + 1, m, Node(2 * a.x, 2 * a.y))
  {
    var d := (b.x - a.x) + (b.y - a.y);
    assert d == -2 || d == 0 || d == 2;
    EvenSum(a.x + a.y, d, a.x + b.x + (a.y + b.y));
  }

  lemma EvenSum(c: int, d: int, sum: int)
    requires sum == 2 * c + d && (d == -2 || d == 0 || d == 2)
    ensures sum % 2 == 0
  {
  }

  lemma OddHalf(k: nat, p: Node, a: Node, b: Node)
    requires AxisStep(a, b) && DiagonalStep(k + 1, p, Node(2 * a.x, 2 * a.y)) && DiagonalStep(k + 1, p, Node(2 * b.x, 2 * b.y))
    ensures var m := Node(a.x + b.x, a.y + b.y); AxisStep(m, p) && AxisStep(m, Node(2 * a.x, 2 * a.y))
  {
  }

  /** A bisection makes lattice triangles of the next level. */
  lemma HalfLattice(n: nat, s: Shape, level: nat)
    requires n >= 1 && LatticeTri(n, s, level)
    ensures LatticeTri(n, HalfA(s), level + 1)
  {
    hide OnGrid, NodeOf, AxisStep, DiagonalStep, Mid;
    var k := level / 2;
    MidDoubled(n, k, s.a, s.b);
    FinerGrid(n, k, k + 1, s.a);
    FinerGrid(n, k, k + 1, s.b);
    if level % 2 == 0 {
      FinerGrid(n, k, k + 1, s.apex);
      EvenHalf(k, NodeOf(n, k, s.apex), NodeOf(n, k, s.a), NodeOf(n, k, s.b));
    } else {
      OddHalf(k, NodeOf(n, k + 1, s.apex), NodeOf(n, k, s.a), NodeOf(n, k, s.b));
    }
  }

  /** Every side of a lattice triangle is a lattice edge. */
  lemma SideIsLatticeEdge(n: nat, s: Shape, level: nat, p: Point, q: Point) returns (k: nat)
    requires n >= 1 && LatticeTri(n, s, level) && HasSide(s, p, q)
    ensures LatticeEdge(n, k, p, q)
  {
    hide AxisEdge, DiagonalEdge;
    var legs, base := (level + 1) / 2, level / 2;
    EdgeTurns(n, legs, s.apex, s.a);
    EdgeTurns(n, legs, s.apex, s.b);
    EdgeTurns(n, base, s.a, s.b);
    k := if (p == s.a && q == s.b) || (p == s.b && q == s.a) then base else legs;
  }
}

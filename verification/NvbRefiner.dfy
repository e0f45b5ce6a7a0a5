/** The mutable mesh: construction, bisection with its midpoint tables, marked refinement with
    the conformity closure, and the run-time conformity check. */
module NvbRefiner {
  import opened NvbGeometry
  import opened NvbMesh
  import opened NvbGrid
  import opened NvbTheorems
  import opened NvbConformity

  /** The bound after which the closure gives up. */
  const CLOSURE_GUARD: nat := 500_000

  /** How many bisections the closure can still make, after the bisections `tids`. */
  ghost function Measure(n: nat, tids: seq<nat>): real
    requires n >= 1
  {
    Potential(Reached(n, tids), ReachedAudit(n, tids))
  }

  lemma PendingStays(m: Mesh, tid: nat, s: nat)
    requires Indexed(m) && Pending(m, tid) && s != tid
    ensures Pending(RefineTriangle(m, s), tid)
  {
  }

  lemma MeasureStep(n: nat, tids: seq<nat>, tid: nat)
    requires n >= 1 && Pending(Reached(n, tids), tid)
    ensures ReachedAudit(n, tids + [tid]).top == ReachedAudit(n, tids).top
    ensures Measure(n, tids + [tid]) == Measure(n, tids) - 1.0
  {
    hide Wf, Reached, ReachedAudit, Potential, Split, AuditStep;
    ReachedWf(n, tids);
    ReachedOneMore(n, tids, tid);
    PendingLevel(CellLegSq(n), Reached(n, tids), ReachedAudit(n, tids), tid);
    PotentialDrop(CellLegSq(n), Reached(n, tids), ReachedAudit(n, tids), tid);
  }

  predicate Distinct(tids: seq<nat>) {
    forall i, j :: 0 <= i < j < |tids| ==> tids[i] != tids[j]
  }

  /** Bisecting distinct pending triangles one after the other: each is still pending when its
      turn comes, and the measure falls by one every time. */
  lemma {:induction false} PendingRound(n: nat, tids: seq<nat>, pending: seq<nat>, k: nat)
    requires n >= 1 && k <= |pending| && Distinct(pending)
    requires forall j :: 0 <= j < |pending| ==> Pending(Reached(n, tids), pending[j])
    ensures forall j :: k <= j < |pending| ==> Pending(Reached(n, tids + pending[..k]), pending[j])
    ensures ReachedAudit(n, tids + pending[..k]).top == ReachedAudit(n, tids).top
    ensures Measure(n, tids + pending[..k]) == Measure(n, tids) - k as real
  {
    hide Reached, ReachedAudit, Measure, Pending, RefineTriangle;
    if k == 0 {
      assert tids + pending[..0] == tids;
    } else {
      PendingRound(n, tids, pending, k - 1);
      var before, tid := tids + pending[..k - 1], pending[k - 1];
      assert tids + pending[..k] == before + [tid];
      MeasureStep(n, before, tid);
      ReachedOneMore(n, before, tid);
      forall j | k <= j < |pending|
        ensures Pending(Reached(n, tids + pending[..k]), pending[j])
      {
        PendingStays(Reached(n, before), pending[j], tid);
      }
    }
  }

  lemma MeasureNonNegative(n: nat, tids: seq<nat>)
    requires n >= 1
    ensures Measure(n, tids) >= 0.0
  {
    PotentialNonNegative(ReachedAudit(n, tids), Reached(n, tids).next);
  }

  /** The pending triangles with an id below `k`, in id order. */
  function PendingBelow(m: Mesh, k: nat): seq<nat> {
    if k == 0 then []
    else if Pending(m, k - 1) then PendingBelow(m, k - 1) + [k - 1]
    else PendingBelow(m, k - 1)
  }

  lemma {:induction false} PendingBelowExactly(m: Mesh, k: nat)
    ensures Distinct(PendingBelow(m, k))
    ensures forall t: nat :: t in PendingBelow(m, k) <==> t < k && Pending(m, t)
  {
    hide Pending;
    if k > 0 {
      PendingBelowExactly(m, k - 1);
    }
  }

  /** The pending triangles of a reached mesh, in the order the closure bisects them. */
  ghost function Waiting(n: nat, tids: seq<nat>): seq<nat>
    requires n >= 1
  {
    PendingBelow(Reached(n, tids), Reached(n, tids).next)
  }

  lemma WaitingExactly(n: nat, tids: seq<nat>)
    requires n >= 1
    ensures Distinct(Waiting(n, tids))
    ensures forall t: nat :: t in Waiting(n, tids) <==> Pending(Reached(n, tids), t)
  {
    hide Reached, Pending;
    PendingBelowExactly(Reached(n, tids), Reached(n, tids).next);
    IdsBelowNext(n, tids);
    PendingIsLive(Reached(n, tids));
  }

  lemma PendingIsLive(m: Mesh)
    ensures forall t: nat :: Pending(m, t) ==> t in m.tris
  {
  }

  /** One closure round: the measure falls by the number of triangles bisected. */
  lemma RoundDrop(n: nat, tids: seq<nat>)
    requires n >= 1
    ensures var pending := Waiting(n, tids);
      Measure(n, tids + pending) == Measure(n, tids) - |pending| as real && Measure(n, tids + pending) >= 0.0
  {
    hide Reached, Measure, Pending, Waiting;
    var pending := Waiting(n, tids);
    WaitingExactly(n, tids);
    PendingRound(n, tids, pending, |pending|);
    assert pending[..|pending|] == pending;
    MeasureNonNegative(n, tids + pending);
  }

  /** The bisections so far and those of the closure, were there no guard. */
  ghost function Closure(n: nat, tids: seq<nat>): (all: seq<nat>)
    requires n >= 1
    ensures tids + Waiting(n, tids) <= all
    decreases Measure(n, tids)
  {
    RoundDrop(n, tids);
    var pending := Waiting(n, tids);
    if pending == [] then tids else Closure(n, tids + pending)
  }

  /** `check_conforming`: count the owners of every side and look for a count above two. */
  method CountOwners(tris: map<nat, Tri>, next: nat) returns (ok: bool)
    ensures ok <==> forall e :: OwnerCount(tris, next, e) <= 2
  {
    var owners: map<Edge, nat> := map[];
    var tid := 0;
    while tid < next
      invariant tid <= next
      invariant forall e :: OwnerCount(tris, tid, e) == Lookup(owners, e)
    {
      if tid in tris {
        var t := tris[tid];
        ghost var before := owners;
        owners := Bump(owners, EKey(t.v0, t.v1));
        owners := Bump(owners, EKey(t.v1, t.v2));
        owners := Bump(owners, EKey(t.v2, t.v0));
        forall e
          ensures Lookup(owners, e) == Lookup(before, e) + Sides(t, e)
        {
        }
      }
      tid := tid + 1;
    }
    ok := forall e :: e in owners ==> owners[e] <= 2;
    assert forall e :: e in owners ==> owners[e] == OwnerCount(tris, next, e);
  }

  function Lookup(owners: map<Edge, nat>, e: Edge): nat { if e in owners then owners[e] else 0 }

  function Bump(owners: map<Edge, nat>, e: Edge): map<Edge, nat> { owners[e := Lookup(owners, e) + 1] }

  class Refiner {
    const n: nat
    var verts: seq<Point>
    var tris: map<nat, Tri>
    var edgeMid: map<Edge, nat>
    var coordIndex: map<Point, nat>
    var next: nat
    /** The triangles bisected so far, in order. */
    ghost var history: seq<nat>

    ghost function View(): Mesh
      reads this
    {
      Mesh(verts, tris, edgeMid, coordIndex, next)
    }

    ghost predicate Valid()
      reads this
    {
      n >= 1 && View() == Reached(n, history)
    }

    constructor (n: nat)
      requires n >= 1
      ensures Valid() && this.n == n && history == [] && View() == Initial(n)
    {
      this.n := n;
      var vs := BuildVerts(n);
      var ts := BuildTris(n);
      var index := BuildIndex(vs);
      verts, tris, next := vs, ts, TriCount(n);
      edgeMid, coordIndex := map[], index;
      history := [];
      InitialWf(n);
    }

    method Midpoint(e: Edge) returns (mid: nat)
      requires e.lo < |verts| && e.hi < |verts|
      modifies this`verts, this`edgeMid, this`coordIndex
      ensures View() == WithMidpoint(old(View()), e)
      ensures e in edgeMid && mid == edgeMid[e]
    {
      if e in edgeMid {
        mid := edgeMid[e];
      } else {
        var cand := Mid(verts[e.lo], verts[e.hi]);
        if cand in coordIndex {
          mid := coordIndex[cand];
        } else {
          mid := |verts|;
          verts := verts + [cand];
          coordIndex := coordIndex[cand := mid];
        }
        edgeMid := edgeMid[e := mid];
      }
    }

    method Add(t: Tri) returns (tid: nat)
      modifies this`tris, this`next
      ensures tid == old(next) && next == old(next) + 1 && tris == old(tris)[tid := t]
    {
      tid := next;
      next := next + 1;
      tris := tris[tid := t];
    }

    /** `_split`: bisect a live triangle at its refinement edge. */
    method SplitAt(tid: nat) returns (childA: nat, childB: nat)
      requires Indexed(View()) && tid in tris
      modifies this`verts, this`tris, this`edgeMid, this`coordIndex, this`next
      ensures View() == Split(old(View()), tid)
      ensures childA == old(next) && childB == old(next) + 1
    {
      hide Mid, WithMidpoint;
      var t := tris[tid];
      var apex, e := Vertex(t, t.newest), RefinementEdge(t);
      var mid := Midpoint(e);
      tris := tris - {tid};
      childA := Add(Tri(apex, e.lo, mid, 2));
      childB := Add(Tri(apex, e.hi, mid, 2));
    }

    /** `refine_triangle`: a dead id is passed over. */
    method RefineTriangle(tid: nat)
      requires Valid()
      modifies this
      ensures Valid() && history == old(history) + [tid]
    {
      hide Reached, Split, Indexed, ReachedAudit, AuditStep;
      ReachedOneMore(n, history, tid);
      if tid in tris {
        var childA, childB := SplitAt(tid);
      }
      history := history + [tid];
    }

    /** Live triangles with a side whose midpoint exists, in id order. */
    method CollectPending() returns (pending: seq<nat>)
      requires Valid()
      ensures pending == Waiting(n, history)
    {
      hide Reached, EdgesOf;
      pending := [];
      var tid := 0;
      while tid < next
        invariant tid <= next && pending == PendingBelow(View(), tid)
      {
        if tid in tris && exists e :: e in EdgesOf(tris[tid]) && e in edgeMid {
          pending := pending + [tid];
        }
        tid := tid + 1;
      }
    }

    /** Bisect pending triangles round by round until none is left.  The guard is not what stops
        it: the measure does, and the guard is hit exactly when the unguarded closure is longer. */
    method Close(limit: nat) returns (converged: bool)
      requires Valid()
      modifies this
      ensures Valid() && old(history) <= history <= Closure(n, old(history))
      ensures converged <==> |Closure(n, old(history))| - |old(history)| <= limit
      ensures converged ==> history == Closure(n, old(history)) && forall t :: !Pending(View(), t)
      ensures !converged ==> exists t :: Pending(View(), t)
      ensures Measure(n, history) == Measure(n, old(history)) - (|history| - |old(history)|) as real
      ensures Measure(n, old(history)) <= limit as real ==> converged
    {
      hide Reached, Measure, Pending, ReachedAudit, Waiting;
      var guard := 0;
      while true
        invariant Valid() && old(history) <= history
        invariant guard == |history| - |old(history)| <= limit
        invariant Closure(n, history) == Closure(n, old(history))
        invariant Measure(n, history) == Measure(n, old(history)) - guard as real
        decreases Measure(n, history)
      {
        var pending := CollectPending();
        WaitingExactly(n, history);
        RoundDrop(n, history);
        if pending == [] {
          return true;
        }
        ghost var h := history;
        assert Pending(View(), pending[0]);
        guard := guard + |pending|;
        if guard > limit {
          return false;
        }
        var i := 0;
        while i < |pending|
          invariant i <= |pending| && Valid() && history == h + pending[..i]
        {
          assert h + pending[..i + 1] == h + pending[..i] + [pending[i]];
          RefineTriangle(pending[i]);
          i := i + 1;
        }
        assert pending[..|pending|] == pending;
      }
    }

    /** `refine_marked`: bisect the marked triangles, then close. */
    method RefineMarked(marked: seq<nat>) returns (converged: bool)
      requires Valid()
      modifies this
      ensures Valid() && old(history) + marked <= history
      ensures converged <==> |Closure(n, old(history) + marked)| - |old(history) + marked| <= CLOSURE_GUARD
      ensures converged ==>
        && history == Closure(n, old(history) + marked)
        && (forall t :: !Pending(View(), t))
        && forall t, v :: !Hangs(View(), t, v)
      ensures !converged ==> exists t :: Pending(View(), t)
      ensures Measure(n, history) == Measure(n, old(history) + marked) - (|history| - |old(history) + marked|) as real
      ensures Measure(n, old(history) + marked) <= CLOSURE_GUARD as real ==> converged
    {
      hide Reached, Measure, Pending, Hangs, Closure;
      var i := 0;
      while i < |marked|
        invariant i <= |marked| && Valid() && history == old(history) + marked[..i]
      {
        assert old(history) + marked[..i + 1] == old(history) + marked[..i] + [marked[i]];
        RefineTriangle(marked[i]);
        i := i + 1;
      }
      assert marked[..|marked|] == marked;
      converged := Close(CLOSURE_GUARD);
      if converged {
        forall t, v
          ensures !Hangs(View(), t, v)
        {
          if Hangs(View(), t, v) {
            HangingIsPending(n, history, t, v);
          }
        }
      }
    }

    /** The run-time check never finds a bad edge. */
    method CheckConforming() returns (ok: bool)
      requires Valid()
      ensures ok
    {
      hide Reached;
      ok := CountOwners(tris, next);
      forall e
        ensures OwnerCount(tris, next, e) <= 2
      {
        ReachedConforming(n, history, e);
      }
    }
  }

  lemma IdsBelowNext(n: nat, tids: seq<nat>)
    requires n >= 1
    ensures forall t :: t in Reached(n, tids).tris ==> t < Reached(n, tids).next
  {
  }

  // ----- construction loops -----

  method BuildVerts(n: nat) returns (verts: seq<Point>)
    requires n >= 1
    ensures verts == InitVerts(n)
  {
    hide Spacing, GridPoint, InitVerts;
    var m := n + 1;
    verts := [];
    var j := 0;
    while j < m
      invariant j <= m && |verts| == j * m
      invariant verts <= InitVerts(n)
    {
      var i := 0;
      ghost var row := j * m;
      while i < m
        invariant i <= m && |verts| == row + i
        invariant verts <= InitVerts(n)
      {
        VertAt(n, i, j);
        verts := verts + [GridPoint(Spacing(n), i, j)];
        i := i + 1;
      }
      j := j + 1;
      assert j * m == row + m;
    }
    VertAt(n, 0, 0);
  }

  lemma CellIds(n: nat, i: nat, j: nat)
    requires i < n
    ensures InitTri(n, 2 * (j * n + i)) == CellTri(n, i, j, false)
    ensures InitTri(n, 2 * (j * n + i) + 1) == CellTri(n, i, j, true)
  {
    hide CellTri;
    DivModUnique(j, i, n);
    var c := j * n + i;
    assert (2 * c) / 2 == c && (2 * c + 1) / 2 == c;
  }

  lemma InitTrisStep(n: nat, k: nat)
    requires n >= 1
    ensures InitTris(n, k + 1) == InitTris(n, k)[k := InitTri(n, k)]
  {
    hide InitTri;
  }

  method BuildTris(n: nat) returns (tris: map<nat, Tri>)
    requires n >= 1
    ensures tris == InitTris(n, TriCount(n))
  {
    hide CellTri, InitTri, InitTris;
    tris := map[];
    var next := 0;
    assert tris == InitTris(n, 0) by { NoTris(n); }
    var j := 0;
    while j < n
      invariant j <= n && next == 2 * (j * n) && tris == InitTris(n, next)
    {
      var i := 0;
      while i < n
        invariant i <= n && next == 2 * (j * n + i) && tris == InitTris(n, next)
      {
        CellIds(n, i, j);
        InitTrisStep(n, next);
        InitTrisStep(n, next + 1);
        tris := tris[next := CellTri(n, i, j, false)];
        tris := tris[next + 1 := CellTri(n, i, j, true)];
        next := next + 2;
        i := i + 1;
      }
      j := j + 1;
      assert j * n == (j - 1) * n + n;
    }
  }

  lemma NoTris(n: nat)
    requires n >= 1
    ensures InitTris(n, 0) == map[]
  {
  }

  method BuildIndex(verts: seq<Point>) returns (index: map<Point, nat>)
    ensures index == IndexOf(verts)
  {
    index := map[];
    var k := 0;
    while k < |verts|
      invariant k <= |verts| && index == IndexOf(verts[..k])
    {
      assert verts[..k + 1][..k] == verts[..k];
      index := index[verts[k] := k];
      k := k + 1;
    }
    assert verts[..|verts|] == verts;
  }
}

/** The closure's guard can be hit although the closure would end: on a fine enough grid one round of it is
    longer than the guard allows. */
module NvbGuard {
  import opened NvbMesh
  import opened NvbGrid
  import opened NvbTheorems
  import opened NvbRefiner

  /** The lower halves of the first `k` cells of the initial grid. */
  function Lower(k: nat): seq<nat> { if k == 0 then [] else Lower(k - 1) + [2 * (k - 1)] }

  /** The lower halves of the first `k` cells have been bisected and nothing else has. */
  predicate LowerDone(n: nat, m: Mesh, k: nat)
    requires n >= 1
  {
    && m.next >= TriCount(n)
    && (forall t: nat :: t < TriCount(n) && (t % 2 == 1 || t >= 2 * k) ==> t in m.tris && m.tris[t] == InitTri(n, t))
    && (forall c: nat :: c < k ==> RefinementEdge(InitTri(n, 2 * c)) in m.edgeMid)
  }

  lemma CellCount(n: nat)
    ensures TriCount(n) == 2 * (n * n)
  {
  }

  lemma LowerStep(n: nat, m: Mesh, k: nat)
    requires n >= 1 && Indexed(m) && LowerDone(n, m, k) && k < n * n
    ensures LowerDone(n, RefineTriangle(m, 2 * k), k + 1)
  {
    hide InitTri, RefinementEdge, RefineTriangle, TriCount, Indexed;
    CellCount(n);
    SplitMarks(m, 2 * k);
  }

  /** What a split leaves of the triangle table and adds to the midpoint table. */
  lemma SplitMarks(m: Mesh, tid: nat)
    requires Indexed(m) && tid in m.tris
    ensures var r := RefineTriangle(m, tid);
      && r.next == m.next + 2
      && (forall t :: t in m.tris && t != tid ==> t in r.tris && r.tris[t] == m.tris[t])
      && (forall e :: e in m.edgeMid ==> e in r.edgeMid) && RefinementEdge(m.tris[tid]) in r.edgeMid
  {
  }

  lemma {:induction false} LowerReached(n: nat, k: nat)
    requires n >= 1 && k <= n * n
    ensures LowerDone(n, Reached(n, Lower(k)), k)
  {
    hide Reached, LowerDone, ReachedAudit, RefineTriangle, AuditStep, Indexed;
    if k == 0 {
      NothingDone(n);
    } else {
      LowerReached(n, k - 1);
      LowerStep(n, Reached(n, Lower(k - 1)), k - 1);
      ReachedOneMore(n, Lower(k - 1), 2 * (k - 1));
    }
  }

  lemma NothingDone(n: nat)
    requires n >= 1
    ensures LowerDone(n, Reached(n, []), 0)
  {
    hide InitTri;
  }

  /** The two halves of a cell share the edge that both would bisect. */
  lemma SharedEdge(n: nat, c: nat)
    requires n >= 1
    ensures RefinementEdge(InitTri(n, 2 * c)) in EdgesOf(InitTri(n, 2 * c + 1))
  {
    assert (2 * c + 1) / 2 == c == (2 * c) / 2;
  }

  lemma UpperPending(n: nat, m: Mesh, c: nat)
    requires n >= 1 && LowerDone(n, m, n * n) && c < n * n
    ensures Pending(m, 2 * c + 1)
  {
    hide InitTri, RefinementEdge, EdgesOf;
    SharedEdge(n, c);
  }

  lemma {:induction false} PendingGrows(m: Mesh, j: nat, k: nat)
    requires j <= k
    ensures |PendingBelow(m, j)| <= |PendingBelow(m, k)|
  {
    if j < k {
      PendingGrows(m, j, k - 1);
    }
  }

  lemma {:induction false} ManyPending(m: Mesh, k: nat)
    requires forall c: nat :: c < k ==> Pending(m, 2 * c + 1)
    ensures |PendingBelow(m, 2 * k)| >= k
  {
    if k > 0 {
      hide Pending;
      ManyPending(m, k - 1);
      PendingGrows(m, 2 * (k - 1), 2 * k - 1);
      assert Pending(m, 2 * (k - 1) + 1);
    }
  }

  /** With every lower half marked, every upper half is pending at once, and the first round of the closure is as long
      as there are cells. */
  lemma FirstRound(n: nat)
    requires n >= 1
    ensures |Waiting(n, Lower(n * n))| >= n * n
  {
    hide Reached, Pending, LowerDone;
    var m := Reached(n, Lower(n * n));
    LowerReached(n, n * n);
    forall c: nat | c < n * n
      ensures Pending(m, 2 * c + 1)
    {
      UpperPending(n, m, c);
    }
    ManyPending(m, n * n);
    LowerNext(n, m, n * n);
    PendingGrows(m, 2 * (n * n), m.next);
  }

  lemma LowerNext(n: nat, m: Mesh, k: nat)
    requires n >= 1 && LowerDone(n, m, k)
    ensures m.next >= 2 * (n * n)
  {
    CellCount(n);
  }

  /** On every grid with more cells than the guard, marking the lower halves makes the closure give up, although
      without the guard it would end. */
  lemma GuardIsHit(n: nat)
    requires n * n > CLOSURE_GUARD
    ensures n >= 1 && |Closure(n, Lower(n * n))| - |Lower(n * n)| > CLOSURE_GUARD
  {
    hide Closure, Waiting;
    FirstRound(n);
  }

  /** The run itself. */
  method MarkLowerHalves(n: nat) returns (converged: bool)
    requires n * n > CLOSURE_GUARD
    ensures !converged
  {
    hide Closure;
    GuardIsHit(n);
    var mesh := new Refiner(n);
    assert mesh.history + Lower(n * n) == Lower(n * n);
    converged := mesh.RefineMarked(Lower(n * n));
  }
}

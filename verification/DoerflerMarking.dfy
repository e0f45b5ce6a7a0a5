/** The bulk-marking step of the adaptive loop: sort the local error indicators in descending
    order and mark the shortest prefix whose sum reaches a fixed share of the total. */
module DoerflerMarking {
  import opened Common

  /** The sum of the indicators of the triangles below `k` that are in `s`. */
  function SumOver(eta: seq<real>, s: set<nat>, k: nat): real
    requires k <= |eta|
  {
    if k == 0 then 0.0 else SumOver(eta, s, k - 1) + (if k - 1 in s then eta[k - 1] else 0.0)
  }

  function Below(k: nat): (s: set<nat>)
    ensures forall i: nat :: i in s <==> i < k
  {
    if k == 0 then {} else Below(k - 1) + {k - 1}
  }

  function Everything(eta: seq<real>): set<nat> { Below(|eta|) }

  function Total(eta: seq<real>): real { SumOver(eta, Everything(eta), |eta|) }

  function Elements(order: seq<nat>): set<nat> { set i | 0 <= i < |order| :: order[i] }

  /** What `argsort(...)[::-1]` returns: all indices, each once, largest indicator first. */
  predicate DescendingOrder(eta: seq<real>, order: seq<nat>) {
    && |order| == |eta|
    && (forall i :: 0 <= i < |order| ==> order[i] < |eta|)
    && (forall i, j :: 0 <= i < j < |order| ==> order[i] != order[j])
    && (forall i, j :: 0 <= i < j < |order| ==> eta[order[i]] >= eta[order[j]])
  }

  predicate NonNegative(eta: seq<real>) { forall i :: 0 <= i < |eta| ==> eta[i] >= 0.0 }

  /** The sum of the first `k` indicators in the given order. */
  function Prefix(eta: seq<real>, order: seq<nat>, k: nat): real
    requires k <= |order| && forall i :: 0 <= i < |order| ==> order[i] < |eta|
  {
    if k == 0 then 0.0 else Prefix(eta, order, k - 1) + eta[order[k - 1]]
  }

  // ----- sums over sets -----

  lemma {:induction false} SumOverAdd(eta: seq<real>, s: set<nat>, x: nat, k: nat)
    requires k <= |eta| && x !in s
    ensures SumOver(eta, s + {x}, k) == SumOver(eta, s, k) + (if x < k then eta[x] else 0.0)
  {
    if k > 0 {
      SumOverAdd(eta, s, x, k - 1);
    }
  }

  /** A prefix of the order, as a set, sums to the prefix sum. */
  lemma {:induction false} PrefixIsSum(eta: seq<real>, order: seq<nat>, k: nat)
    requires DescendingOrder(eta, order) && k <= |order|
    ensures SumOver(eta, Elements(order[..k]), |eta|) == Prefix(eta, order, k)
    ensures |Elements(order[..k])| == k
  {
    if k == 0 {
      EmptySum(eta, |eta|);
      assert Elements(order[..0]) == {};
    } else {
      PrefixIsSum(eta, order, k - 1);
      PrefixSet(order, k);
      SumOverAdd(eta, Elements(order[..k - 1]), order[k - 1], |eta|);
    }
  }

  lemma PrefixSet(order: seq<nat>, k: nat)
    requires 0 < k <= |order| && forall i, j :: 0 <= i < j < |order| ==> order[i] != order[j]
    ensures Elements(order[..k]) == Elements(order[..k - 1]) + {order[k - 1]}
    ensures order[k - 1] !in Elements(order[..k - 1])
  {
  }

  lemma {:induction false} EmptySum(eta: seq<real>, k: nat)
    requires k <= |eta|
    ensures SumOver(eta, {}, k) == 0.0
  {
    if k > 0 {
      EmptySum(eta, k - 1);
    }
  }

  /** All of the order, as a set, is everything. */
  lemma WholeOrder(eta: seq<real>, order: seq<nat>)
    requires DescendingOrder(eta, order)
    ensures Elements(order) == Everything(eta)
    ensures Prefix(eta, order, |order|) == Total(eta)
  {
    PrefixIsSum(eta, order, |order|);
    assert order[..|order|] == order;
    BelowSize(|eta|);
    SubsetSize(Elements(order), Everything(eta));
  }

  lemma {:induction false} BelowSize(k: nat)
    ensures |Below(k)| == k
  {
    if k > 0 {
      BelowSize(k - 1);
      assert Below(k) == Below(k - 1) + {k - 1} && k - 1 !in Below(k - 1);
    }
  }

  // ----- no set does better than the prefix of its size -----

  /** The members of `s` met in the first `k` positions of the order: how many, and their sum. */
  function Met(order: seq<nat>, s: set<nat>, k: nat): nat
    requires k <= |order|
  {
    if k == 0 then 0 else Met(order, s, k - 1) + (if order[k - 1] in s then 1 else 0)
  }

  lemma NoElements(order: seq<nat>)
    requires order == []
    ensures Elements(order) == {}
  {
  }

  lemma {:induction false} MetIsIntersection(eta: seq<real>, order: seq<nat>, s: set<nat>, k: nat)
    requires DescendingOrder(eta, order) && k <= |order|
    ensures Met(order, s, k) == |Elements(order[..k]) * s| <= k
  {
    hide Elements;
    if k == 0 {
      NoElements(order[..0]);
    } else {
      MetIsIntersection(eta, order, s, k - 1);
      PrefixSet(order, k);
      var before, x := Elements(order[..k - 1]), order[k - 1];
      if x in s {
        assert Elements(order[..k]) * s == before * s + {x};
      } else {
        assert Elements(order[..k]) * s == before * s;
      }
    }
  }

  /** Going through a descending order, what a set has collected so far is at most the sum of
      as many of the largest indicators. */
  lemma {:induction false} ExchangeBound(eta: seq<real>, order: seq<nat>, s: set<nat>, k: nat)
    requires DescendingOrder(eta, order) && k <= |order|
    ensures Met(order, s, k) <= k
    ensures SumOver(eta, Elements(order[..k]) * s, |eta|) <= Prefix(eta, order, Met(order, s, k))
  {
    if k == 0 {
      assert Elements(order[..0]) * s == {};
      EmptySum(eta, |eta|);
    } else {
      ExchangeBound(eta, order, s, k - 1);
      PrefixSet(order, k);
      var before, x, c := Elements(order[..k - 1]), order[k - 1], Met(order, s, k - 1);
      if x in s {
        assert Elements(order[..k]) * s == before * s + {x};
        SumOverAdd(eta, before * s, x, |eta|);
        assert c <= k - 1 && (c < k - 1 ==> eta[order[c]] >= eta[x]);
      } else {
        assert Elements(order[..k]) * s == before * s;
      }
    }
  }

  /** A set of `c` triangles never sums to more than the `c` largest indicators. */
  lemma LargestAreBest(eta: seq<real>, order: seq<nat>, s: set<nat>)
    requires DescendingOrder(eta, order) && s <= Everything(eta)
    ensures |s| <= |order|
    ensures SumOver(eta, s, |eta|) <= Prefix(eta, order, |s|)
  {
    WholeOrder(eta, order);
    assert order[..|order|] == order;
    assert Elements(order) * s == s;
    MetIsIntersection(eta, order, s, |order|);
    ExchangeBound(eta, order, s, |order|);
  }

  lemma {:induction false} PrefixMonotone(eta: seq<real>, order: seq<nat>, j: nat, k: nat)
    requires NonNegative(eta) && j <= k <= |order| && forall i :: 0 <= i < |order| ==> order[i] < |eta|
    ensures Prefix(eta, order, j) <= Prefix(eta, order, k)
  {
    if j < k {
      PrefixMonotone(eta, order, j, k - 1);
    }
  }

  // ----- the marking step -----

  /** No smaller set of triangles carries the required share. */
  ghost predicate Smallest(eta: seq<real>, marked: set<nat>, target: real) {
    forall s: set<nat> :: s <= Everything(eta) && |s| < |marked| ==> SumOver(eta, s, |eta|) < target
  }

  lemma ThetaShare(theta: real, total: real, share: real)
    requires 0.1 <= theta <= 0.9 && total >= 0.0 && share == theta * total
    ensures 0.0 <= share <= total
    ensures share > 0.0 <==> total > 0.0
  {
  }

  /** Cumulative sums, first position that reaches the target, one more for the slice.  The
      marked set always carries its share; it is the smallest such set exactly when there is
      anything to mark or no triangle at all (with a zero total one triangle is marked
      although none is needed). */
  method Mark(eta: seq<real>, order: seq<nat>, theta: real) returns (marked: seq<nat>)
    requires NonNegative(eta) && DescendingOrder(eta, order) && 0.1 <= theta <= 0.9
    ensures marked <= order && |Elements(marked)| == |marked|
    ensures SumOver(eta, Elements(marked), |eta|) >= theta * Total(eta)
    ensures Smallest(eta, Elements(marked), theta * Total(eta)) <==> (Total(eta) > 0.0 || eta == [])
  {
    hide SumOver, Total, Elements, Smallest, NonNegative;
    WholeOrder(eta, order);
    PrefixMonotone(eta, order, 0, |order|);
    var target := theta * Total(eta);
    ThetaShare(theta, Total(eta), target);
    var pos := InsertionPoint(eta, order, target);
    var cutoff := pos + 1;
    marked := order[..if cutoff <= |order| then cutoff else |order|];
    assert order[..|marked|] == marked;
    PrefixIsSum(eta, order, |marked|);
    MarkedIsSmallest(eta, order, target, pos);
  }

  /** The left insertion point of the target among the cumulative sums. */
  method InsertionPoint(eta: seq<real>, order: seq<nat>, target: real) returns (pos: nat)
    requires DescendingOrder(eta, order)
    ensures pos <= |order| && (pos > 0 ==> Prefix(eta, order, pos) < target)
    ensures pos < |order| ==> Prefix(eta, order, pos + 1) >= target
  {
    var cum := 0.0;
    pos := 0;
    while pos < |order| && cum + eta[order[pos]] < target
      invariant pos <= |order| && cum == Prefix(eta, order, pos)
      invariant pos > 0 ==> Prefix(eta, order, pos) < target
    {
      cum := cum + eta[order[pos]];
      pos := pos + 1;
    }
  }

  lemma MarkedIsSmallest(eta: seq<real>, order: seq<nat>, target: real, pos: nat)
    requires NonNegative(eta) && DescendingOrder(eta, order) && 0.0 <= target <= Total(eta)
    requires target > 0.0 <==> Total(eta) > 0.0
    requires pos <= |order| && (pos > 0 ==> Prefix(eta, order, pos) < target)
    requires pos < |order| ==> Prefix(eta, order, pos + 1) >= target
    ensures order != [] ==> pos < |order|
    ensures var k := if pos + 1 <= |order| then pos + 1 else |order|;
      && Prefix(eta, order, k) >= target
      && (Smallest(eta, Elements(order[..k]), target) <==> (Total(eta) > 0.0 || eta == []))
  {
    WholeOrder(eta, order);
    if order != [] {
      var k := pos + 1;
      PrefixIsSum(eta, order, k);
      if target > 0.0 {
        forall s: set<nat> | s <= Everything(eta) && |s| < k
          ensures SumOver(eta, s, |eta|) < target
        {
          LargestAreBest(eta, order, s);
          PrefixMonotone(eta, order, |s|, pos);
        }
      } else {
        EmptySum(eta, |eta|);
        var none: set<nat> := {};
        assert none <= Everything(eta) && |none| < k && SumOver(eta, none, |eta|) >= target;
      }
    } else {
      PrefixIsSum(eta, order, 0);
    }
  }
}

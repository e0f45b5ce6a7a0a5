/** Split-conformal prediction intervals: the half-width is an order statistic of the calibration
    scores, and at least the promised number of leave-one-out choices are covered. */
module Conformal {

  datatype Error = BadAlpha | TooFewResiduals | AlphaTooSmall

  datatype Interval = Interval(low: real, high: real)

  datatype Result = Ok(interval: Interval) | Err(error: Error)

  function Ceil(x: real): int { -((-x).Floor) }

  function Insert(x: real, s: seq<real>): seq<real> {
    if s == [] || x <= s[0] then [x] + s else [s[0]] + Insert(x, s[1..])
  }

  /** The numerically sorted copy. */
  function Sort(s: seq<real>): seq<real> {
    if s == [] then [] else Insert(s[0], Sort(s[1..]))
  }

  predicate Ascending(s: seq<real>) { forall i, j :: 0 <= i < j < |s| ==> s[i] <= s[j] }

  /** The rank of the conformal quantile among n calibration scores. */
  function Rank(n: nat, alpha: real): int { Ceil((n + 1) as real * (1.0 - alpha)) }

  function HalfWidth(scores: seq<real>, alpha: real): real
    requires 0.0 < alpha < 1.0 && Rank(|scores|, alpha) <= |scores|
  {
    SortIsAscending(scores);
    RankPositive(|scores|, alpha);
    Sort(scores)[Rank(|scores|, alpha) - 1]
  }

  function ConformalInterval(residuals: seq<real>, prediction: real, alpha: real): Result {
    if !(0.0 < alpha < 1.0) then Err(BadAlpha)
    else if |residuals| < 2 then Err(TooFewResiduals)
    else if Rank(|residuals|, alpha) > |residuals| then Err(AlphaTooSmall)
    else
      var h := HalfWidth(residuals, alpha);
      Ok(Interval(prediction - h, prediction + h))
  }

  // ----- sorting -----

  lemma {:induction false} InsertAscending(x: real, s: seq<real>)
    requires Ascending(s)
    ensures Ascending(Insert(x, s)) && |Insert(x, s)| == |s| + 1
    ensures Insert(x, s)[0] == if s == [] || x <= s[0] then x else s[0]
  {
    if s != [] && x > s[0] {
      var rest := Insert(x, s[1..]);
      InsertAscending(x, s[1..]);
      assert Insert(x, s) == [s[0]] + rest;
      assert s[0] <= rest[0];
    }
  }

  lemma {:induction false} SortIsAscending(s: seq<real>)
    ensures Ascending(Sort(s)) && |Sort(s)| == |s|
  {
    if s != [] {
      SortIsAscending(s[1..]);
      InsertAscending(s[0], Sort(s[1..]));
    }
  }

  /** How many scores are below, and how many at most, a value. */
  function Below(s: seq<real>, v: real): nat {
    if s == [] then 0 else (if s[0] < v then 1 else 0) + Below(s[1..], v)
  }

  function AtMost(s: seq<real>, v: real): nat {
    if s == [] then 0 else (if s[0] <= v then 1 else 0) + AtMost(s[1..], v)
  }

  lemma {:induction false} InsertCounts(x: real, s: seq<real>, v: real)
    ensures Below(Insert(x, s), v) == (if x < v then 1 else 0) + Below(s, v)
    ensures AtMost(Insert(x, s), v) == (if x <= v then 1 else 0) + AtMost(s, v)
  {
    if s == [] || x <= s[0] {
      assert ([x] + s)[1..] == s;
    } else {
      InsertCounts(x, s[1..], v);
      assert ([s[0]] + Insert(x, s[1..]))[1..] == Insert(x, s[1..]);
    }
  }

  /** Sorting does not change the counts. */
  lemma {:induction false} SortCounts(s: seq<real>, v: real)
    ensures Below(Sort(s), v) == Below(s, v) && AtMost(Sort(s), v) == AtMost(s, v)
  {
    if s != [] {
      SortCounts(s[1..], v);
      InsertCounts(s[0], Sort(s[1..]), v);
    }
  }

  lemma {:induction false} AllBelow(s: seq<real>, v: real, k: nat)
    requires k <= |s| && forall i :: 0 <= i < k ==> s[i] < v
    ensures Below(s, v) >= k
  {
    if k > 0 {
      AllBelow(s[1..], v, k - 1);
    }
  }

  lemma {:induction false} FirstAtMost(s: seq<real>, v: real, k: nat)
    requires k <= |s| && forall i :: 0 <= i < k ==> s[i] <= v
    ensures AtMost(s, v) >= k
  {
    if k > 0 {
      FirstAtMost(s[1..], v, k - 1);
    }
  }

  lemma {:induction false} NoneBelow(s: seq<real>, v: real)
    requires forall i :: 0 <= i < |s| ==> s[i] >= v
    ensures Below(s, v) == 0
  {
    if s != [] {
      NoneBelow(s[1..], v);
    }
  }

  /** At most `i` scores are below the score at position `i` of the sorted copy, and at least
      `i + 1` are not above it. */
  lemma {:induction false} OrderStatisticCounts(s: seq<real>, i: nat)
    requires Ascending(s) && i < |s|
    ensures Below(s, s[i]) <= i && AtMost(s, s[i]) >= i + 1
  {
    FirstAtMost(s, s[i], i + 1);
    if i == 0 {
      NoneBelow(s, s[0]);
    } else {
      assert Ascending(s[1..]);
      OrderStatisticCounts(s[1..], i - 1);
    }
  }

  /** If at most `i` scores are below `v`, the score at sorted position `i` is not below `v`. */
  lemma FewBelowMeansLarge(s: seq<real>, i: nat, v: real)
    requires Ascending(s) && i < |s| && Below(s, v) <= i
    ensures s[i] >= v
  {
    if s[i] < v {
      AllBelow(s, v, i + 1);
    }
  }

  lemma {:induction false} AllAbove(s: seq<real>, v: real, k: nat)
    requires k <= |s| && forall i :: k <= i < |s| ==> s[i] > v
    ensures AtMost(s, v) <= k
  {
    if s != [] {
      AllAbove(s[1..], v, if k == 0 then 0 else k - 1);
    }
  }

  /** If more than `i` scores are at most `v`, the score at sorted position `i` is at most `v`. */
  lemma ManyAtMostMeansSmall(s: seq<real>, i: nat, v: real)
    requires Ascending(s) && i < |s| && AtMost(s, v) > i
    ensures s[i] <= v
  {
    if s[i] > v {
      AllAbove(s, v, i);
    }
  }

  // ----- leaving one out -----

  function Without(s: seq<real>, j: nat): seq<real>
    requires j < |s|
  {
    s[..j] + s[j + 1..]
  }

  lemma {:induction false} BelowConcat(a: seq<real>, b: seq<real>, v: real)
    ensures Below(a + b, v) == Below(a, v) + Below(b, v)
    ensures AtMost(a + b, v) == AtMost(a, v) + AtMost(b, v)
  {
    if a == [] {
      assert a + b == b;
    } else {
      assert (a + b)[1..] == a[1..] + b;
      BelowConcat(a[1..], b, v);
    }
  }

  lemma WithoutCounts(s: seq<real>, j: nat, v: real)
    requires j < |s|
    ensures Below(Without(s, j), v) == Below(s, v) - (if s[j] < v then 1 else 0)
    ensures AtMost(Without(s, j), v) == AtMost(s, v) - (if s[j] <= v then 1 else 0)
  {
    BelowConcat(s[..j], s[j + 1..], v);
    BelowConcat(s[..j], s[j..], v);
    assert s[..j] + s[j..] == s && s[j..][1..] == s[j + 1..];
  }

  /** What the order statistic at a rank becomes when one score is left out: the next one if that score was not
      above it, itself otherwise. */
  lemma StatisticWithout(s: seq<real>, j: nat, k: nat)
    requires j < |s| && 1 <= k < |s| && |Sort(s)| == |s| && |Sort(Without(s, j))| == |s| - 1
    ensures Sort(Without(s, j))[k - 1] == if s[j] <= Sort(s)[k - 1] then Sort(s)[k] else Sort(s)[k - 1]
  {
    hide Sort, Below, AtMost, Without;
    var rest, v, w := Without(s, j), Sort(s)[k - 1], Sort(s)[k];
    var x := if s[j] <= v then w else v;
    SortIsAscending(s);
    SortIsAscending(rest);
    OrderStatisticCounts(Sort(s), k - 1);
    OrderStatisticCounts(Sort(s), k);
    SortCounts(s, v);
    SortCounts(s, w);
    SortCounts(rest, x);
    WithoutCounts(s, j, x);
    FewBelowMeansLarge(Sort(rest), k - 1, x);
    ManyAtMostMeansSmall(Sort(rest), k - 1, x);
  }

  /** The held-out score is within the half-width computed from the others. */
  predicate Covered(scores: seq<real>, alpha: real, j: nat)
    requires 0.0 < alpha < 1.0 && j < |scores| && |scores| >= 1 && Rank(|scores| - 1, alpha) <= |scores| - 1
  {
    scores[j] <= HalfWidth(Without(scores, j), alpha)
  }

  function CoveredCount(scores: seq<real>, alpha: real, m: nat): nat
    requires 0.0 < alpha < 1.0 && m <= |scores| && |scores| >= 1 && Rank(|scores| - 1, alpha) <= |scores| - 1
  {
    if m == 0 then 0 else CoveredCount(scores, alpha, m - 1) + (if Covered(scores, alpha, m - 1) then 1 else 0)
  }

  /** A held-out score is covered exactly when it is not above the order statistic of all scores. */
  lemma CoveredExactly(scores: seq<real>, alpha: real, j: nat)
    requires 0.0 < alpha < 1.0 && j < |scores| && |scores| >= 1 && Rank(|scores| - 1, alpha) <= |scores| - 1
    requires Rank(|scores| - 1, alpha) >= 1 && |Sort(scores)| == |scores|
    ensures Covered(scores, alpha, j) <==> scores[j] <= Sort(scores)[Rank(|scores| - 1, alpha) - 1]
  {
    hide Rank, Sort;
    var k := Rank(|scores| - 1, alpha);
    SortIsAscending(scores);
    SortIsAscending(Without(scores, j));
    StatisticWithout(scores, j, k);
  }

  lemma {:induction false} CountCovered(scores: seq<real>, alpha: real, v: real, m: nat)
    requires 0.0 < alpha < 1.0 && m <= |scores| && |scores| >= 1 && Rank(|scores| - 1, alpha) <= |scores| - 1
    requires forall j :: 0 <= j < |scores| ==> (Covered(scores, alpha, j) <==> scores[j] <= v)
    ensures AtMost(scores[..m], v) == CoveredCount(scores, alpha, m)
  {
    hide Rank, Covered;
    if m > 0 {
      CountCovered(scores, alpha, v, m - 1);
      BelowConcat(scores[..m - 1], [scores[m - 1]], v);
      assert scores[..m - 1] + [scores[m - 1]] == scores[..m];
      assert [scores[m - 1]][1..] == [];
    }
  }

  lemma CeilBounds(x: real)
    ensures x <= Ceil(x) as real < x + 1.0
  {
  }

  lemma RankPositive(n: nat, alpha: real)
    requires 0.0 < alpha < 1.0
    ensures Rank(n, alpha) >= 1
  {
    var x := (n + 1) as real * (1.0 - alpha);
    assert x > 0.0 by { assert (n + 1) as real >= 1.0 && 1.0 - alpha > 0.0; }
    CeilBounds(x);
  }

  /** The refusal for a small alpha happens exactly below one over the number of points plus one. */
  lemma RefusesExactly(residuals: seq<real>, prediction: real, alpha: real)
    ensures var r := ConformalInterval(residuals, prediction, alpha);
      && (r == Err(BadAlpha) <==> !(0.0 < alpha < 1.0))
      && (r == Err(TooFewResiduals) <==> 0.0 < alpha < 1.0 && |residuals| < 2)
      && (r == Err(AlphaTooSmall) <==> 0.0 < alpha < 1.0 && |residuals| >= 2 && alpha < 1.0 / (|residuals| + 1) as real)
  {
    if 0.0 < alpha < 1.0 {
      RankTooLarge(|residuals|, alpha);
    }
  }

  lemma RankTooLarge(n: nat, alpha: real)
    requires 0.0 < alpha < 1.0
    ensures Rank(n, alpha) > n <==> alpha < 1.0 / (n + 1) as real
  {
  }

  predicate Distinct(s: seq<real>) { forall i, j :: 0 <= i < j < |s| ==> s[i] != s[j] }

  lemma {:induction false} InsertDistinct(x: real, s: seq<real>)
    requires Distinct(s) && x !in s
    ensures Distinct(Insert(x, s)) && forall y :: y in Insert(x, s) <==> y == x || y in s
  {
    if s == [] || x <= s[0] {
      assert Insert(x, s) == [x] + s;
    } else {
      var rest := Insert(x, s[1..]);
      InsertDistinct(x, s[1..]);
      assert s == [s[0]] + s[1..] && Insert(x, s) == [s[0]] + rest;
      assert s[0] !in s[1..];
      assert forall y :: y in Insert(x, s) <==> y == s[0] || y in rest;
    }
  }

  lemma {:induction false} SortDistinct(s: seq<real>)
    requires Distinct(s)
    ensures Distinct(Sort(s)) && forall y :: y in Sort(s) <==> y in s
  {
    if s != [] {
      SortDistinct(s[1..]);
      InsertDistinct(s[0], Sort(s[1..]));
      assert s == [s[0]] + s[1..];
    }
  }

  /** Finite-sample coverage: of the n + 1 ways to hold one score out, at least
      ceil((n + 1)(1 - alpha)) have the held-out score within the half-width of the others, and
      exactly that many when no two scores tie. */
  lemma LeaveOneOutCoverage(scores: seq<real>, alpha: real)
    requires |scores| >= 3 && 0.0 < alpha < 1.0 && Rank(|scores| - 1, alpha) <= |scores| - 1
    ensures CoveredCount(scores, alpha, |scores|) >= Ceil(|scores| as real * (1.0 - alpha))
    ensures Distinct(scores) ==> CoveredCount(scores, alpha, |scores|) == Ceil(|scores| as real * (1.0 - alpha))
  {
    hide Covered, Sort, Distinct, Ascending, AtMost, Below, Without;
    var k := Rank(|scores| - 1, alpha);
    RankPositive(|scores| - 1, alpha);
    SortIsAscending(scores);
    var v := Sort(scores)[k - 1];
    forall j | 0 <= j < |scores|
      ensures Covered(scores, alpha, j) <==> scores[j] <= v
    {
      CoveredExactly(scores, alpha, j);
    }
    CountCovered(scores, alpha, v, |scores|);
    assert scores[..|scores|] == scores;
    OrderStatisticCounts(Sort(scores), k - 1);
    SortCounts(scores, v);
    if Distinct(scores) {
      SortDistinct(scores);
      NoTieCount(Sort(scores), k - 1);
    }
  }

  lemma NoTieCount(s: seq<real>, i: nat)
    requires Ascending(s) && Distinct(s) && i < |s|
    ensures AtMost(s, s[i]) <= i + 1
  {
    AllAbove(s, s[i], i + 1);
  }

  // ----- what the interval contains -----

  function Abs(x: real): real { if x < 0.0 then -x else x }

  /** An outcome lies in the interval exactly when its absolute residual is within the half-width:
      the coverage above is coverage of outcomes when the scores are absolute residuals. */
  lemma IntervalMeansScore(residuals: seq<real>, prediction: real, alpha: real, y: real)
    requires ConformalInterval(residuals, prediction, alpha).Ok?
    ensures var i := ConformalInterval(residuals, prediction, alpha).interval;
      i.low <= y <= i.high <==> Abs(y - prediction) <= HalfWidth(residuals, alpha)
  {
  }

  function AbsoluteResiduals(ys: seq<real>, predictions: seq<real>): (s: seq<real>)
    requires |ys| == |predictions|
    ensures |s| == |ys|
  {
    seq(|ys|, i requires 0 <= i < |ys| => Abs(ys[i] - predictions[i]))
  }

  /** Row `j`'s outcome lies in the interval built for it from the scores of all the other rows. */
  predicate OutcomeCovered(ys: seq<real>, predictions: seq<real>, scores: seq<real>, alpha: real, j: nat)
    requires |ys| == |predictions| == |scores| && j < |ys|
  {
    var r := ConformalInterval(Without(scores, j), predictions[j], alpha);
    r.Ok? && r.interval.low <= ys[j] <= r.interval.high
  }

  function OutcomesCovered(ys: seq<real>, predictions: seq<real>, scores: seq<real>, alpha: real, m: nat): nat
    requires |ys| == |predictions| == |scores| && m <= |ys|
  {
    if m == 0 then 0
    else OutcomesCovered(ys, predictions, scores, alpha, m - 1)
         + (if OutcomeCovered(ys, predictions, scores, alpha, m - 1) then 1 else 0)
  }

  lemma {:induction false} OutcomesAreScores(ys: seq<real>, predictions: seq<real>, alpha: real, m: nat)
    requires |ys| == |predictions| && m <= |ys| && |ys| >= 3
    requires 0.0 < alpha < 1.0 && Rank(|ys| - 1, alpha) <= |ys| - 1
    ensures var scores := AbsoluteResiduals(ys, predictions);
      OutcomesCovered(ys, predictions, scores, alpha, m) == CoveredCount(scores, alpha, m)
  {
    hide Rank, HalfWidth;
    if m > 0 {
      OutcomesAreScores(ys, predictions, alpha, m - 1);
      IntervalMeansScore(Without(AbsoluteResiduals(ys, predictions), m - 1), predictions[m - 1], alpha, ys[m - 1]);
    }
  }

  /** The stated guarantee, row by row: among any n + 1 rows, at least ceil((n + 1)(1 - alpha)) have
      their outcome inside the interval calibrated on the other n absolute residuals. */
  lemma OutcomeCoverage(ys: seq<real>, predictions: seq<real>, alpha: real)
    requires |ys| == |predictions| && |ys| >= 3 && 1.0 / |ys| as real <= alpha < 1.0
    ensures OutcomesCovered(ys, predictions, AbsoluteResiduals(ys, predictions), alpha, |ys|) >= Ceil(|ys| as real * (1.0 - alpha))
  {
    assert 0.0 < alpha;
    RankTooLarge(|ys| - 1, alpha);
    OutcomesAreScores(ys, predictions, alpha, |ys|);
    LeaveOneOutCoverage(AbsoluteResiduals(ys, predictions), alpha);
  }

  // ----- without absolute values -----

  function SignedResiduals(ys: seq<real>, predictions: seq<real>): (s: seq<real>)
    requires |ys| == |predictions|
    ensures |s| == |ys|
  {
    seq(|ys|, i requires 0 <= i < |ys| => ys[i] - predictions[i])
  }

  /** The code does not take absolute values itself.  Calibrated on signed residuals, a row is covered exactly when
      its residual lies between minus the order statistic after the rank and the one at the rank. */
  lemma SignedCoveredExactly(ys: seq<real>, predictions: seq<real>, alpha: real, j: nat)
    requires |ys| == |predictions| && |ys| >= 3 && j < |ys| && 0.0 < alpha < 1.0 && Rank(|ys| - 1, alpha) <= |ys| - 1
    ensures var r, k := SignedResiduals(ys, predictions), Rank(|ys| - 1, alpha);
      && k >= 1 && |Sort(r)| == |r|
      && (OutcomeCovered(ys, predictions, r, alpha, j) <==> -Sort(r)[k] <= r[j] <= Sort(r)[k - 1])
  {
    hide Rank, Sort;
    var r, k := SignedResiduals(ys, predictions), Rank(|ys| - 1, alpha);
    RankPositive(|ys| - 1, alpha);
    SortIsAscending(r);
    SortIsAscending(Without(r, j));
    StatisticWithout(r, j, k);
    IntervalMeansScore(Without(r, j), predictions[j], alpha, ys[j]);
  }

  lemma {:induction false} CountBetween(ys: seq<real>, predictions: seq<real>, r: seq<real>, alpha: real, v: real, w: real, m: nat)
    requires |ys| == |predictions| == |r| && m <= |ys|
    requires forall j :: 0 <= j < |ys| ==> (OutcomeCovered(ys, predictions, r, alpha, j) <==> -w <= r[j] <= v)
    ensures OutcomesCovered(ys, predictions, r, alpha, m) ==
      if -w <= v then AtMost(r[..m], v) - Below(r[..m], -w) else 0
    ensures -w > v ==> Below(r[..m], -w) >= AtMost(r[..m], v)
  {
    hide OutcomeCovered;
    if m > 0 {
      CountBetween(ys, predictions, r, alpha, v, w, m - 1);
      BelowConcat(r[..m - 1], [r[m - 1]], v);
      BelowConcat(r[..m - 1], [r[m - 1]], -w);
      assert r[..m - 1] + [r[m - 1]] == r[..m];
      assert [r[m - 1]][1..] == [];
    }
  }

  /** So signed residuals keep the promised row count exactly when the residuals tied at the rank make up for those
      too far below zero; without ties, exactly when no residual is below minus the next order statistic. */
  lemma SignedCoverage(ys: seq<real>, predictions: seq<real>, alpha: real)
    requires |ys| == |predictions| && |ys| >= 3 && 1.0 / |ys| as real <= alpha < 1.0
    ensures var r, k := SignedResiduals(ys, predictions), Rank(|ys| - 1, alpha);
      && 1 <= k < |r| == |Sort(r)|
      && var kept := OutcomesCovered(ys, predictions, r, alpha, |ys|) >= Ceil(|ys| as real * (1.0 - alpha));
      && (kept <==> AtMost(r, Sort(r)[k - 1]) - Below(r, -Sort(r)[k]) >= k)
      && (Distinct(r) ==> (kept <==> forall j :: 0 <= j < |r| ==> r[j] >= -Sort(r)[k]))
  {
    hide OutcomeCovered, Sort, Distinct, Ascending, AtMost, Below, Without;
    assert 0.0 < alpha;
    RankTooLarge(|ys| - 1, alpha);
    RankPositive(|ys| - 1, alpha);
    var r, k := SignedResiduals(ys, predictions), Rank(|ys| - 1, alpha);
    SortIsAscending(r);
    var v, w := Sort(r)[k - 1], Sort(r)[k];
    forall j | 0 <= j < |r|
      ensures OutcomeCovered(ys, predictions, r, alpha, j) <==> -w <= r[j] <= v
    {
      SignedCoveredExactly(ys, predictions, alpha, j);
    }
    CountBetween(ys, predictions, r, alpha, v, w, |r|);
    assert r[..|r|] == r;
    if Distinct(r) {
      DistinctCount(r, k);
      BelowZero(r, -w);
    }
  }

  lemma DistinctCount(r: seq<real>, k: nat)
    requires Distinct(r) && 1 <= k <= |r| == |Sort(r)|
    ensures AtMost(r, Sort(r)[k - 1]) == k
  {
    hide Distinct, AtMost, Below, Sort, Ascending;
    SortIsAscending(r);
    SortDistinct(r);
    SortCounts(r, Sort(r)[k - 1]);
    OrderStatisticCounts(Sort(r), k - 1);
    NoTieCount(Sort(r), k - 1);
  }

  lemma {:induction false} BelowZero(s: seq<real>, v: real)
    ensures Below(s, v) == 0 <==> forall j :: 0 <= j < |s| ==> s[j] >= v
  {
    if s != [] {
      BelowZero(s[1..], v);
      assert forall j :: 1 <= j < |s| ==> s[j] == s[1..][j - 1];
    }
  }

  /** Signed residuals can break coverage: of these three rows none is covered, and two are promised. */
  lemma SignedResidualsBreakCoverage()
    ensures var ys, predictions := [-1.0, -1.0, -1.0], [0.0, 0.0, 0.0];
      OutcomesCovered(ys, predictions, SignedResiduals(ys, predictions), 0.5, 3) == 0 && Ceil(3.0 * 0.5) == 2
  {
    var ys, predictions := [-1.0, -1.0, -1.0], [0.0, 0.0, 0.0];
    var r := SignedResiduals(ys, predictions);
    assert Rank(2, 0.5) == 2;
    forall j | 0 <= j < 3
      ensures !OutcomeCovered(ys, predictions, r, 0.5, j)
    {
      assert Without(r, j) == [-1.0, -1.0];
      assert Sort([-1.0, -1.0])[1] == -1.0;
    }
    NoneCovered(ys, predictions, r, 0.5, 3);
  }

  lemma {:induction false} NoneCovered(ys: seq<real>, predictions: seq<real>, r: seq<real>, alpha: real, m: nat)
    requires |ys| == |predictions| == |r| && m <= |ys| && forall j :: 0 <= j < m ==> !OutcomeCovered(ys, predictions, r, alpha, j)
    ensures OutcomesCovered(ys, predictions, r, alpha, m) == 0
  {
    hide OutcomeCovered;
    if m > 0 {
      NoneCovered(ys, predictions, r, alpha, m - 1);
    }
  }

  lemma {:induction false} RestNotBelow(s: seq<real>, v: real, k: nat)
    requires k <= |s| && forall i :: k <= i < |s| ==> s[i] >= v
    ensures Below(s, v) <= k
  {
    if s != [] {
      RestNotBelow(s[1..], v, if k == 0 then 0 else k - 1);
    }
  }

  /** The half-width reaches a value exactly when fewer residuals are below that value than the rank. */
  lemma HalfWidthReaches(residuals: seq<real>, alpha: real, v: real)
    requires 0.0 < alpha < 1.0 && Rank(|residuals|, alpha) <= |residuals|
    ensures HalfWidth(residuals, alpha) >= v <==> Below(residuals, v) < Rank(|residuals|, alpha)
  {
    hide Rank, Sort, Below;
    var k := Rank(|residuals|, alpha);
    RankPositive(|residuals|, alpha);
    SortIsAscending(residuals);
    SortCounts(residuals, v);
    var sorted := Sort(residuals);
    if Below(residuals, v) < k {
      FewBelowMeansLarge(sorted, k - 1, v);
    }
    if sorted[k - 1] >= v {
      RestNotBelow(sorted, v, k - 1);
    }
  }

  /** The interval holds its own prediction exactly when fewer residuals are negative than the rank it reads. */
  lemma HoldsItsPrediction(residuals: seq<real>, prediction: real, alpha: real)
    requires ConformalInterval(residuals, prediction, alpha).Ok?
    ensures var i := ConformalInterval(residuals, prediction, alpha).interval;
      i.low <= prediction <= i.high <==> Below(residuals, 0.0) < Rank(|residuals|, alpha)
  {
    hide Rank, HalfWidth, Below;
    HalfWidthReaches(residuals, alpha, 0.0);
  }

  /** The experiment executor passes a classifier's row outcomes, one for a correct row and zero for a wrong one, and
      their mean.  The band then holds every outcome when fewer rows are wrong than the rank, and is the single
      point of the mean otherwise, so that it holds no outcome of a mixed cell. */
  lemma PerRowBand(rows: seq<real>, mean: real, alpha: real, y: real)
    requires ConformalInterval(rows, mean, alpha).Ok? && forall i :: 0 <= i < |rows| ==> rows[i] == 0.0 || rows[i] == 1.0
    requires 0.0 < mean < 1.0 && (y == 0.0 || y == 1.0)
    ensures var i := ConformalInterval(rows, mean, alpha).interval;
      && (i.low <= y <= i.high <==> Below(rows, 1.0) < Rank(|rows|, alpha))
      && (Below(rows, 1.0) >= Rank(|rows|, alpha) ==> i.low == mean == i.high)
  {
    hide Rank, HalfWidth, Below;
    HalfWidthReaches(rows, alpha, 1.0);
    HalfWidthIsAScore(rows, alpha);
  }

  lemma HalfWidthIsAScore(scores: seq<real>, alpha: real)
    requires 0.0 < alpha < 1.0 && Rank(|scores|, alpha) <= |scores|
    ensures HalfWidth(scores, alpha) in scores
  {
    hide Rank;
    SortIsAscending(scores);
    RankPositive(|scores|, alpha);
    SortMembers(scores);
  }

  lemma {:induction false} SortMembers(s: seq<real>)
    ensures forall y :: y in Sort(s) ==> y in s
  {
    if s != [] {
      SortMembers(s[1..]);
      InsertMembers(s[0], Sort(s[1..]));
      assert s == [s[0]] + s[1..];
    }
  }

  lemma {:induction false} InsertMembers(x: real, s: seq<real>)
    ensures forall y :: y in Insert(x, s) ==> y == x || y in s
  {
    if s != [] && x > s[0] {
      InsertMembers(x, s[1..]);
      assert s == [s[0]] + s[1..];
    }
  }
}

/** The bounded e-process: a running product of betting factors over observations in a declared
    interval, and the guarantee behind stopping at 1/alpha (Ville's inequality) for every
    finite adaptive process whose conditional means respect the null hypothesis. */
module EProcess {

  datatype Direction = Above | Below

  datatype Options = Options(direction: Direction, threshold: real, lower: real, upper: real)

  datatype Error = BadBounds | ThresholdOutside | RowOutside(index: nat) | InvalidFactor | BadAlpha

  datatype Result<T> = Ok(value: T) | Err(error: Error)

  datatype Evidence = Evidence(eValue: real, n: nat, lambda: real, factors: seq<real>)

  predicate ValidOptions(o: Options) { o.lower < o.upper && o.lower <= o.threshold <= o.upper }

  function AdverseDistance(o: Options): real {
    if o.direction == Above then o.threshold - o.lower else o.upper - o.threshold
  }

  /** The stake: half the inverse of the distance an observation can fall on the losing side. */
  function Lambda(o: Options): real {
    var magnitude := if AdverseDistance(o) > 0.0 then 0.5 / AdverseDistance(o) else 0.5;
    if o.direction == Above then magnitude else -magnitude
  }

  function Factor(o: Options, row: real): real { 1.0 + Lambda(o) * (row - o.threshold) }

  predicate InRange(o: Options, row: real) { o.lower <= row <= o.upper }

  /** The product of the factors of all rows. */
  function EValue(o: Options, rows: seq<real>): real {
    if rows == [] then 1.0 else EValue(o, rows[..|rows| - 1]) * Factor(o, rows[|rows| - 1])
  }

  // ----- every factor is at least one half -----

  lemma FactorAtLeastHalf(o: Options, row: real)
    requires ValidOptions(o) && InRange(o, row)
    ensures Factor(o, row) >= 0.5
    ensures if o.direction == Above then Lambda(o) > 0.0 else Lambda(o) < 0.0
  {
  }

  /** The bet, without the stake: a row at the threshold leaves the wealth alone, the worst row halves it, and in
      between and beyond the factor is linear in the row.  When no row can lose, the slope is one half. */
  function Bet(o: Options, row: real): real
    requires ValidOptions(o)
  {
    if o.direction == Above then
      if o.threshold == o.lower then 1.0 + (row - o.lower) / 2.0
      else 0.5 + (row - o.lower) / (2.0 * (o.threshold - o.lower))
    else
      if o.threshold == o.upper then 1.0 + (o.upper - row) / 2.0
      else 0.5 + (o.upper - row) / (2.0 * (o.upper - o.threshold))
  }

  /** The code's factor is that bet: exactly one at the threshold and, where a row can lose, exactly one half at the
      worst row. */
  lemma FactorIsBet(o: Options, row: real)
    requires ValidOptions(o)
    ensures Factor(o, row) == Bet(o, row)
    ensures Bet(o, o.threshold) == 1.0
    ensures o.direction == Above && o.lower < o.threshold ==> Bet(o, o.lower) == 0.5
    ensures o.direction == Below && o.threshold < o.upper ==> Bet(o, o.upper) == 0.5
  {
    var d := AdverseDistance(o);
    if d > 0.0 {
      StakeShare(d, if o.direction == Above then row - o.lower else o.upper - row);
    }
  }

  lemma StakeShare(d: real, x: real)
    requires d > 0.0
    ensures 1.0 + 0.5 / d * (x - d) == 0.5 + x / (2.0 * d)
    ensures d / (2.0 * d) == 0.5 && 1.0 - 0.5 / d * (d - x) == 0.5 + x / (2.0 * d)
  {
    var s := 0.5 / d;
    assert s * d == 0.5;
    assert s * (x - d) == s * x - s * d;
    assert s * (d - x) == s * d - s * x;
    assert x / (2.0 * d) == s * x;
  }

  function Product(factors: seq<real>): real {
    if factors == [] then 1.0 else factors[0] * Product(factors[1..])
  }

  lemma {:induction false} ProductAppend(factors: seq<real>, f: real)
    ensures Product(factors + [f]) == Product(factors) * f
  {
    if factors == [] {
      assert factors + [f] == [f] && [f][1..] == [];
    } else {
      assert (factors + [f])[1..] == factors[1..] + [f];
      ProductAppend(factors[1..], f);
      assert factors[0] * (Product(factors[1..]) * f) == factors[0] * Product(factors[1..]) * f;
    }
  }

  lemma {:induction false} EValuePositive(o: Options, rows: seq<real>)
    requires ValidOptions(o) && forall i :: 0 <= i < |rows| ==> InRange(o, rows[i])
    ensures EValue(o, rows) > 0.0
  {
    if rows != [] {
      EValuePositive(o, rows[..|rows| - 1]);
      FactorAtLeastHalf(o, rows[|rows| - 1]);
      ProductPositive(EValue(o, rows[..|rows| - 1]), Factor(o, rows[|rows| - 1]), EValue(o, rows));
    }
  }

  lemma ProductPositive(x: real, y: real, p: real)
    requires x > 0.0 && y > 0.0 && p == x * y
    ensures p > 0.0
  {
  }

  lemma NothingBet(o: Options)
    ensures EValue(o, []) == 1.0 && Product([]) == 1.0
  {
  }

  /** The computation: refuses exactly bad bounds and out-of-range rows (the first one); the
      refusal of an invalid factor is never reached. */
  method Compute(rows: seq<real>, o: Options) returns (r: Result<Evidence>)
    ensures r.Ok? <==> ValidOptions(o) && forall i :: 0 <= i < |rows| ==> InRange(o, rows[i])
    ensures r == Err(BadBounds) <==> !(o.lower < o.upper)
    ensures r == Err(ThresholdOutside) <==> o.lower < o.upper && !(o.lower <= o.threshold <= o.upper)
    ensures r.Err? ==> !r.error.InvalidFactor? && !r.error.BadAlpha?
    ensures r.Err? && r.error.RowOutside? ==>
      r.error.index < |rows| && !InRange(o, rows[r.error.index])
      && forall i :: 0 <= i < r.error.index ==> InRange(o, rows[i])
    ensures r.Ok? ==>
      && r.value.eValue == EValue(o, rows) == Product(r.value.factors) > 0.0
      && r.value.n == |rows| == |r.value.factors|
      && (forall row :: Bet(o, row) == 1.0 + r.value.lambda * (row - o.threshold))
      && forall i :: 0 <= i < |rows| ==> r.value.factors[i] == Factor(o, rows[i]) == Bet(o, rows[i]) >= 0.5
  {
    hide Bet, Product, EValue, Lambda;
    if !(o.lower < o.upper) { return Err(BadBounds); }
    if o.threshold < o.lower || o.threshold > o.upper { return Err(ThresholdOutside); }
    var factors := [];
    var product := 1.0;
    NothingBet(o);
    var i := 0;
    while i < |rows|
      invariant i <= |rows| && |factors| == i
      invariant product == EValue(o, rows[..i]) == Product(factors)
      invariant forall j :: 0 <= j < i ==> InRange(o, rows[j]) && factors[j] == Factor(o, rows[j]) == Bet(o, rows[j]) >= 0.5
    {
      if rows[i] < o.lower || rows[i] > o.upper { return Err(RowOutside(i)); }
      var factor := Factor(o, rows[i]);
      FactorAtLeastHalf(o, rows[i]);
      FactorIsBet(o, rows[i]);
      ProductAppend(factors, factor);
      if !(factor > 0.0) { return Err(InvalidFactor); }
      factors := factors + [factor];
      EValueExtend(o, rows[..i], rows[i]);
      assert rows[..i] + [rows[i]] == rows[..i + 1];
      product := product * factor;
      i := i + 1;
    }
    assert rows[..|rows|] == rows;
    EValuePositive(o, rows);
    forall row
      ensures Bet(o, row) == 1.0 + Lambda(o) * (row - o.threshold)
    {
      FactorIsBet(o, row);
    }
    r := Ok(Evidence(product, |rows|, Lambda(o), factors));
  }

  // ----- adaptive processes -----

  /** A finite-horizon process: at each node a finite distribution of the next observation,
      chosen with knowledge of everything observed before. */
  datatype Process = Stop | Observe(branches: Branches)

  datatype Branches = End | Branch(prob: real, row: real, rest: Process, more: Branches)

  function Mass(bs: Branches): real {
    match bs
    case End => 0.0
    case Branch(prob, _, _, more) => prob + Mass(more)
  }

  /** The unnormalised mean of the next observation. */
  function Mean(bs: Branches): real {
    match bs
    case End => 0.0
    case Branch(prob, row, _, more) => prob * row + Mean(more)
  }

  /** Every node is a distribution on the interval with its mean on the null side. */
  predicate UnderNull(o: Options, p: Process) {
    p.Observe? ==>
      && Mass(p.branches) == 1.0
      && (if o.direction == Above then Mean(p.branches) <= o.threshold else Mean(p.branches) >= o.threshold)
      && BranchesUnderNull(o, p.branches)
  }

  predicate BranchesUnderNull(o: Options, bs: Branches) {
    bs.Branch? ==>
      bs.prob >= 0.0 && InRange(o, bs.row) && UnderNull(o, bs.rest) && BranchesUnderNull(o, bs.more)
  }

  /** The probability that the e-value reaches `level` now or at any later time. */
  function HitProbability(o: Options, p: Process, seen: seq<real>, level: real): real {
    if EValue(o, seen) >= level then 1.0
    else match p
      case Stop => 0.0
      case Observe(bs) => HitBranches(o, bs, seen, level)
  }

  function HitBranches(o: Options, bs: Branches, seen: seq<real>, level: real): real {
    match bs
    case End => 0.0
    case Branch(prob, row, rest, more) =>
      prob * HitProbability(o, rest, seen + [row], level) + HitBranches(o, more, seen, level)
  }

  /** The expected next e-value, per unit of the present one. */
  function ExpectedFactor(o: Options, bs: Branches): real {
    match bs
    case End => 0.0
    case Branch(prob, row, _, more) => prob * Factor(o, row) + ExpectedFactor(o, more)
  }

  lemma {:induction false} ExpectedFactorLinear(o: Options, bs: Branches)
    ensures ExpectedFactor(o, bs) == Mass(bs) + Lambda(o) * (Mean(bs) - o.threshold * Mass(bs))
  {
    hide Lambda;
    match bs {
      case End =>
      case Branch(p, x, _, more) =>
        ExpectedFactorLinear(o, more);
        LinearStep(p, x, Lambda(o), o.threshold, Mass(more), Mean(more));
    }
  }

  lemma LinearStep(p: real, x: real, l: real, t: real, mass: real, mean: real)
    ensures p * (1.0 + l * (x - t)) + (mass + l * (mean - t * mass))
         == (p + mass) + l * ((p * x + mean) - t * (p + mass))
  {
  }

  lemma ExpectedFactorOfDistribution(o: Options, bs: Branches, gap: real, drift: real)
    requires Mass(bs) == 1.0 && gap == Mean(bs) - o.threshold && drift == Lambda(o) * gap
    ensures ExpectedFactor(o, bs) == 1.0 + drift
  {
    hide Lambda, Mean, ExpectedFactor;
    ExpectedFactorLinear(o, bs);
    assert gap == Mean(bs) - o.threshold * Mass(bs);
  }

  /** Under the null hypothesis the e-process is a supermartingale. */
  lemma Supermartingale(o: Options, bs: Branches)
    requires ValidOptions(o) && UnderNull(o, Observe(bs))
    ensures ExpectedFactor(o, bs) <= 1.0
  {
    hide Lambda, Factor, Mass, Mean, ExpectedFactor, BranchesUnderNull;
    FactorAtLeastHalf(o, o.threshold);
    var gap := Mean(bs) - o.threshold;
    var drift := Lambda(o) * gap;
    OppositeSigns(Lambda(o), gap, drift);
    ExpectedFactorOfDistribution(o, bs, gap, drift);
  }

  lemma OppositeSigns(x: real, y: real, p: real)
    requires p == x * y && ((x >= 0.0 && y <= 0.0) || (x <= 0.0 && y >= 0.0))
    ensures p <= 0.0
  {
  }

  lemma EValueExtend(o: Options, seen: seq<real>, row: real)
    ensures EValue(o, seen + [row]) == EValue(o, seen) * Factor(o, row)
  {
    assert (seen + [row])[..|seen + [row]| - 1] == seen;
  }

  lemma WeightedStep(prob: real, hit: real, level: real, m: real, f: real, hits: real, expected: real)
    requires prob >= 0.0 && level * hit <= m * f && level * hits <= m * expected
    ensures level * (prob * hit + hits) <= m * (prob * f + expected)
  {
  }

  /** Ville's inequality, multiplied out: the level times the probability of ever reaching it
      is at most the present e-value. */
  lemma {:induction false} Ville(o: Options, p: Process, seen: seq<real>, level: real)
    requires ValidOptions(o) && UnderNull(o, p) && level > 0.0 && EValue(o, seen) >= 0.0
    ensures level * HitProbability(o, p, seen, level) <= EValue(o, seen)
  {
    hide EValue, ExpectedFactor, Mass, Mean, BranchesUnderNull;
    var m, hit := EValue(o, seen), HitProbability(o, p, seen, level);
    if m < level && p.Observe? {
      VilleBranches(o, p.branches, seen, level);
      Supermartingale(o, p.branches);
      ShrinkProduct(m, ExpectedFactor(o, p.branches));
    } else if m < level {
      assert hit == 0.0 && level * hit == 0.0;
    }
  }

  lemma ShrinkProduct(m: real, f: real)
    requires m >= 0.0 && f <= 1.0
    ensures m * f <= m
  {
  }

  lemma {:induction false} VilleBranches(o: Options, bs: Branches, seen: seq<real>, level: real)
    requires ValidOptions(o) && level > 0.0 && EValue(o, seen) >= 0.0 && BranchesUnderNull(o, bs)
    ensures level * HitBranches(o, bs, seen, level) <= EValue(o, seen) * ExpectedFactor(o, bs)
  {
    hide EValue, Factor, UnderNull, HitProbability;
    match bs {
      case End =>
      case Branch(prob, row, rest, more) =>
        VilleBranches(o, more, seen, level);
        EValueExtend(o, seen, row);
        FactorAtLeastHalf(o, row);
        NonNegativeProduct(EValue(o, seen), Factor(o, row), EValue(o, seen + [row]));
        Ville(o, rest, seen + [row], level);
        WeightedStep(prob, HitProbability(o, rest, seen + [row], level), level,
                     EValue(o, seen), Factor(o, row), HitBranches(o, more, seen, level), ExpectedFactor(o, more));
    }
  }

  lemma NonNegativeProduct(x: real, y: real, p: real)
    requires x >= 0.0 && y >= 0.0 && p == x * y
    ensures p >= 0.0
  {
  }

  // ----- the anytime-valid threshold -----

  function ThresholdForAlpha(alpha: real): Result<real> {
    if 0.0 < alpha < 1.0 then Ok(1.0 / alpha) else Err(BadAlpha)
  }

  /** Whatever the process and whenever one looks, the e-value reaches the threshold for alpha
      with probability at most alpha. */
  lemma AnytimeValid(o: Options, p: Process, alpha: real)
    requires ValidOptions(o) && UnderNull(o, p)
    ensures ThresholdForAlpha(alpha).Ok? <==> 0.0 < alpha < 1.0
    ensures ThresholdForAlpha(alpha).Ok? ==>
      ThresholdForAlpha(alpha).value * alpha == 1.0
      && 0.0 <= HitProbability(o, p, [], ThresholdForAlpha(alpha).value) <= alpha
  {
    if 0.0 < alpha < 1.0 {
      var level := 1.0 / alpha;
      assert level > 0.0 && level * alpha == 1.0;
      Ville(o, p, [], level);
      HitNonNegative(o, p, [], level);
      var hit := HitProbability(o, p, [], level);
      Divide(hit, level, alpha);
    }
  }

  lemma Divide(hit: real, level: real, alpha: real)
    requires alpha > 0.0 && level * alpha == 1.0 && level * hit <= 1.0
    ensures hit <= alpha
  {
  }

  lemma {:induction false} HitNonNegative(o: Options, p: Process, seen: seq<real>, level: real)
    requires UnderNull(o, p)
    ensures HitProbability(o, p, seen, level) >= 0.0
  {
    if EValue(o, seen) < level && p.Observe? {
      HitBranchesNonNegative(o, p.branches, seen, level);
    }
  }

  lemma {:induction false} HitBranchesNonNegative(o: Options, bs: Branches, seen: seq<real>, level: real)
    requires BranchesUnderNull(o, bs)
    ensures HitBranches(o, bs, seen, level) >= 0.0
  {
    hide HitProbability;
    match bs {
      case End =>
      case Branch(prob, row, rest, more) =>
        HitNonNegative(o, rest, seen + [row], level);
        HitBranchesNonNegative(o, more, seen, level);
        var hit := HitProbability(o, rest, seen + [row], level);
        NonNegativeProduct(prob, hit, prob * hit);
    }
  }
}

/** The search for the fusion weight over equally spaced candidates. */
module AlphaSearch {
  import opened Wrappers
  import opened RealSums
  import opened ToleranceSearch

  /** The `i`-th of `n` equally spaced weights from 0 to 1. */
  function Alpha(n: nat, i: nat): real {
    if n <= 1 then 0.0 else i as real / (n - 1) as real
  }

  /** Macro-F1 and negative log-likelihood of the fused validation predictions at a weight. */
  type Evaluation = real -> (real, Cost)

  function AlphaPoints(n: nat, evaluate: Evaluation): (r: seq<Point<real>>)
    ensures |r| == n
  {
    seq(n, i requires 0 <= i < n =>
      Point(Round4(Alpha(n, i)), evaluate(Alpha(n, i)).0, evaluate(Alpha(n, i)).1, true))
  }

  const ALPHA_START: Point<real> := Point(0.5, -1.0, Infinite, false)

  predicate IsOne(a: real) { a == 1.0 }

  predicate IsZero(a: real) { a == 0.0 }

  predicate NearHalf(a: real) { -0.001 < a - 0.5 < 0.001 }

  datatype AlphaReport = AlphaReport(alpha: real, macroF1: real, nll: Cost, xgbOnly: real, cnnOnly: real, equal: real)

  /** The named baselines must be on the grid; a missing one makes the lookup fail. */
  predicate HasBaselines(n: nat) {
    && (exists i :: 0 <= i < n && IsOne(Round4(Alpha(n, i))))
    && (exists i :: 0 <= i < n && IsZero(Round4(Alpha(n, i))))
    && (exists i :: 0 <= i < n && NearHalf(Round4(Alpha(n, i))))
  }

  /** `score` belongs to the first point whose weight qualifies. */
  ghost predicate IsFirst(points: seq<Point<real>>, ok: real -> bool, score: real) {
    exists i :: 0 <= i < |points| && ok(points[i].what) && points[i].score == score
      && forall j :: 0 <= j < i ==> !ok(points[j].what)
  }

  /** `next` over the recorded candidates: the first whose weight qualifies. */
  method FirstWith(points: seq<Point<real>>, ok: real -> bool) returns (found: Option<real>)
    ensures found.Some? <==> exists i :: 0 <= i < |points| && ok(points[i].what)
    ensures found.Some? ==> IsFirst(points, ok, found.value)
  {
    for i := 0 to |points|
      invariant forall j :: 0 <= j < i ==> !ok(points[j].what)
    {
      if ok(points[i].what) { return Some(points[i].score); }
    }
    return None;
  }

  method ScanAlphas(n: nat, evaluate: Evaluation)
    returns (points: seq<Point<real>>, bestAlpha: real, bestF1: real, bestNll: Cost)
    ensures points == AlphaPoints(n, evaluate)
    ensures var r := Search(points, ALPHA_START); bestAlpha == r.what && bestF1 == r.score && bestNll == r.cost
  {
    hide Round4, Alpha, Search;
    points := [];
    bestAlpha, bestF1, bestNll := 0.5, -1.0, Infinite;
    ghost var kept := ALPHA_START;
    assert Search([], ALPHA_START) == ALPHA_START by { SearchNothing(); }
    for i := 0 to n
      invariant points == AlphaPoints(n, evaluate)[..i]
      invariant kept == Search(points, ALPHA_START)
      invariant bestAlpha == kept.what && bestF1 == kept.score && bestNll == kept.cost
    {
      var a := Alpha(n, i);
      var macroF1, nll := evaluate(a).0, evaluate(a).1;
      var candidate := Point(Round4(a), macroF1, nll, true);
      SearchSnoc(points, candidate, ALPHA_START);
      points := points + [candidate];
      if macroF1 > bestF1 || (-TOLERANCE < macroF1 - bestF1 < TOLERANCE && Cheaper(nll, bestNll)) {
        bestF1, bestNll, bestAlpha := macroF1, nll, Round4(a);
      }
      kept := if Replaces(candidate, kept) then candidate else kept;
    }
  }

  lemma SearchNothing()
    ensures Search([], ALPHA_START) == ALPHA_START
  {}

  /** The report, or `None` for the uncaught failure when a baseline is not on the grid. */
  method SearchAlpha(n: nat, evaluate: Evaluation) returns (r: Option<AlphaReport>)
    ensures r.Some? <==> n >= 3 && (n % 2 == 1 || n >= 528)
    ensures r.Some? ==>
      var points := AlphaPoints(n, evaluate);
      var best := Search(points, ALPHA_START);
      && r.value.alpha == best.what && r.value.macroF1 == best.score && r.value.nll == best.cost
      && IsFirst(points, IsOne, r.value.xgbOnly) && IsFirst(points, IsZero, r.value.cnnOnly)
      && IsFirst(points, NearHalf, r.value.equal)
  {
    hide Round4, Alpha, Search, IsFirst;
    var points, alpha, f1, nll := ScanAlphas(n, evaluate);
    assert forall i :: 0 <= i < n ==> points[i].what == Round4(Alpha(n, i));
    BaselinesExactly(n);
    var xgbOnly := FirstWith(points, IsOne);
    var cnnOnly := FirstWith(points, IsZero);
    var equal := FirstWith(points, NearHalf);
    if xgbOnly.None? || cnnOnly.None? || equal.None? { return None; }
    return Some(AlphaReport(alpha, f1, nll, xgbOnly.value, cnnOnly.value, equal.value));
  }

  lemma AlphaIs(n: nat, i: nat, a: real)
    requires n > 1 && a * (n - 1) as real == i as real
    ensures Alpha(n, i) == a
  {
    ScaleBack(i as real, (n - 1) as real);
    LessByFactor(a, Alpha(n, i), (n - 1) as real);
    LessByFactor(Alpha(n, i), a, (n - 1) as real);
  }

  lemma EndsOnGrid(n: nat)
    requires n > 1
    ensures Round4(Alpha(n, 0)) == 0.0 && Round4(Alpha(n, n - 1)) == 1.0
  {
    AlphaIs(n, 0, 0.0);
    AlphaIs(n, n - 1, 1.0);
    RoundsOfHalves();
  }

  /** The search completes on an odd grid of at least three weights, on an even one only from 528 weights on. */
  lemma BaselinesExactly(n: nat)
    ensures HasBaselines(n) <==> n >= 3 && (n % 2 == 1 || n >= 528)
  {
    hide Round4, Alpha;
    if n <= 1 {
      OneWeightIsZero(n);
    } else {
      EndsOnGrid(n);
      if n % 2 == 1 {
        OddGridIsNear(n / 2);
      } else if n >= 528 {
        FineGridIsNear(n);
      } else {
        forall i | 0 <= i < n ensures !NearHalf(Round4(Alpha(n, i))) { CoarseGridIsFar(n, i); }
      }
    }
  }

  lemma OneWeightIsZero(n: nat)
    requires n <= 1
    ensures forall i :: Round4(Alpha(n, i)) != 1.0
  {}

  lemma OddGridIsNear(k: nat)
    requires k > 0
    ensures NearHalf(Round4(Alpha(2 * k + 1, k)))
  {
    assert (2 * k) as real == 2.0 * k as real;
    AlphaIs(2 * k + 1, k, 0.5);
    RoundsOfHalves();
  }

  lemma AlphaTimes(n: nat, i: nat)
    requires n > 1
    ensures (n - 1) as real * Alpha(n, i) == i as real
  {
    ScaleBack(i as real, (n - 1) as real);
  }

  lemma FineGridIsNear(n: nat)
    requires n % 2 == 0 && n >= 528
    ensures NearHalf(Round4(Alpha(n, n / 2)))
  {
    hide Alpha, Round4;
    var d, x := (n - 1) as real, (n / 2) as real;
    AlphaTimes(n, n / 2);
    assert 2.0 * x == d + 1.0;
    ShareBetween(0.5, Alpha(n, n / 2), 0.50094999, x, d);
    RoundNearHalf(Alpha(n, n / 2));
  }

  lemma CoarseGridIsFar(n: nat, i: nat)
    requires n % 2 == 0 && i < n < 528
    ensures !NearHalf(Round4(Alpha(n, i)))
  {
    hide Alpha, Round4;
    var d, x := (n - 1) as real, i as real;
    AlphaTimes(n, i);
    assert 0.0 < d <= 525.0 && x >= 0.0;
    if 2 * i <= n - 2 {
      assert 2.0 * x <= d - 1.0;
      ShareBetween(0.0, Alpha(n, i), 0.499048, x, d);
    } else {
      assert d + 1.0 <= 2.0 * x <= 2.0 * d;
      ShareBetween(0.500952, Alpha(n, i), 1.0, x, d);
    }
    RoundNearHalf(Alpha(n, i));
  }

  lemma ShareBetween(low: real, a: real, high: real, x: real, d: real)
    requires d > 0.0 && d * a == x && low * d <= x <= high * d
    ensures low <= a <= high
  {
    LessByFactor(low, a, d);
    LessByFactor(a, high, d);
  }

  lemma RoundNearHalf(a: real)
    ensures 0.49905 < a < 0.50095 ==> NearHalf(Round4(a))
    ensures NearHalf(Round4(a)) ==> 0.49905 <= a <= 0.50095
  {
    RoundIsNear(a * 10000.0);
  }

  /** Two steps down within the tolerance, each at lower cost: the first of three weights is given up for the last. */
  lemma TwoStepsDown(evaluate: Evaluation)
    requires var a, b, c := evaluate(0.0), evaluate(0.5), evaluate(1.0);
      && a.0 >= 0.0 && Cheaper(b.1, a.1) && Cheaper(c.1, b.1)
      && 0.0 < a.0 - b.0 < TOLERANCE && 0.0 < b.0 - c.0 < TOLERANCE < a.0 - c.0
    ensures var points := AlphaPoints(3, evaluate);
      var r := Search(points, ALPHA_START);
      r.what == 1.0 && points[0].what == 0.0 && points[0].score > r.score + TOLERANCE
  {
    var points := AlphaPoints(3, evaluate);
    AlphaIs(3, 0, 0.0);
    AlphaIs(3, 1, 0.5);
    AlphaIs(3, 2, 1.0);
    RoundsOfHalves();
    hide Alpha, Round4;
    var a := Point(0.0, evaluate(0.0).0, evaluate(0.0).1, true);
    var b := Point(0.5, evaluate(0.5).0, evaluate(0.5).1, true);
    var c := Point(1.0, evaluate(1.0).0, evaluate(1.0).1, true);
    assert points == [a, b, c];
    assert points[1..] == [b, c] && points[1..][1..] == [c] && [c][1..] == [];
    assert Search([c], b) == c && Search([b, c], a) == c && Search(points, ALPHA_START) == c;
  }

  /** For any scores: the scan ends at the best one if and only if a best weight is not undercut by a later weight. */
  lemma WeightsInThisOrder(n: nat, evaluate: Evaluation)
    requires n > 0 && forall a :: evaluate(a).0 >= 0.0
    ensures var points := AlphaPoints(n, evaluate);
      EndsAtTop(points, ALPHA_START) <==> exists t: nat :: t < n && Unthreatened(points, t)
  {
    hide Round4, Alpha, EndsAtTop, Unthreatened;
    var points := AlphaPoints(n, evaluate);
    assert StartsBelow(points, ALPHA_START);
    assert points[0].feasible;
    BestInThisOrder(points, ALPHA_START);
  }

  /** Whether a set of weights always leads to the best one, in whatever order they are tried. */
  lemma WeightsInEveryOrder(n: nat, evaluate: Evaluation)
    requires forall a :: evaluate(a).0 >= 0.0
    ensures var points := AlphaPoints(n, evaluate);
      && ((forall order :: multiset(order) == multiset(points) ==> EndsAtTop(order, ALPHA_START))
        <==> NoCheapNearMiss(points))
      && (NoCheapNearMiss(points) ==> forall i :: 0 <= i < n ==> NoBetter(points[i], Search(points, ALPHA_START)))
  {
    hide Round4, Alpha, NoCheapNearMiss, EndsAtTop, Search;
    var points := AlphaPoints(n, evaluate);
    assert StartsBelow(points, ALPHA_START);
    BestInEveryOrder(points, ALPHA_START);
    if NoCheapNearMiss(points) {
      forall i | 0 <= i < n ensures NoBetter(points[i], Search(points, ALPHA_START)) {
        SafeSearchIsOptimal(points, ALPHA_START, i);
      }
    }
  }
}

/** Tuning the two rejection thresholds on a grid of percentiles of the known samples' own scores. */
module ThresholdTuning {
  import opened RealSums
  import opened ToleranceSearch
  import opened Fusion
  import opened Percentiles

  // Scores of validation rows

  /** Calibrated probabilities of the seven classes. */
  ghost predicate IsRow(p: Row) {
    |p| == CLASSES && Distribution(p)
  }

  ghost predicate AreRows(rows: seq<Row>) {
    rows != [] && forall i :: 0 <= i < |rows| ==> IsRow(rows[i])
  }

  /** Entropy and largest probability of each row; `entropyOf` stands for the base-2 Shannon entropy. */
  function ScoresOf(rows: seq<Row>, entropyOf: Row -> real): Scores
    requires forall i :: 0 <= i < |rows| ==> rows[i] != []
  {
    Scores(seq(|rows|, i requires 0 <= i < |rows| => entropyOf(rows[i])),
           seq(|rows|, i requires 0 <= i < |rows| => Largest(rows[i])))
  }

  datatype Scores = Scores(entropies: seq<real>, confidences: seq<real>)

  predicate Measured(s: Scores) {
    |s.entropies| == |s.confidences| > 0
  }

  function Rejected(s: Scores, tau: real, cMin: real, n: nat): nat
    requires |s.entropies| == |s.confidences| && n <= |s.entropies|
  {
    if n == 0 then 0
    else Rejected(s, tau, cMin, n - 1) + (if s.entropies[n - 1] > tau || s.confidences[n - 1] < cMin then 1 else 0)
  }

  function Rate(s: Scores, tau: real, cMin: real): real
    requires Measured(s)
  {
    Rejected(s, tau, cMin, |s.entropies|) as real / |s.entropies| as real
  }

  /** The first `n` samples that the gate rejects for some reason. */
  function TurnedAway(s: Scores, tau: real, cMin: real, n: nat): set<nat>
    requires |s.entropies| == |s.confidences| && n <= |s.entropies|
  {
    set i: nat | i < n && Gate(s.entropies[i], s.confidences[i], tau, cMin).Some?
  }

  lemma NoneTurnedAway(s: Scores, tau: real, cMin: real)
    requires |s.entropies| == |s.confidences|
    ensures TurnedAway(s, tau, cMin, 0) == {}
  {}

  lemma OneMoreTurnedAway(s: Scores, tau: real, cMin: real, n: nat)
    requires |s.entropies| == |s.confidences| && n < |s.entropies|
    ensures var before := TurnedAway(s, tau, cMin, n);
      var rejected := Gate(s.entropies[n], s.confidences[n], tau, cMin);
      n !in before && TurnedAway(s, tau, cMin, n + 1) == if rejected.Some? then before + {n} else before
  {
    hide Gate;
  }

  /** The rate that tuning works with is the share of samples that the gate turns away. */
  lemma {:induction false} RejectedCountsGate(s: Scores, tau: real, cMin: real, n: nat)
    requires |s.entropies| == |s.confidences| && n <= |s.entropies|
    ensures Rejected(s, tau, cMin, n) == |TurnedAway(s, tau, cMin, n)|
  {
    hide Gate, TurnedAway;
    if n == 0 {
      NoneTurnedAway(s, tau, cMin);
    } else {
      RejectedCountsGate(s, tau, cMin, n - 1);
      OneMoreTurnedAway(s, tau, cMin, n - 1);
    }
  }

  /** A higher entropy bound or a lower confidence bound turns away no flow that was accepted, and never more flows. */
  lemma {:induction false} LooserGateRejectsLess(s: Scores, a: Thresholds, b: Thresholds, n: nat)
    requires |s.entropies| == |s.confidences| && n <= |s.entropies| && a.tau <= b.tau && b.cMin <= a.cMin
    ensures Rejected(s, b.tau, b.cMin, n) <= Rejected(s, a.tau, a.cMin, n)
    ensures forall e, c :: Gate(e, c, a.tau, a.cMin).None? ==> Gate(e, c, b.tau, b.cMin).None?
    decreases n
  {
    if n > 0 { LooserGateRejectsLess(s, a, b, n - 1); }
  }

  lemma RateIsNonNegative(s: Scores, tau: real, cMin: real)
    requires Measured(s)
    ensures Rate(s, tau, cMin) >= 0.0
  {}

  datatype Thresholds = Thresholds(tau: real, cMin: real)

  function Tried(known: Scores, ood: Scores, target: real, t: Thresholds): Point<Thresholds>
    requires Measured(known) && Measured(ood)
  {
    var frr := Rate(known, t.tau, t.cMin);
    Point(t, Rate(ood, t.tau, t.cMin), Finite(frr), frr <= target)
  }

  /** The grid row by row: every confidence for the first entropy, then for the next. */
  function Grid(known: Scores, ood: Scores, target: real, taus: seq<real>, cMins: seq<real>): seq<Point<Thresholds>>
    requires Measured(known) && Measured(ood)
    decreases |taus|
  {
    if taus == [] then [] else
      var n := |taus| - 1;
      Grid(known, ood, target, taus[..n], cMins) + GridRow(known, ood, target, taus[n], cMins)
  }

  function GridRow(known: Scores, ood: Scores, target: real, tau: real, cMins: seq<real>): (r: seq<Point<Thresholds>>)
    requires Measured(known) && Measured(ood)
    ensures |r| == |cMins|
  {
    seq(|cMins|, j requires 0 <= j < |cMins| => Tried(known, ood, target, Thresholds(tau, cMins[j])))
  }

  const NOT_FOUND := -1.0

  /** The point the search starts from; its score is below every rate. */
  function StartPoint(t: Thresholds): Point<Thresholds> {
    Point(t, NOT_FOUND, Finite(1.0), false)
  }

  method ScanGrid(
      known: Scores, ood: Scores, target: real, taus: seq<real>, cMins: seq<real>, first: Thresholds)
    returns (best: Thresholds, frr: real, recall: real)
    requires Measured(known) && Measured(ood)
    ensures var r := Search(Grid(known, ood, target, taus, cMins), StartPoint(first));
      best == r.what && recall == r.score && Finite(frr) == r.cost
  {
    hide Rate;
    best := first;
    recall, frr := NOT_FOUND, 1.0;
    ghost var start := StartPoint(best);
    ghost var kept := start;
    for i := 0 to |taus|
      invariant kept == Search(Grid(known, ood, target, taus[..i], cMins), start)
      invariant best == kept.what && recall == kept.score && Finite(frr) == kept.cost
    {
      var tau := taus[i];
      ghost var above := Grid(known, ood, target, taus[..i], cMins);
      assert taus[..i + 1][..i] == taus[..i] && taus[..i + 1][i] == tau;
      assert GridRow(known, ood, target, tau, cMins[..0]) == [] && above + [] == above;
      for j := 0 to |cMins|
        invariant kept == Search(above + GridRow(known, ood, target, tau, cMins[..j]), start)
        invariant best == kept.what && recall == kept.score && Finite(frr) == kept.cost
      {
        var cMin := cMins[j];
        ghost var p := Tried(known, ood, target, Thresholds(tau, cMin));
        ghost var row := GridRow(known, ood, target, tau, cMins[..j]);
        assert above + GridRow(known, ood, target, tau, cMins[..j + 1]) == (above + row) + [p];
        SearchSnoc(above + row, p, start);
        var candidateFrr := Rate(known, tau, cMin);
        var candidateRecall := Rate(ood, tau, cMin);
        if candidateFrr <= target {
          if candidateRecall > recall
             || (-TOLERANCE < candidateRecall - recall < TOLERANCE && candidateFrr < frr) {
            recall, frr, best := candidateRecall, candidateFrr, Thresholds(tau, cMin);
          }
        }
        kept := if Replaces(p, kept) then p else kept;
      }
      assert cMins[..|cMins|] == cMins;
    }
    assert taus[..|taus|] == taus;
  }

  /** The 20 entropy candidates: percentiles 80 to 99 of the known samples' entropies. */
  function Taus(known: Scores): (r: seq<real>)
    requires Measured(known)
    ensures |r| == 20
  {
    seq(20, i requires 0 <= i < 20 => Percentile(known.entropies, 80 + i))
  }

  /** The 20 confidence candidates: percentiles 1 to 20 of the known samples' confidences. */
  function CMins(known: Scores): (r: seq<real>)
    requires Measured(known)
    ensures |r| == 20
  {
    seq(20, j requires 0 <= j < 20 => Percentile(known.confidences, 1 + j))
  }

  function GridOf(known: Scores, ood: Scores, target: real): seq<Point<Thresholds>>
    requires Measured(known) && Measured(ood)
  {
    Grid(known, ood, target, Taus(known), CMins(known))
  }

  function StartOf(known: Scores): Point<Thresholds>
    requires Measured(known)
  {
    StartPoint(Thresholds(Taus(known)[10], CMins(known)[10]))
  }

  /** What the search over the grid ends with. */
  function Tuned(known: Scores, ood: Scores, target: real): Point<Thresholds>
    requires Measured(known) && Measured(ood)
  {
    Search(GridOf(known, ood, target), StartOf(known))
  }

  function Fallback(known: Scores): Thresholds
    requires Measured(known)
  {
    Thresholds(Percentile(known.entropies, 95), Percentile(known.confidences, 5))
  }

  /** What is written to the configuration. */
  function Stored(t: Thresholds): Thresholds {
    Thresholds(Round4(t.tau), Round4(t.cMin))
  }

  /** Grid search over the percentiles, then the fallback when no candidate met the target. */
  method TuneThresholds(known: seq<Row>, ood: seq<Row>, target: real, entropyOf: Row -> real)
    returns (best: Thresholds, frr: real, recall: real, stored: Thresholds)
    requires AreRows(known) && AreRows(ood)
    ensures var k, o := ScoresOf(known, entropyOf), ScoresOf(ood, entropyOf);
      && Measured(k) && Measured(o)
      && var r := Tuned(k, o, target);
      if r.score < 0.0 then
        best == Fallback(k) && frr == Rate(k, best.tau, best.cMin) && recall == Rate(o, best.tau, best.cMin)
      else
        best == r.what && recall == r.score && Finite(frr) == r.cost
    ensures stored == Stored(best)
  {
    hide Rate, Grid, Percentile, Distribution, Round4;
    var k, o := ScoresOf(known, entropyOf), ScoresOf(ood, entropyOf);
    var taus, cMins := Taus(k), CMins(k);
    best, frr, recall := ScanGrid(k, o, target, taus, cMins, Thresholds(taus[|taus| / 2], cMins[|cMins| / 2]));
    if recall < 0.0 {
      best := Fallback(k);
      frr, recall := Rate(k, best.tau, best.cMin), Rate(o, best.tau, best.cMin);
    }
    stored := Stored(best);
  }

  lemma {:induction false} GridIsTried(
      known: Scores, ood: Scores, target: real, taus: seq<real>, cMins: seq<real>, p: Point<Thresholds>)
    requires Measured(known) && Measured(ood) && p in Grid(known, ood, target, taus, cMins)
    ensures p.what.tau in taus && p.what.cMin in cMins && p == Tried(known, ood, target, p.what) && p.score >= 0.0
    decreases |taus|
  {
    hide Rate;
    var n := |taus| - 1;
    if p in Grid(known, ood, target, taus[..n], cMins) {
      GridIsTried(known, ood, target, taus[..n], cMins, p);
    }
    RateIsNonNegative(ood, p.what.tau, p.what.cMin);
  }

  /** When some grid point keeps the false rejections within target, so does the chosen one, near the best recall. */
  lemma TunedPointIsFeasible(known: Scores, ood: Scores, target: real, i: nat)
    requires Measured(known) && Measured(ood)
    requires i < |GridOf(known, ood, target)| && GridOf(known, ood, target)[i].feasible
    ensures var grid, r := GridOf(known, ood, target), Tuned(known, ood, target);
      && r.what.tau in Taus(known) && r.what.cMin in CMins(known)
      && Rate(known, r.what.tau, r.what.cMin) <= target
      && r.score == Rate(ood, r.what.tau, r.what.cMin) >= 0.0
      && grid[i].score <= r.score + TOLERANCE * (|grid| - 1 - i) as real
  {
    hide Rate, Grid, Taus, CMins;
    var taus, cMins, grid, start := Taus(known), CMins(known), GridOf(known, ood, target), StartOf(known);
    SearchNearBest(grid, start, i);
    SearchKeepsScore(grid, start);
    forall k | 0 <= k < |grid| ensures grid[k].score >= 0.0 {
      GridIsTried(known, ood, target, taus, cMins, grid[k]);
    }
    FeasibleBeatsStart(grid, start.what, i);
    GridIsTried(known, ood, target, taus, cMins, Search(grid, start));
  }

  lemma {:induction false} FeasibleBeatsStart(points: seq<Point<Thresholds>>, start: Thresholds, i: nat)
    requires i < |points| && points[i].feasible && forall k :: 0 <= k < |points| ==> points[k].score >= 0.0
    ensures Search(points, StartPoint(start)) in points && Search(points, StartPoint(start)).feasible
    decreases |points|
  {
    if Replaces(points[0], StartPoint(start)) {
      assert points[0] in points;
      SearchFromFeasible(points[1..], points[0]);
    } else {
      FeasibleBeatsStart(points[1..], start, i - 1);
    }
  }

  lemma SearchFromFeasible(points: seq<Point<Thresholds>>, best: Point<Thresholds>)
    requires best.feasible
    ensures Search(points, best) in [best] + points && Search(points, best).feasible
  {
    SearchKeepsScore(points, best);
  }

  /** With no feasible point at all the search reports none, and the fallback thresholds are taken. */
  lemma {:induction false} NothingFeasible<T>(points: seq<Point<T>>, start: Point<T>)
    requires forall k :: 0 <= k < |points| ==> !points[k].feasible
    ensures Search(points, start) == start
    decreases |points|
  {
    if points != [] { NothingFeasible(points[1..], start); }
  }

  // How many samples the tie-break tolerates

  lemma {:induction false} RejectedAtMost(s: Scores, tau: real, cMin: real, n: nat)
    requires |s.entropies| == |s.confidences| && n <= |s.entropies|
    ensures Rejected(s, tau, cMin, n) <= n
    decreases n
  {
    if n > 0 { RejectedAtMost(s, tau, cMin, n - 1); }
  }

  /** Rates over at most 10 000 samples differ by the tolerance or not at all. */
  lemma RatesAreApart(s: Scores, a: Thresholds, b: Thresholds)
    requires Measured(s) && |s.entropies| <= 10_000
    requires -TOLERANCE < Rate(s, a.tau, a.cMin) - Rate(s, b.tau, b.cMin) < TOLERANCE
    ensures Rate(s, a.tau, a.cMin) == Rate(s, b.tau, b.cMin)
  {
    hide Rejected;
    var n, x, y := |s.entropies|, Rejected(s, a.tau, a.cMin, |s.entropies|), Rejected(s, b.tau, b.cMin, |s.entropies|);
    SharesAreApart(x, y, n);
  }

  lemma SharesAreApart(x: nat, y: nat, n: nat)
    requires 0 < n <= 10_000 && -TOLERANCE < x as real / n as real - y as real / n as real < TOLERANCE
    ensures x == y
  {
    var m, a, b := n as real, x as real / n as real, y as real / n as real;
    ScaleBack(x as real, m);
    ScaleBack(y as real, m);
    if a > b { WithinOne(a, b, m); }
    if b > a { WithinOne(b, a, m); }
  }

  /** Numbers less than the tolerance apart are, in units of `1 / n`, less than a unit apart. */
  lemma WithinOne(a: real, b: real, n: real)
    requires 0.0 < n <= 10_000.0 && 0.0 < a - b < TOLERANCE
    ensures n * b < n * a < n * b + 1.0
  {
    var d := a - b;
    Product(n, d);
    Product(d, 10_000.0 - n);
    Distribute(d, 10_000.0 - n, n);
    Distribute(n, d, b);
    assert d + b == a;
  }

  /**
   * What the thresholds are tuned for: no feasible grid point has more recall, or as much with fewer false
   * rejections.
   */
  predicate TunesBest(known: Scores, ood: Scores, target: real)
    requires Measured(known) && Measured(ood)
  {
    var grid := GridOf(known, ood, target);
    forall i :: 0 <= i < |grid| && grid[i].feasible ==> NoBetter(grid[i], Tuned(known, ood, target))
  }

  lemma GridStartsBelow(known: Scores, ood: Scores, target: real)
    requires Measured(known) && Measured(ood)
    ensures StartsBelow(GridOf(known, ood, target), StartOf(known))
    ensures forall i :: 0 <= i < |GridOf(known, ood, target)| ==>
      var p := GridOf(known, ood, target)[i]; p == Tried(known, ood, target, p.what)
  {
    hide Rate, Grid, Taus, CMins;
    var grid := GridOf(known, ood, target);
    forall p | p in grid ensures p == Tried(known, ood, target, p.what) && p.score >= 0.0 {
      GridIsTried(known, ood, target, Taus(known), CMins(known), p);
    }
  }

  /** For any data: the search ends at the best recall if and only if a best point is not undercut later in the grid. */
  lemma TuningInGridOrder(known: Scores, ood: Scores, target: real)
    requires Measured(known) && Measured(ood)
    requires exists i :: 0 <= i < |GridOf(known, ood, target)| && GridOf(known, ood, target)[i].feasible
    ensures var grid := GridOf(known, ood, target);
      EndsAtTop(grid, StartOf(known)) <==> exists t: nat :: t < |grid| && Unthreatened(grid, t)
  {
    hide GridOf, StartOf, EndsAtTop, Unthreatened, StartsBelow;
    GridStartsBelow(known, ood, target);
    BestInThisOrder(GridOf(known, ood, target), StartOf(known));
  }

  /** With at most 10 000 out-of-distribution samples every search is exact. */
  lemma FewSamplesTuneBest(known: Scores, ood: Scores, target: real)
    requires Measured(known) && Measured(ood) && |ood.entropies| <= 10_000
    ensures TunesBest(known, ood, target)
  {
    var grid := GridOf(known, ood, target);
    GridStartsBelow(known, ood, target);
    hide Rate, GridOf, Taus, CMins;
    forall i, j | 0 <= i < |grid| && 0 <= j < |grid| && -TOLERANCE < grid[i].score - grid[j].score < TOLERANCE
      ensures grid[i].score == grid[j].score
    {
      RatesAreApart(ood, grid[i].what, grid[j].what);
    }
    forall i | 0 <= i < |grid| ensures grid[i].score >= 0.0 {
      RateIsNonNegative(ood, grid[i].what.tau, grid[i].what.cMin);
    }
    SeparatedSearchIsOptimal(grid, StartOf(known));
  }

  // Data on which the tie-break gives up recall

  /** Among rows with largest probability one half, every entropy from 1.1 to 2.2 bits occurs. */
  ghost predicate SpansHalf(entropyOf: Row -> real) {
    forall e :: 1.1 <= e <= 2.2 ==> Occurs(e, entropyOf)
  }

  ghost predicate Occurs(e: real, entropyOf: Row -> real) {
    exists p :: RowWith(p, e, entropyOf)
  }

  ghost predicate RowWith(p: Row, e: real, entropyOf: Row -> real) {
    IsRow(p) && Largest(p) == 0.5 && entropyOf(p) == e
  }

  /** Rows of largest probability one half with the given entropies. */
  lemma {:induction false} RowsWith(entropies: seq<real>, entropyOf: Row -> real) returns (rows: seq<Row>)
    requires SpansHalf(entropyOf) && forall i :: 0 <= i < |entropies| ==> 1.1 <= entropies[i] <= 2.2
    ensures |rows| == |entropies| && forall i :: 0 <= i < |rows| ==> RowWith(rows[i], entropies[i], entropyOf)
    decreases |entropies|
  {
    if entropies == [] { return []; }
    assert Occurs(entropies[0], entropyOf);
    var p :| RowWith(p, entropies[0], entropyOf);
    hide RowWith;
    var rest := RowsWith(entropies[1..], entropyOf);
    rows := [p] + rest;
  }

  function Halves(entropies: seq<real>): Scores {
    Scores(entropies, seq(|entropies|, _ => 0.5))
  }

  lemma ScoresOfHalves(rows: seq<Row>, entropies: seq<real>, entropyOf: Row -> real)
    requires |rows| == |entropies| > 0 && forall i :: 0 <= i < |rows| ==> RowWith(rows[i], entropies[i], entropyOf)
    ensures AreRows(rows) && ScoresOf(rows, entropyOf) == Halves(entropies)
  {
    hide Distribution, Largest;
  }

  /** 101 entropies, 1.1 to 1.6 bits in equal steps. */
  function Ladder(): (s: seq<real>)
    ensures |s| == 101
  {
    seq(101, i => 1.1 + i as real / 200.0)
  }

  /** One entropy between two of the ladder's upper steps, all others above it. */
  function Threshold(n: nat): seq<real>
    requires n > 0
  {
    [1.5775] + seq(n - 1, _ => 2.2)
  }

  lemma LadderGrid()
    ensures Taus(Halves(Ladder())) == seq(20, i => 1.5 + i as real / 200.0)
    ensures CMins(Halves(Ladder())) == seq(20, _ => 0.5)
  {
    var s := Halves(Ladder());
    hide Percentile;
    forall q: nat | q < 100
      ensures Percentile(s.entropies, q) == 1.1 + q as real / 200.0 && Percentile(s.confidences, q) == 0.5
    {
      PercentileOfHundred(s.entropies, q);
      PercentileOfHundred(s.confidences, q);
    }
  }

  lemma {:induction false} LadderRejects(i: nat, n: nat)
    requires i < 20 && n <= 101
    ensures Rejected(Halves(Ladder()), 1.5 + i as real / 200.0, 0.5, n) == if n <= 81 + i then 0 else n - 81 - i
    decreases n
  {
    if n > 0 { LadderRejects(i, n - 1); }
  }

  lemma {:induction false} ThresholdRejects(i: nat, n: nat, m: nat)
    requires i < 20 && 0 < m <= n
    ensures Rejected(Halves(Threshold(n)), 1.5 + i as real / 200.0, 0.5, m) == if i <= 15 then m else m - 1
    decreases m
  {
    if m > 1 { ThresholdRejects(i, n, m - 1); }
  }

  lemma {:induction false} GridAt(known: Scores, ood: Scores, target: real, taus: seq<real>, cMins: seq<real>, t: nat)
    requires Measured(known) && Measured(ood) && |cMins| == 20 && t < 20 * |taus|
    ensures var grid := Grid(known, ood, target, taus, cMins);
      |grid| == 20 * |taus| && grid[t] == Tried(known, ood, target, Thresholds(taus[t / 20], cMins[t % 20]))
    decreases |taus|
  {
    hide Tried;
    var n := |taus| - 1;
    if n > 0 { GridAt(known, ood, target, taus[..n], cMins, if t < 20 * n then t else 0); }
    if t >= 20 * n { assert t / 20 == n && t % 20 == t - 20 * n; }
  }

  /** The ladder's `i`-th row of grid points; all its points are alike. */
  function LadderPoint(n: nat, i: nat): Point<Thresholds>
    requires n > 0 && i < 20
  {
    Tried(Halves(Ladder()), Halves(Threshold(n)), 0.05, Thresholds(1.5 + i as real / 200.0, 0.5))
  }

  lemma LadderPointIs(n: nat, i: nat)
    requires n > 10_000 && i < 20
    ensures var p := LadderPoint(n, i);
      && (p.feasible <==> i >= 15) && p.cost == Finite((20 - i) as real / 101.0)
      && (i <= 15 ==> p.score == 1.0) && (i > 15 ==> 1.0 - TOLERANCE < p.score < 1.0)
  {
    LadderRejects(i, 101);
    ThresholdRejects(i, n, n);
    hide Rejected;
    AlmostAll(n);
    assert (20 - i) as real / 101.0 <= 0.05 <==> (20 - i) as real <= 5.05;
  }

  lemma AlmostAll(n: nat)
    requires n > 10_000
    ensures n as real / n as real == 1.0 && 1.0 - TOLERANCE < (n - 1) as real / n as real < 1.0
  {
    var m, x := n as real, (n - 1) as real / n as real;
    ScaleBack((n - 1) as real, m);
    ScaleBack(m, m);
    LessByFactor(x, 1.0, m);
    if x <= 1.0 - TOLERANCE {
      Product(m, 1.0 - TOLERANCE - x);
      Distribute(m, 1.0 - TOLERANCE - x, x);
    }
  }

  lemma LadderGridAt(n: nat, t: nat)
    requires n > 0 && t < 400
    ensures var grid := GridOf(Halves(Ladder()), Halves(Threshold(n)), 0.05);
      |grid| == 400 && grid[t] == LadderPoint(n, t / 20)
  {
    hide Tried, Taus, CMins;
    LadderGrid();
    var k, o := Halves(Ladder()), Halves(Threshold(n));
    GridAt(k, o, 0.05, Taus(k), CMins(k), t);
  }

  /** From 10 001 samples on, one sample's worth of recall can look like a tie, and is given up. */
  lemma ManySamplesCanTuneWorse(n: nat)
    requires n > 10_000
    ensures !TunesBest(Halves(Ladder()), Halves(Threshold(n)), 0.05)
  {
    var k, o := Halves(Ladder()), Halves(Threshold(n));
    var grid := GridOf(k, o, 0.05);
    hide GridOf, LadderPoint;
    forall t: nat | t < 400 ensures |grid| == 400 && grid[t] == LadderPoint(n, t / 20) { LadderGridAt(n, t); }
    LadderGridAt(n, 0);
    forall t: nat | t < |grid| ensures !Unthreatened(grid, t) {
      LadderPointIs(n, t / 20);
      LadderPointIs(n, 15);
      LadderPointIs(n, 16);
      assert grid[300] in grid && grid[300] == LadderPoint(n, 15) && grid[320] == LadderPoint(n, 16);
      if IsTop(grid, grid[t]) {
        assert t / 20 == 15;
        assert Undercuts(grid[320], grid[t]);
      }
    }
    LadderPointIs(n, 15);
    assert grid[300].feasible;
    TuningInGridOrder(k, o, 0.05);
    if TunesBest(k, o, 0.05) { BestEndsAtTop(k, o, 0.05); }
  }

  lemma BestEndsAtTop(known: Scores, ood: Scores, target: real)
    requires Measured(known) && Measured(ood) && TunesBest(known, ood, target)
    ensures EndsAtTop(GridOf(known, ood, target), StartOf(known))
  {
    hide GridOf, StartOf, Search;
  }

  /** The same with rows behind the scores. */
  lemma ManyRowsCanTuneWorse(n: nat, entropyOf: Row -> real) returns (known: seq<Row>, ood: seq<Row>)
    requires n > 10_000 && SpansHalf(entropyOf)
    ensures AreRows(known) && AreRows(ood) && |ood| == n
    ensures !TunesBest(ScoresOf(known, entropyOf), ScoresOf(ood, entropyOf), 0.05)
  {
    known := RowsWith(Ladder(), entropyOf);
    ood := RowsWith(Threshold(n), entropyOf);
    ScoresOfHalves(known, Ladder(), entropyOf);
    ScoresOfHalves(ood, Threshold(n), entropyOf);
    hide TunesBest;
    ManySamplesCanTuneWorse(n);
  }

  /**
   * The sample size decides: tuning is exact for all validation rows and targets if and only if at most 10 000 of them
   * are out of distribution.
   */
  lemma TuningIsExact(n: nat, entropyOf: Row -> real)
    requires n > 0 && SpansHalf(entropyOf)
    ensures n <= 10_000 <==>
      forall known, ood, target :: AreRows(known) && AreRows(ood) && |ood| == n ==>
        TunesBest(ScoresOf(known, entropyOf), ScoresOf(ood, entropyOf), target)
  {
    hide TunesBest;
    if n <= 10_000 {
      forall known, ood, target | AreRows(known) && AreRows(ood) && |ood| == n
        ensures TunesBest(ScoresOf(known, entropyOf), ScoresOf(ood, entropyOf), target)
      {
        FewSamplesTuneBest(ScoresOf(known, entropyOf), ScoresOf(ood, entropyOf), target);
      }
    } else {
      var known, ood := ManyRowsCanTuneWorse(n, entropyOf);
    }
  }

  // What rounding the stored thresholds does

  lemma RateIsOrdered(s: Scores, a: Thresholds, b: Thresholds)
    requires Measured(s) && a.tau <= b.tau && b.cMin <= a.cMin
    ensures Rate(s, b.tau, b.cMin) <= Rate(s, a.tau, a.cMin)
  {
    LooserGateRejectsLess(s, a, b, |s.entropies|);
    var n := |s.entropies|;
    var x, y := Rejected(s, b.tau, b.cMin, n), Rejected(s, a.tau, a.cMin, n);
    hide Rejected;
    QuotientOrder(x as real, y as real, n as real);
  }

  /**
   * The stored thresholds keep every target that the tuned ones meet if and only if rounding has not lowered the
   * entropy bound and not raised the confidence bound.
   */
  lemma StoredKeepsTarget(t: Thresholds, target: real)
    requires 0.0 <= target < 1.0
    ensures (forall s :: Measured(s) && Rate(s, t.tau, t.cMin) <= target ==>
               Rate(s, Stored(t).tau, Stored(t).cMin) <= target)
      <==> Stored(t).tau >= t.tau && Stored(t).cMin <= t.cMin
  {
    hide Round4;
    var u := Stored(t);
    if u.tau >= t.tau && u.cMin <= t.cMin {
      forall s | Measured(s) && Rate(s, t.tau, t.cMin) <= target ensures Rate(s, u.tau, u.cMin) <= target {
        RateIsOrdered(s, t, u);
      }
    } else {
      var s := Scores([t.tau], [t.cMin]);
      if u.tau < t.tau || u.cMin > t.cMin { SingleRate(t, t); SingleRate(t, u); }
      assert Measured(s);
    }
  }

  lemma SingleRate(t: Thresholds, u: Thresholds)
    ensures Measured(Scores([t.tau], [t.cMin]))
    ensures Rate(Scores([t.tau], [t.cMin]), u.tau, u.cMin) == if t.tau > u.tau || t.cMin < u.cMin then 1.0 else 0.0
  {
    assert Rejected(Scores([t.tau], [t.cMin]), u.tau, u.cMin, 0) == 0;
  }

  /** One known row of 1.50004 bits is never rejected by the tuned thresholds and always by the stored ones. */
  lemma StoredCanMissTarget(ood: Scores, target: real)
    requires Measured(ood) && 0.0 <= target < 1.0
    ensures var known := Halves([1.50004]);
      var t := Tuned(known, ood, target).what;
      Rate(known, t.tau, t.cMin) == 0.0 && Rate(known, Stored(t).tau, Stored(t).cMin) == 1.0
  {
    var known, t := Halves([1.50004]), Thresholds(1.50004, 0.5);
    OnePercentile(1.50004);
    OnePercentile(0.5);
    assert known.confidences == [0.5];
    assert Taus(known) == seq(20, _ => 1.50004) && CMins(known) == seq(20, _ => 0.5);
    hide Percentile;
    GridAt(known, ood, target, Taus(known), CMins(known), 0);
    SingleRate(t, t);
    assert known == Scores([t.tau], [t.cMin]);
    hide Rate, Grid;
    TunedPointIsFeasible(known, ood, target, 0);
    assert Tuned(known, ood, target).what == t;
    RoundsDown();
    SingleRate(t, Stored(t));
  }

  lemma OnePercentile(x: real)
    ensures forall q: nat :: q <= 100 ==> Percentile([x], q) == x
  {
    SortedIsFixed([x]);
  }

  lemma RoundsDown()
    ensures Round4(1.50004) == 1.5 && Round4(0.5) == 0.5
  {
    RoundIsDetermined(15000.4, 15000);
    RoundsOfHalves();
  }

  /** Which percentiles are tried, and which two are fallen back on, read off 101 known samples in order. */
  lemma CandidatesOnHundred(known: Scores)
    requires Measured(known) && |known.entropies| == 101
    requires Percentiles.Ascending(known.entropies) && Percentiles.Ascending(known.confidences)
    ensures Taus(known) == known.entropies[80..100] && CMins(known) == known.confidences[1..21]
    ensures Fallback(known) == Thresholds(known.entropies[95], known.confidences[5])
  {
    hide Percentile, Percentiles.Ascending;
    forall q: nat | q < 100
      ensures Percentile(known.entropies, q) == known.entropies[q]
      ensures Percentile(known.confidences, q) == known.confidences[q]
    {
      PercentileOfHundred(known.entropies, q);
      PercentileOfHundred(known.confidences, q);
    }
  }
}

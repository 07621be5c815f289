/** Expected calibration error over equal-width confidence bins. */
module Calibration {
  import opened RealSums

  function Edge(n: nat, i: nat): real
    requires n > 0
  {
    i as real / n as real
  }

  /** Bin `i` of `n` is closed below and, but for the last one, open above. */
  predicate InBin(c: real, n: nat, i: nat)
    requires n > 0
  {
    c >= Edge(n, i) && (if i == n - 1 then c <= Edge(n, i + 1) else c < Edge(n, i + 1))
  }

  predicate InUnit(s: seq<real>) {
    forall i :: 0 <= i < |s| ==> 0.0 <= s[i] <= 1.0
  }

  /** Sum of the weights of the samples whose confidence falls in the bin. */
  function BinSum(confs: seq<real>, weights: seq<real>, n: nat, i: nat): real
    requires |confs| == |weights| && n > 0
  {
    if confs == [] then 0.0
    else (if InBin(confs[0], n, i) then weights[0] else 0.0) + BinSum(confs[1..], weights[1..], n, i)
  }

  function BinSize(confs: seq<real>, n: nat, i: nat): nat
    requires n > 0
  {
    if confs == [] then 0 else (if InBin(confs[0], n, i) then 1 else 0) + BinSize(confs[1..], n, i)
  }

  /** The bins' gaps between accuracy and confidence, each weighted by the bin's share of the samples. */
  function Gaps(confs: seq<real>, accs: seq<real>, n: nat, k: nat): real
    requires |confs| == |accs| && n > 0
  {
    if k == 0 then 0.0
    else Gaps(confs, accs, n, k - 1) + Abs(BinSum(confs, accs, n, k - 1) - BinSum(confs, confs, n, k - 1))
  }

  function Sizes(confs: seq<real>, n: nat, k: nat): nat
    requires n > 0
  {
    if k == 0 then 0 else Sizes(confs, n, k - 1) + BinSize(confs, n, k - 1)
  }

  predicate IsMean(mean: real, sum: real, count: nat) {
    mean * count as real == sum
  }

  /** A bin's contribution: its share of the samples times the gap between its accuracy and its mean confidence. */
  function BinGap(acc: real, conf: real, size: nat, total: nat): real
    requires total > 0
  {
    (size as real / total as real) * Abs(acc - conf)
  }

  function Center(n: nat, i: nat): real
    requires n > 0
  {
    (Edge(n, i) + Edge(n, i + 1)) / 2.0
  }

  method ComputeEce(confs: seq<real>, accs: seq<real>, numBins: nat)
    returns (ece: real, binAccs: seq<real>, binConfs: seq<real>, binCounts: seq<nat>)
    requires |confs| == |accs| && numBins > 0
    ensures |binAccs| == |binConfs| == |binCounts| == numBins
    ensures forall i :: 0 <= i < numBins ==> binCounts[i] == BinSize(confs, numBins, i)
    ensures forall i :: 0 <= i < numBins && binCounts[i] > 0 ==>
      && IsMean(binAccs[i], BinSum(confs, accs, numBins, i), binCounts[i])
      && IsMean(binConfs[i], BinSum(confs, confs, numBins, i), binCounts[i])
    ensures forall i :: 0 <= i < numBins && binCounts[i] == 0 ==> binAccs[i] == 0.0 && binConfs[i] == Center(numBins, i)
    ensures confs == [] ==> ece == 0.0
    ensures IsMean(ece, Gaps(confs, accs, numBins, numBins), |confs|)
  {
    hide BinSum, BinSize, Center, IsMean, Abs, BinGap;
    assert IsMean(0.0, 0.0, |confs|) by { NoMean(|confs|); }
    ece, binAccs, binConfs, binCounts := 0.0, [], [], [];
    var total := |confs|;
    for i := 0 to numBins
      invariant |binAccs| == |binConfs| == |binCounts| == i
      invariant forall j :: 0 <= j < i ==> binCounts[j] == BinSize(confs, numBins, j)
      invariant forall j :: 0 <= j < i && binCounts[j] > 0 ==>
        && IsMean(binAccs[j], BinSum(confs, accs, numBins, j), binCounts[j])
        && IsMean(binConfs[j], BinSum(confs, confs, numBins, j), binCounts[j])
      invariant forall j :: 0 <= j < i && binCounts[j] == 0 ==> binAccs[j] == 0.0 && binConfs[j] == Center(numBins, j)
      invariant confs == [] ==> ece == 0.0
      invariant IsMean(ece, Gaps(confs, accs, numBins, i), total)
    {
      var size := BinSize(confs, numBins, i);
      assert Gaps(confs, accs, numBins, i + 1)
          == Gaps(confs, accs, numBins, i) + Abs(BinSum(confs, accs, numBins, i) - BinSum(confs, confs, numBins, i));
      SizeZeroSumZero(confs, accs, numBins, i);
      SizeZeroSumZero(confs, confs, numBins, i);
      if size > 0 {
        var accSum, confSum := BinSum(confs, accs, numBins, i), BinSum(confs, confs, numBins, i);
        var acc, conf := accSum / size as real, confSum / size as real;
        AddGap(ece, Gaps(confs, accs, numBins, i), accSum, confSum, size, total);
        ece := ece + BinGap(acc, conf, size, total);
        assert IsMean(ece, Gaps(confs, accs, numBins, i + 1), total);
        binAccs, binConfs := binAccs + [acc], binConfs + [conf];
      } else {
        NoGap(BinSum(confs, accs, numBins, i), BinSum(confs, confs, numBins, i));
        assert BinSum(confs, accs, numBins, i) == BinSum(confs, confs, numBins, i);
        assert Gaps(confs, accs, numBins, i + 1) == Gaps(confs, accs, numBins, i);
        binAccs := binAccs + [0.0];
        binConfs := binConfs + [Center(numBins, i)];
      }
      binCounts := binCounts + [size];
    }
  }

  lemma {:induction false} SizeZeroSumZero(confs: seq<real>, weights: seq<real>, n: nat, i: nat)
    requires |confs| == |weights| && n > 0
    ensures BinSize(confs, n, i) == 0 ==> BinSum(confs, weights, n, i) == 0.0
    ensures BinSize(confs, n, i) <= |confs|
    decreases |confs|
  {
    hide InBin;
    if confs != [] { SizeZeroSumZero(confs[1..], weights[1..], n, i); }
  }

  /** A bin's weighted gap is the gap of its sums. */
  lemma MeanGap(a: real, c: real, size: real, total: real)
    requires 0.0 < size <= total
    ensures a / size * size == a && c / size * size == c
    ensures (size / total) * Abs(a / size - c / size) * total == Abs(a - c)
  {
    ScaleBack(a, size);
    ScaleBack(c, size);
    ScaleBack(size, total);
    var x, y := a / size, c / size;
    assert size * (x - y) == a - c;
    assert size * Abs(x - y) == Abs(a - c);
    var share, gap := size / total, Abs(x - y);
    assert share * gap * total == (share * total) * gap;
  }

  lemma AddGap(ece: real, gaps: real, a: real, c: real, size: nat, total: nat)
    requires 0 < size <= total && IsMean(ece, gaps, total)
    ensures IsMean(a / size as real, a, size) && IsMean(c / size as real, c, size)
    ensures IsMean(ece + BinGap(a / size as real, c / size as real, size, total), gaps + Abs(a - c), total)
  {
    MeanGap(a, c, size as real, total as real);
    Distribute(total as real, ece, BinGap(a / size as real, c / size as real, size, total));
  }

  lemma NoMean(n: nat)
    ensures IsMean(0.0, 0.0, n)
  {}

  lemma NoGap(a: real, c: real)
    ensures a == c ==> Abs(a - c) == 0.0
  {}

  // Every confidence falls in exactly one bin

  lemma EdgeBelow(c: real, n: nat, i: nat)
    requires n > 0
    ensures c >= Edge(n, i) <==> c * n as real >= i as real
  {
    ScaleBack(i as real, n as real);
    var e, r := Edge(n, i), n as real;
    assert r * e == i as real;
    if c >= e { assert r * (c - e) >= 0.0; }
    if c < e { assert r * (e - c) > 0.0; }
  }

  lemma UnitTimes(c: real, r: real)
    requires 0.0 <= c <= 1.0 && r >= 0.0
    ensures 0.0 <= c * r <= r
  {}

  function BinOf(c: real, n: nat): (i: nat)
    requires n > 0 && 0.0 <= c <= 1.0
    ensures i < n
  {
    UnitTimes(c, n as real);
    var i := (c * n as real).Floor;
    if i >= n then n - 1 else i
  }

  lemma OneBin(c: real, n: nat, i: nat)
    requires n > 0 && 0.0 <= c <= 1.0 && i < n
    ensures InBin(c, n, i) <==> i == BinOf(c, n)
  {
    EdgeBelow(c, n, i);
    EdgeBelow(c, n, i + 1);
    UnitTimes(c, n as real);
    if i == n - 1 {
      ScaleBack(n as real, n as real);
      assert Edge(n, n) == 1.0;
    }
  }

  /** Sum over the first `k` bins. */
  function AcrossBins(confs: seq<real>, weights: seq<real>, n: nat, k: nat): real
    requires |confs| == |weights| && n > 0
  {
    if k == 0 then 0.0 else AcrossBins(confs, weights, n, k - 1) + BinSum(confs, weights, n, k - 1)
  }

  lemma {:induction false} AcrossOneMore(confs: seq<real>, weights: seq<real>, n: nat, k: nat)
    requires |confs| == |weights| > 0 && n > 0 && 0.0 <= confs[0] <= 1.0 && k <= n
    ensures AcrossBins(confs, weights, n, k)
         == AcrossBins(confs[1..], weights[1..], n, k) + (if BinOf(confs[0], n) < k then weights[0] else 0.0)
    decreases k
  {
    hide InBin, BinOf;
    if k > 0 {
      AcrossOneMore(confs, weights, n, k - 1);
      OneBin(confs[0], n, k - 1);
    }
  }

  /** Binning loses no weight: the bins' sums add up to the whole. */
  lemma {:induction false} BinsPartition(confs: seq<real>, weights: seq<real>, n: nat)
    requires |confs| == |weights| && n > 0 && InUnit(confs)
    ensures AcrossBins(confs, weights, n, n) == Sum(weights)
    decreases |confs|
  {
    if confs == [] {
      EmptyAcross(n, n);
    } else {
      AcrossOneMore(confs, weights, n, n);
      BinsPartition(confs[1..], weights[1..], n);
    }
  }

  lemma {:induction false} EmptyAcross(n: nat, k: nat)
    requires n > 0
    ensures AcrossBins([], [], n, k) == 0.0
    decreases k
  {
    if k > 0 { EmptyAcross(n, k - 1); }
  }

  lemma {:induction false} SizeIsSum(confs: seq<real>, n: nat, i: nat)
    requires n > 0
    ensures BinSize(confs, n, i) as real == BinSum(confs, Ones(|confs|), n, i)
    decreases |confs|
  {
    hide InBin;
    if confs != [] {
      assert Ones(|confs|)[1..] == Ones(|confs[1..]|);
      SizeIsSum(confs[1..], n, i);
    }
  }

  lemma {:induction false} SizesAreAcross(confs: seq<real>, n: nat, k: nat)
    requires n > 0
    ensures Sizes(confs, n, k) as real == AcrossBins(confs, Ones(|confs|), n, k)
    decreases k
  {
    if k > 0 {
      SizesAreAcross(confs, n, k - 1);
      SizeIsSum(confs, n, k - 1);
    }
  }

  /** The bin counts add up to the number of samples. */
  lemma CountsSumToSamples(confs: seq<real>, n: nat)
    requires n > 0 && InUnit(confs)
    ensures Sizes(confs, n, n) == |confs|
  {
    SizesAreAcross(confs, n, n);
    BinsPartition(confs, Ones(|confs|), n);
    SumOfOnes(|confs|);
  }

  lemma {:induction false} BinSumWithinSize(confs: seq<real>, weights: seq<real>, n: nat, i: nat)
    requires |confs| == |weights| && n > 0 && InUnit(weights)
    ensures 0.0 <= BinSum(confs, weights, n, i) <= BinSize(confs, n, i) as real
    decreases |confs|
  {
    hide InBin;
    if confs != [] { BinSumWithinSize(confs[1..], weights[1..], n, i); }
  }

  lemma {:induction false} GapsBounds(confs: seq<real>, accs: seq<real>, n: nat, k: nat)
    requires |confs| == |accs| && n > 0 && InUnit(confs) && InUnit(accs)
    ensures 0.0 <= Gaps(confs, accs, n, k) <= Sizes(confs, n, k) as real
    ensures Abs(AcrossBins(confs, accs, n, k) - AcrossBins(confs, confs, n, k)) <= Gaps(confs, accs, n, k)
    decreases k
  {
    hide BinSum, BinSize;
    if k > 0 {
      GapsBounds(confs, accs, n, k - 1);
      BinSumWithinSize(confs, accs, n, k - 1);
      BinSumWithinSize(confs, confs, n, k - 1);
    }
  }

  /**
   * The calibration error of any samples and bins lies in [0, 1] and is at least the gap between overall accuracy and
   * overall mean confidence.
   */
  lemma EceBounds(confs: seq<real>, accs: seq<real>, n: nat, ece: real)
    requires |confs| == |accs| > 0 && n > 0 && InUnit(confs) && InUnit(accs)
    requires IsMean(ece, Gaps(confs, accs, n, n), |confs|)
    ensures 0.0 <= ece <= 1.0
    ensures ece >= Abs(Sum(accs) / |confs| as real - Sum(confs) / |confs| as real)
  {
    hide Gaps, Sizes, AcrossBins, Sum, Abs, InUnit;
    var total, gaps := |confs|, Gaps(confs, accs, n, n);
    GapsBounds(confs, accs, n, n);
    CountsSumToSamples(confs, n);
    BinsPartition(confs, accs, n);
    BinsPartition(confs, confs, n);
    MeanOfDifference(Sum(accs), Sum(confs), total);
    MeanMonotone(0.0, 0.0, ece, gaps, total);
    MeanMonotone(ece, gaps, 1.0, total as real, total);
    MeanMonotone(
      Abs(Sum(accs) / total as real - Sum(confs) / total as real), Abs(Sum(accs) - Sum(confs)), ece, gaps, total);
  }

  lemma MeanOfDifference(a: real, c: real, total: nat)
    requires total > 0
    ensures IsMean(Abs(a / total as real - c / total as real), Abs(a - c), total)
    ensures IsMean(0.0, 0.0, total) && IsMean(1.0, total as real, total)
  {
    var t := total as real;
    MeanGap(a, c, t, t);
    ScaleBack(t, t);
    var gap := Abs(a / t - c / t);
    assert t / t == 1.0;
    assert (t / t) * gap * t == gap * t;
  }

  lemma MeanMonotone(x: real, sumX: real, y: real, sumY: real, total: nat)
    requires total > 0 && IsMean(x, sumX, total) && IsMean(y, sumY, total) && sumX <= sumY
    ensures x <= y
  {
    LessByFactor(x, y, total as real);
  }

  // The error from the reported bins

  function WeightedGaps(accs: seq<real>, confs: seq<real>, counts: seq<nat>, k: nat): real
    requires k <= |accs| && |accs| == |confs| == |counts|
  {
    if k == 0 then 0.0
    else WeightedGaps(accs, confs, counts, k - 1) + counts[k - 1] as real * Abs(accs[k - 1] - confs[k - 1])
  }

  /** The bins that are reported give the error back: gaps between accuracy and confidence, weighted by bin size. */
  lemma {:induction false} BinsGiveGaps(
      confs: seq<real>, accs: seq<real>, n: nat, binAccs: seq<real>, binConfs: seq<real>, binCounts: seq<nat>, k: nat)
    requires |confs| == |accs| && n > 0 && k <= n && |binAccs| == |binConfs| == |binCounts| == n
    requires forall i :: 0 <= i < n ==> binCounts[i] == BinSize(confs, n, i)
    requires forall i :: 0 <= i < n && binCounts[i] > 0 ==>
      && IsMean(binAccs[i], BinSum(confs, accs, n, i), binCounts[i])
      && IsMean(binConfs[i], BinSum(confs, confs, n, i), binCounts[i])
    ensures Gaps(confs, accs, n, k) == WeightedGaps(binAccs, binConfs, binCounts, k)
    decreases k
  {
    hide BinSum, BinSize, Abs;
    if k > 0 {
      var i := k - 1;
      BinsGiveGaps(confs, accs, n, binAccs, binConfs, binCounts, i);
      SizeZeroSumZero(confs, accs, n, i);
      SizeZeroSumZero(confs, confs, n, i);
      if binCounts[i] > 0 {
        OneGap(binAccs[i], binConfs[i], BinSum(confs, accs, n, i), BinSum(confs, confs, n, i), binCounts[i]);
      } else {
        NoGap(BinSum(confs, accs, n, i), BinSum(confs, confs, n, i));
        NoWeight(Abs(binAccs[i] - binConfs[i]));
      }
      hide IsMean;
    }
  }

  lemma OneGap(acc: real, conf: real, a: real, c: real, count: nat)
    requires IsMean(acc, a, count) && IsMean(conf, c, count)
    ensures count as real * Abs(acc - conf) == Abs(a - c)
  {
    assert count as real * (acc - conf) == a - c;
    assert acc >= conf ==> a >= c by { if acc >= conf { Product(count as real, acc - conf); } }
    assert acc <= conf ==> a <= c by { if acc <= conf { Product(count as real, conf - acc); } }
  }

  lemma NoWeight(x: real)
    ensures 0 as real * x == 0.0
  {}

  /** What an empty bin reports lies midway between its edges: at odd multiples of half a bin's width. */
  lemma CentersAreMidway(n: nat, i: nat)
    requires n > 0
    ensures Center(n, i) * (2 * n) as real == (2 * i + 1) as real
  {
    ScaleBack(i as real, n as real);
    ScaleBack((i + 1) as real, n as real);
    var r := n as real;
    assert (2 * n) as real == 2.0 * r && r * Edge(n, i) == i as real && r * Edge(n, i + 1) == i as real + 1.0;
    Distribute(r, Edge(n, i), Edge(n, i + 1));
    assert Center(n, i) * (2.0 * r) == r * (Edge(n, i) + Edge(n, i + 1));
  }
}

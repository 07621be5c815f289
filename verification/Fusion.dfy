/** Fusing two class distributions, calibrating the result, and what survives of the winning class. */
module Fusion {
  import opened Wrappers
  import opened RealSums

  type Row = seq<real>

  const EPS := 0.000000000001
  const CLASSES: nat := 7
  const MAX_CLASSES: nat := 1_000_000_000_000

  ghost predicate Distribution(p: Row) {
    && 0 < |p| < MAX_CLASSES
    && (forall i :: 0 <= i < |p| ==> p[i] >= 0.0)
    && Sum(p) == 1.0
  }

  /** The first index at which the row is largest. */
  predicate IsArgMax(p: Row, m: nat) {
    && m < |p|
    && (forall j :: 0 <= j < |p| ==> p[j] <= p[m])
    && forall j :: 0 <= j < m ==> p[j] < p[m]
  }

  method ArgMax(p: Row) returns (m: nat)
    requires p != []
    ensures IsArgMax(p, m)
  {
    m := 0;
    for i := 1 to |p|
      invariant m < i
      invariant forall j :: 0 <= j < i ==> p[j] <= p[m]
      invariant forall j :: 0 <= j < m ==> p[j] < p[m]
    {
      if p[i] > p[m] { m := i; }
    }
  }

  lemma ArgMaxIsUnique(p: Row, a: nat, b: nat)
    requires IsArgMax(p, a) && IsArgMax(p, b)
    ensures a == b
  {
    assert p[a] == p[b];
  }

  function Blend(w: real, a: real, b: real): real {
    w * a + (1.0 - w) * b
  }

  function Mix(w: real, x: Row, c: Row): (r: Row)
    requires |x| == |c|
    ensures |r| == |x|
  {
    seq(|x|, i requires 0 <= i < |x| => Blend(w, x[i], c[i]))
  }

  function Scale(p: Row, k: real): (r: Row)
    requires k != 0.0
    ensures |r| == |p|
  {
    seq(|p|, i requires 0 <= i < |p| => p[i] / k)
  }

  datatype FusionError = ShapeMismatch | WrongClassCount | AlphaOutOfRange | BadTemperature

  /** The weighted average, renormalized. */
  function Fuse(x: Row, c: Row, w: real, classes: nat): Result<Row, FusionError> {
    if |x| != |c| then Err(ShapeMismatch)
    else if |x| != classes then Err(WrongClassCount)
    else if !(0.0 <= w <= 1.0) then Err(AlphaOutOfRange)
    else
      var mixed := Mix(w, x, c);
      Ok(Scale(mixed, if Sum(mixed) > 0.0 then Sum(mixed) else 1.0))
  }

  lemma {:induction false} SumOfMix(w: real, x: Row, c: Row)
    requires |x| == |c|
    ensures Sum(Mix(w, x, c)) == w * Sum(x) + (1.0 - w) * Sum(c)
    decreases |x|
  {
    if x != [] {
      SumOfMix(w, x[1..], c[1..]);
      assert Mix(w, x, c)[1..] == Mix(w, x[1..], c[1..]) by { hide Blend; }
      Distribute(w, x[0], Sum(x[1..]));
      Distribute(1.0 - w, c[0], Sum(c[1..]));
    }
  }

  lemma {:induction false} SumOfScale(p: Row, k: real)
    requires k != 0.0
    ensures Sum(Scale(p, k)) * k == Sum(p)
    decreases |p|
  {
    if p != [] {
      SumOfScale(p[1..], k);
      assert Scale(p, k)[1..] == Scale(p[1..], k);
      ScaleBack(p[0], k);
      Distribute(k, p[0] / k, Sum(Scale(p[1..], k)));
    }
  }

  /** Dividing a row by a positive number keeps its winner. */
  lemma ScaleKeepsArgMax(p: Row, k: real, m: nat)
    requires k > 0.0 && IsArgMax(p, m)
    ensures IsArgMax(Scale(p, k), m)
  {
    forall j | 0 <= j < |p| ensures p[j] / k <= p[m] / k && (j < m ==> p[j] / k < p[m] / k) {
      QuotientOrder(p[j], p[m], k);
    }
  }

  lemma BlendOrder(w: real, a: real, b: real, c: real, d: real)
    requires 0.0 <= w <= 1.0 && a <= b && c <= d
    ensures Blend(w, a, c) <= Blend(w, b, d)
    ensures a < b && c < d ==> Blend(w, a, c) < Blend(w, b, d)
  {
    Product(w, b - a);
    Product(1.0 - w, d - c);
    assert w * (b - a) == w * b - w * a;
    assert (1.0 - w) * (d - c) == (1.0 - w) * d - (1.0 - w) * c;
  }

  lemma MixOfSums(w: real, x: Row, c: Row)
    requires |x| == |c|
    ensures Sum(Mix(w, x, c)) == Blend(w, Sum(x), Sum(c))
  {
    SumOfMix(w, x, c);
  }

  lemma BlendOfOnes(w: real, a: real, b: real)
    requires a == 1.0 && b == 1.0
    ensures Blend(w, a, b) == 1.0
  {}

  lemma FuseIsDistribution(x: Row, c: Row, w: real)
    requires Distribution(x) && Distribution(c) && |x| == |c| && 0.0 <= w <= 1.0
    ensures Fuse(x, c, w, |x|).Ok? && Distribution(Fuse(x, c, w, |x|).value)
    ensures Fuse(x, c, w, |x|).value == Mix(w, x, c)
  {
    var mixed := Mix(w, x, c);
    MixOfSums(w, x, c);
    BlendOfOnes(w, Sum(x), Sum(c));
    assert Sum(mixed) == 1.0;
    hide Sum;
    assert Scale(mixed, 1.0) == mixed;
    forall i | 0 <= i < |mixed| ensures mixed[i] >= 0.0 { BlendOrder(w, 0.0, x[i], 0.0, c[i]); }
  }

  /** At weight 1 the mixture is the tabular branch, at weight 0 the sequence branch. */
  lemma FuseEndsAtBranches(x: Row, c: Row)
    requires Distribution(x) && Distribution(c) && |x| == |c|
    ensures Fuse(x, c, 1.0, |x|) == Ok(x) && Fuse(x, c, 0.0, |x|) == Ok(c)
  {
    FuseIsDistribution(x, c, 1.0);
    FuseIsDistribution(x, c, 0.0);
    hide Fuse, Sum;
    assert Mix(1.0, x, c) == x && Mix(0.0, x, c) == c;
  }

  /** Every fused entry lies the share `w` of the way from the sequence branch's to the tabular branch's. */
  lemma FuseIsBetween(x: Row, c: Row, w: real, i: nat)
    requires Distribution(x) && Distribution(c) && |x| == |c| && 0.0 <= w <= 1.0 && i < |x|
    ensures Fuse(x, c, w, |x|).Ok? && Fuse(x, c, w, |x|).value[i] - c[i] == w * (x[i] - c[i])
  {
    FuseIsDistribution(x, c, w);
    hide Fuse, Sum;
    Distribute(w, x[i] - c[i], c[i]);
  }

  /** Rows that are no distributions are renormalized, unless nothing is left to divide by. */
  lemma FuseRenormalizes(x: Row, c: Row, w: real, i: nat)
    requires |x| == |c| && 0.0 <= w <= 1.0 && i < |x|
    ensures var r, total := Fuse(x, c, w, |x|), Blend(w, Sum(x), Sum(c));
      && r.Ok? && |r.value| == |x|
      && (total > 0.0 ==> Sum(r.value) == 1.0 && r.value[i] * total == Blend(w, x[i], c[i]))
      && (total <= 0.0 ==> r.value[i] == Blend(w, x[i], c[i]))
  {
    MixOfSums(w, x, c);
    assert Mix(w, x, c)[i] == Blend(w, x[i], c[i]);
    FuseIs(x, c, w);
    hide Sum, Blend, Mix, Fuse;
    Renormalized(Mix(w, x, c), i);
  }

  lemma FuseIs(x: Row, c: Row, w: real)
    requires |x| == |c| && 0.0 <= w <= 1.0
    ensures var mixed := Mix(w, x, c);
      Fuse(x, c, w, |x|) == Ok(Scale(mixed, if Sum(mixed) > 0.0 then Sum(mixed) else 1.0))
  {
    hide Sum, Mix, Scale;
  }

  lemma Renormalized(p: Row, i: nat)
    requires i < |p|
    ensures Sum(p) > 0.0 ==> Sum(Scale(p, Sum(p))) == 1.0 && Scale(p, Sum(p))[i] * Sum(p) == p[i]
    ensures Scale(p, 1.0)[i] == p[i]
  {
    hide Sum;
    if Sum(p) > 0.0 {
      WholeIsOne(p, Sum(p));
      ScaleBack(p[i], Sum(p));
    }
  }

  /** Which of the three complaints is made about unfit rows or weights. */
  lemma FuseComplains(x: Row, c: Row, w: real, classes: nat)
    ensures Fuse(x, c, w, classes) == Err(ShapeMismatch) <==> |x| != |c|
    ensures Fuse(x, c, w, classes) == Err(WrongClassCount) <==> |x| == |c| != classes
    ensures Fuse(x, c, w, classes) == Err(AlphaOutOfRange) <==> |x| == |c| == classes && (w < 0.0 || w > 1.0)
  {}

  /** When both branches pick the same class, so does every mixture of them. */
  lemma FuseKeepsAgreedClass(x: Row, c: Row, w: real, m: nat)
    requires Distribution(x) && Distribution(c) && |x| == |c| && 0.0 <= w <= 1.0
    requires IsArgMax(x, m) && IsArgMax(c, m)
    ensures Fuse(x, c, w, |x|).Ok? && IsArgMax(Fuse(x, c, w, |x|).value, m)
  {
    FuseIsDistribution(x, c, w);
    hide Sum, Fuse, Blend;
    forall j | 0 <= j < |x|
      ensures Mix(w, x, c)[j] <= Mix(w, x, c)[m] && (j < m ==> Mix(w, x, c)[j] < Mix(w, x, c)[m])
    {
      BlendOrder(w, x[j], x[m], c[j], c[m]);
    }
  }

  // Temperature calibration

  /** The tempered weight of a probability: positive and strictly increasing from the clip upwards. */
  ghost predicate Tempering(g: real -> real) {
    forall a, b :: EPS <= a < b <= 1.0 ==> 0.0 < g(a) < g(b)
  }

  function Clip(p: real): real {
    if p < EPS then EPS else if p > 1.0 then 1.0 else p
  }

  function Largest(p: Row): (x: real)
    requires p != []
    ensures x in p && forall j :: 0 <= j < |p| ==> p[j] <= x
  {
    if |p| == 1 then p[0]
    else
      var x := Largest(p[1..]);
      assert forall j :: 0 < j < |p| ==> p[j] == p[1..][j - 1];
      if p[0] > x then p[0] else x
  }

  function Weights(p: Row, g: real -> real): (r: Row)
    ensures |r| == |p|
  {
    seq(|p|, i requires 0 <= i < |p| => g(Clip(p[i])))
  }

  /** Softmax of the tempered row, shifted by its maximum first; near temperature 1 the row is left alone. */
  function Calibrate(p: Row, temperature: real, g: real -> real, classes: nat): Result<Row, FusionError> {
    if |p| != classes || p == [] then Err(WrongClassCount)
    else if temperature <= 0.0 then Err(BadTemperature)
    else if -0.000001 < temperature - 1.0 < 0.000001 then Ok(p)
    else
      var weights := Weights(p, g);
      if Largest(weights) <= 0.0 then Err(BadTemperature)
      else
        var shifted := Scale(weights, Largest(weights));
        if Sum(shifted) <= 0.0 then Err(BadTemperature) else Ok(Scale(shifted, Sum(shifted)))
  }

  lemma {:induction false} SumAtMost(p: Row, x: real)
    requires forall i :: 0 <= i < |p| ==> p[i] <= x
    ensures Sum(p) <= |p| as real * x
    decreases |p|
  {
    if p != [] { SumAtMost(p[1..], x); }
  }

  lemma AboveShare(x: real, n: nat)
    requires 0 < n < MAX_CLASSES && n as real * x >= 1.0
    ensures x > EPS
  {
    var k := n as real;
    assert k * x >= 1.0;
    assert k * EPS <= (MAX_CLASSES - 1) as real * EPS < 1.0;
    assert k * (x - EPS) > 0.0;
  }

  /** The winner of a distribution lies above the clip. */
  lemma WinnerAboveClip(p: Row, m: nat)
    requires Distribution(p) && IsArgMax(p, m)
    ensures EPS < p[m] <= 1.0
  {
    SumAtMost(p, p[m]);
    AboveShare(p[m], |p|);
    SumSplit(p, m);
    SumNonNegative(p[..m]);
    assert p[m..][0] == p[m] && p[m..][1..] == p[m + 1..];
    SumNonNegative(p[m + 1..]);
  }

  lemma WeightsKeepArgMax(p: Row, g: real -> real, m: nat)
    requires Distribution(p) && IsArgMax(p, m) && Tempering(g)
    ensures IsArgMax(Weights(p, g), m)
    ensures forall i :: 0 <= i < |p| ==> Weights(p, g)[i] > 0.0
  {
    WinnerAboveClip(p, m);
    forall j | 0 <= j < |p|
      ensures 0.0 < Weights(p, g)[j] <= Weights(p, g)[m] && (j < m ==> Weights(p, g)[j] < Weights(p, g)[m])
    {
      assert Clip(p[j]) <= Clip(p[m]) && (p[j] < p[m] ==> Clip(p[j]) < Clip(p[m]));
      assert 0.0 < g(EPS) < g(1.0);
    }
  }

  lemma PositiveQuotients(p: Row, k: real)
    requires k > 0.0 && forall i :: 0 <= i < |p| ==> p[i] > 0.0
    ensures forall i :: 0 <= i < |p| ==> Scale(p, k)[i] > 0.0
  {
    forall i | 0 <= i < |p| ensures Scale(p, k)[i] > 0.0 { QuotientOrder(0.0, p[i], k); }
  }

  /** Calibration at any positive temperature yields a distribution with the same winner. */
  lemma CalibrateKeepsArgMax(p: Row, temperature: real, g: real -> real, m: nat)
    requires Distribution(p) && IsArgMax(p, m) && Tempering(g) && temperature > 0.0
    ensures var r := Calibrate(p, temperature, g, |p|);
      r.Ok? && Distribution(r.value) && IsArgMax(r.value, m)
  {
    assert |p| < MAX_CLASSES;
    hide Sum, Distribution, Weights, Largest;
    if !(-0.000001 < temperature - 1.0 < 0.000001) {
      WeightsKeepArgMax(p, g, m);
      SoftmaxKeepsArgMax(Weights(p, g), m);
    }
  }

  lemma ScaleKeepsRatios(p: Row, w: Row, k: real, i: nat, j: nat)
    requires k != 0.0 && i < |p| && j < |p| && |w| == |p| && Times(p[i], w[j]) == Times(p[j], w[i])
    ensures Times(Scale(p, k)[i], w[j]) == Times(Scale(p, k)[j], w[i])
  {
    QuotientTimes(p[i], w[j], k);
    QuotientTimes(p[j], w[i], k);
  }

  /**
   * Away from temperature 1 the calibrated entries stand to each other as the tempered probabilities do, clipped from
   * below; with their sum of 1 this determines the row.
   */
  lemma CalibrateKeepsRatios(p: Row, temperature: real, g: real -> real, i: nat, j: nat)
    requires Distribution(p) && Tempering(g) && temperature > 0.0 && i < |p| && j < |p|
    requires temperature <= 0.999999 || temperature >= 1.000001
    ensures var r := Calibrate(p, temperature, g, |p|);
      && r.Ok? && |r.value| == |p| && Sum(r.value) == 1.0
      && r.value[i] * g(if p[j] < EPS then EPS else p[j]) == r.value[j] * g(if p[i] < EPS then EPS else p[i])
  {
    hide *;
    CalibrateTimes(p, temperature, g, i, j);
    var r := Calibrate(p, temperature, g, |p|).value;
    TimesIs(r[i], g(if p[j] < EPS then EPS else p[j]));
    TimesIs(r[j], g(if p[i] < EPS then EPS else p[i]));
  }

  lemma CalibrateTimes(p: Row, temperature: real, g: real -> real, i: nat, j: nat)
    requires Distribution(p) && Tempering(g) && temperature > 0.0 && i < |p| && j < |p|
    requires temperature <= 0.999999 || temperature >= 1.000001
    ensures var r := Calibrate(p, temperature, g, |p|);
      && r.Ok? && |r.value| == |p| && Sum(r.value) == 1.0
      && Times(r.value[i], g(if p[j] < EPS then EPS else p[j]))
        == Times(r.value[j], g(if p[i] < EPS then EPS else p[i]))
  {
    CalibrateIsSoftmax(p, temperature, g);
    WeightIs(p, g, i);
    WeightIs(p, g, j);
    hide *;
    SoftmaxKeepsRatios(Weights(p, g), i, j);
  }

  lemma CalibrateIsSoftmax(p: Row, temperature: real, g: real -> real)
    requires Distribution(p) && Tempering(g) && temperature > 0.0
    requires temperature <= 0.999999 || temperature >= 1.000001
    ensures Largest(Weights(p, g)) > 0.0 && Sum(Scale(Weights(p, g), Largest(Weights(p, g)))) > 0.0
    ensures var shifted := Scale(Weights(p, g), Largest(Weights(p, g)));
      Calibrate(p, temperature, g, |p|) == Ok(Scale(shifted, Sum(shifted))) && Sum(Scale(shifted, Sum(shifted))) == 1.0
  {
    var m := FirstLargest(p);
    WeightsKeepArgMax(p, g, m);
    SoftmaxKeepsArgMax(Weights(p, g), m);
    hide Weights, Largest, Sum, Scale, Tempering, IsArgMax;
  }

  lemma WeightIs(p: Row, g: real -> real, i: nat)
    requires Distribution(p) && i < |p|
    ensures Weights(p, g)[i] == g(if p[i] < EPS then EPS else p[i])
  {
    var m := FirstLargest(p);
    WinnerAboveClip(p, m);
    assert p[i] <= p[m];
    assert Clip(p[i]) == if p[i] < EPS then EPS else p[i];
    hide Sum;
  }

  lemma SoftmaxKeepsRatios(w: Row, i: nat, j: nat)
    requires w != [] && Largest(w) > 0.0 && Sum(Scale(w, Largest(w))) > 0.0 && i < |w| && j < |w|
    ensures var shifted := Scale(w, Largest(w));
      Times(Scale(shifted, Sum(shifted))[i], w[j]) == Times(Scale(shifted, Sum(shifted))[j], w[i])
  {
    var shifted := Scale(w, Largest(w));
    assert Times(w[i], w[j]) == Times(w[j], w[i]);
    hide Scale, Sum, Largest, Times;
    ScaleKeepsRatios(w, w, Largest(w), i, j);
    ScaleKeepsRatios(shifted, w, Sum(shifted), i, j);
  }

  /** Within a millionth of temperature 1 the row is left alone. */
  lemma CalibrateNearOne(p: Row, temperature: real, g: real -> real)
    requires Distribution(p) && 0.999999 < temperature < 1.000001
    ensures Calibrate(p, temperature, g, |p|) == Ok(p)
  {}

  /** Shifting by the maximum and normalizing makes positive weights a distribution with the same winner. */
  lemma SoftmaxKeepsArgMax(weights: Row, m: nat)
    requires IsArgMax(weights, m) && |weights| < MAX_CLASSES && forall i :: 0 <= i < |weights| ==> weights[i] > 0.0
    ensures Largest(weights) > 0.0
    ensures var shifted := Scale(weights, Largest(weights));
      Sum(shifted) > 0.0 && Distribution(Scale(shifted, Sum(shifted))) && IsArgMax(Scale(shifted, Sum(shifted)), m)
  {
    assert Largest(weights) == weights[m] by { hide Sum, Scale; }
    hide Largest, Scale;
    PositiveQuotients(weights, weights[m]);
    ScaleKeepsArgMax(weights, weights[m], m);
    NormalizeKeepsArgMax(Scale(weights, weights[m]), m);
  }

  lemma NormalizeKeepsArgMax(p: Row, m: nat)
    requires IsArgMax(p, m) && |p| < MAX_CLASSES && forall i :: 0 <= i < |p| ==> p[i] > 0.0
    ensures Sum(p) > 0.0 && Distribution(Scale(p, Sum(p))) && IsArgMax(Scale(p, Sum(p)), m)
  {
    SumPositive(p);
    hide Sum, Scale;
    var total := Sum(p);
    PositiveQuotients(p, total);
    ScaleKeepsArgMax(p, total, m);
    WholeIsOne(p, total);
  }

  lemma WholeIsOne(p: Row, total: real)
    requires total > 0.0 && Sum(p) == total
    ensures Sum(Scale(p, total)) == 1.0
  {
    SumOfScale(p, total);
    var whole := Sum(Scale(p, total));
    assert whole * total == total;
    assert (whole - 1.0) * total == 0.0;
  }

  // The out-of-distribution gate

  datatype Reason = DualTrigger | HighEntropy | LowConfidence

  function Gate(entropy: real, confidence: real, tau: real, cMin: real): (r: Option<Reason>)
    ensures r.None? <==> entropy <= tau && confidence >= cMin
    ensures r == Some(DualTrigger) <==> entropy > tau && confidence < cMin
    ensures r == Some(HighEntropy) <==> entropy > tau && confidence >= cMin
  {
    if entropy > tau && confidence < cMin then Some(DualTrigger)
    else if entropy > tau then Some(HighEntropy)
    else if confidence < cMin then Some(LowConfidence)
    else None
  }

  // One classification

  datatype Settings = Settings(alpha: real, temperature: real, tau: real, cMin: real, minPackets: nat, classes: nat)

  /** `finalClass` is `None` for a flow that the gate turns away. */
  datatype Inference = Inference(
    knownClass: nat,
    finalClass: Option<nat>,
    confidence: real,
    calibrated: Row,
    isDegraded: bool,
    branchAgreement: Option<bool>,
    rejection: Option<Reason>)

  /**
   * Fuse, calibrate, pick, gate. `cnn` is what the sequence branch returns, `None` when it raises; a failure there or
   * in the fusion falls back to the tabular branch alone.
   */
  method ClassifyFlow(
      xgb: Row, cnn: Option<Row>, packetCount: nat, s: Settings,
      g: real -> real, entropyOf: Row -> real)
    returns (r: Result<Inference, FusionError>)
    requires Distribution(xgb) && |xgb| == s.classes
    requires cnn.Some? ==> Distribution(cnn.value)
    requires Tempering(g)
    ensures r.Ok? <==> s.temperature > 0.0
    ensures r.Err? ==> r.error == BadTemperature
    ensures r.Ok? ==> Distribution(r.value.calibrated) && IsArgMax(r.value.calibrated, r.value.knownClass)
    ensures r.Ok? ==> r.value.confidence == r.value.calibrated[r.value.knownClass]
    ensures r.Ok? ==> (r.value.isDegraded <==> r.value.branchAgreement.None?)
    ensures r.Ok? ==> (!r.value.isDegraded <==>
      packetCount >= s.minPackets && cnn.Some? && |cnn.value| == |xgb| && 0.0 <= s.alpha <= 1.0)
    ensures r.Ok? ==>
      var fused := if r.value.isDegraded then xgb else Fuse(xgb, cnn.value, s.alpha, s.classes).value;
      Calibrate(fused, s.temperature, g, s.classes) == Ok(r.value.calibrated)
    ensures r.Ok? && r.value.isDegraded ==> IsArgMax(xgb, r.value.knownClass)
    ensures r.Ok? && !r.value.isDegraded ==>
      (r.value.branchAgreement == Some(true) <==> exists m :: IsArgMax(xgb, m) && IsArgMax(cnn.value, m))
    ensures r.Ok? && r.value.branchAgreement == Some(true) ==>
      IsArgMax(xgb, r.value.knownClass) && IsArgMax(cnn.value, r.value.knownClass)
    ensures r.Ok? ==> r.value.rejection == Gate(entropyOf(r.value.calibrated), r.value.confidence, s.tau, s.cMin)
    ensures r.Ok? ==> r.value.finalClass == if r.value.rejection.Some? then None else Some(r.value.knownClass)
  {
    hide Sum, Calibrate, Tempering, Fuse;
    var pFused := xgb;
    var branchAgreement: Option<bool> := None;
    var isDegraded := false;
    var xgbClass := ArgMax(xgb);
    ghost var winner := xgbClass;
    if packetCount >= s.minPackets {
      var fused := if cnn.Some? then Fuse(xgb, cnn.value, s.alpha, s.classes) else Err(ShapeMismatch);
      FuseOutcome(xgb, cnn, s);
      if fused.Ok? {
        pFused := fused.value;
        var cnnClass := ArgMax(cnn.value);
        FuseIsDistribution(xgb, cnn.value, s.alpha);
        if xgbClass == cnnClass {
          FuseKeepsAgreedClass(xgb, cnn.value, s.alpha, xgbClass);
        } else {
          forall m | IsArgMax(xgb, m) ensures !IsArgMax(cnn.value, m) {
            ArgMaxIsUnique(xgb, xgbClass, m);
            if IsArgMax(cnn.value, m) { ArgMaxIsUnique(cnn.value, cnnClass, m); }
          }
          var fusedClass := ArgMax(pFused);
          winner := fusedClass;
        }
        branchAgreement := Some(xgbClass == cnnClass);
      } else {
        isDegraded := true;
      }
    } else {
      isDegraded := true;
    }
    TemperatureDecides(pFused, s, g);
    var calibrated := Calibrate(pFused, s.temperature, g, s.classes);
    if calibrated.Err? { return Err(calibrated.error); }
    CalibrateKeepsArgMax(pFused, s.temperature, g, winner);
    var known := ArgMax(calibrated.value);
    ArgMaxIsUnique(calibrated.value, known, winner);
    var confidence := calibrated.value[known];
    var rejection := Gate(entropyOf(calibrated.value), confidence, s.tau, s.cMin);
    return Ok(Inference(known, if rejection.Some? then None else Some(known), confidence, calibrated.value,
                        isDegraded, branchAgreement, rejection));
  }

  lemma FuseOutcome(xgb: Row, cnn: Option<Row>, s: Settings)
    requires |xgb| == s.classes
    ensures cnn.Some? ==>
      (Fuse(xgb, cnn.value, s.alpha, s.classes).Ok? <==> |cnn.value| == |xgb| && 0.0 <= s.alpha <= 1.0)
  {}

  lemma TemperatureDecides(p: Row, s: Settings, g: real -> real)
    requires Distribution(p) && |p| == s.classes && Tempering(g)
    ensures Calibrate(p, s.temperature, g, s.classes).Ok? <==> s.temperature > 0.0
    ensures s.temperature <= 0.0 ==> Calibrate(p, s.temperature, g, s.classes) == Err(BadTemperature)
  {
    if s.temperature > 0.0 {
      var m := FirstLargest(p);
      CalibrateKeepsArgMax(p, s.temperature, g, m);
    }
  }

  lemma {:induction false} FirstLargest(p: Row) returns (m: nat)
    requires p != []
    ensures IsArgMax(p, m)
    decreases |p|
  {
    var init, last := p[..|p| - 1], p[|p| - 1];
    if init == [] {
      m := 0;
    } else {
      m := FirstLargest(init);
      assert forall j :: 0 <= j < |init| ==> init[j] == p[j];
      if last > p[m] { m := |p| - 1; }
    }
  }
}

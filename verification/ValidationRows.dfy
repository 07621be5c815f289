/** What the fusion weight is judged by: macro-F1 and log loss of fused validation rows; and rows that mislead it. */
module ValidationRows {
  import opened RealSums
  import opened ToleranceSearch
  import opened Fusion
  import opened AlphaSearch

  /** Rows of both branches and the true class of each. */
  datatype Validation = Validation(xgb: seq<Row>, cnn: seq<Row>, y: seq<nat>)

  ghost predicate Usable(v: Validation) {
    && |v.xgb| == |v.cnn| == |v.y| > 0
    && forall i :: 0 <= i < |v.y| ==>
         && |v.xgb[i]| == |v.cnn[i]| == CLASSES && v.y[i] < CLASSES
         && Distribution(v.xgb[i]) && Distribution(v.cnn[i])
  }

  predicate Shaped(v: Validation) {
    && |v.xgb| == |v.cnn| == |v.y|
    && forall i :: 0 <= i < |v.y| ==> |v.xgb[i]| == |v.cnn[i]| == CLASSES && v.y[i] < CLASSES
  }

  /** `np.argmax`: the first index of the largest entry. */
  function FirstMax(p: Row): (m: nat)
    requires p != []
    ensures IsArgMax(p, m)
  {
    if |p| == 1 then 0
    else
      var m := FirstMax(p[1..]) + 1;
      assert forall j :: 0 < j < |p| ==> p[j] == p[1..][j - 1];
      if p[0] >= p[m] then 0 else m
  }

  function Fused(v: Validation, a: real): seq<Row>
    requires Shaped(v)
  {
    seq(|v.y|, i requires 0 <= i < |v.y| => Mix(a, v.xgb[i], v.cnn[i]))
  }

  function Predictions(rows: seq<Row>): seq<nat>
    requires forall i :: 0 <= i < |rows| ==> rows[i] != []
  {
    seq(|rows|, i requires 0 <= i < |rows| => FirstMax(rows[i]))
  }

  function Zip(a: seq<nat>, b: seq<nat>): seq<(nat, nat)>
    requires |a| == |b|
  {
    seq(|a|, i requires 0 <= i < |a| => (a[i], b[i]))
  }

  /** Twice the hits over how often the class is true and how often it is predicted; 0 where it is neither. */
  function F1(y: seq<nat>, predicted: seq<nat>, c: nat): real
    requires |y| == |predicted|
  {
    var hits, all := multiset(Zip(y, predicted))[(c, c)], multiset(y)[c] + multiset(predicted)[c];
    if all == 0 then 0.0 else (2 * hits) as real / all as real
  }

  function F1Sum(y: seq<nat>, predicted: seq<nat>, classes: nat): real
    requires |y| == |predicted|
  {
    if classes == 0 then 0.0 else F1Sum(y, predicted, classes - 1) + F1(y, predicted, classes - 1)
  }

  /** How many classes are true or predicted somewhere. */
  function Present(y: seq<nat>, predicted: seq<nat>, classes: nat): nat {
    if classes == 0 then 0
    else Present(y, predicted, classes - 1) + (if classes - 1 in y || classes - 1 in predicted then 1 else 0)
  }

  function MacroF1(y: seq<nat>, predicted: seq<nat>): real
    requires |y| == |predicted|
  {
    var n := Present(y, predicted, CLASSES);
    if n == 0 then 0.0 else F1Sum(y, predicted, CLASSES) / n as real
  }

  const CLIP := 0.000000000000001

  /** Clipped away from 0 and 1 and normalized again. */
  function Clipped(p: Row): Row {
    var q := seq(|p|, i requires 0 <= i < |p| =>
      if p[i] < CLIP then CLIP else if p[i] > 1.0 - CLIP then 1.0 - CLIP else p[i]);
    if Sum(q) == 0.0 then q else Scale(q, Sum(q))
  }

  /** The losses of the true classes; `minusLog` stands for the negative natural logarithm. */
  function Losses(rows: seq<Row>, y: seq<nat>, minusLog: real -> real): seq<real>
    requires |rows| == |y| && forall i :: 0 <= i < |y| ==> y[i] < |rows[i]|
  {
    seq(|y|, i requires 0 <= i < |y| => minusLog(Clipped(rows[i])[y[i]]))
  }

  function Evaluate(v: Validation, minusLog: real -> real): Evaluation
    requires Shaped(v) && v.y != []
  {
    a =>
      var rows := Fused(v, a);
      (MacroF1(v.y, Predictions(rows)), Finite(Sum(Losses(rows, v.y, minusLog)) / |v.y| as real))
  }

  // Rows on which the search gives up the best score

  /** `n` times `a`, `n` times `b`, then `c` and `d`. */
  function Blocks<T>(n: nat, a: T, b: T, c: T, d: T): (r: seq<T>)
    ensures |r| == 2 * n + 2
  {
    seq(2 * n + 2, i => if i < n then a else if i < 2 * n then b else if i == 2 * n then c else d)
  }

  function Many<T>(n: nat, a: T): (r: seq<T>)
    ensures |r| == n
  {
    seq(n, _ => a)
  }

  lemma BlocksAre<T>(n: nat, a: T, b: T, c: T, d: T)
    ensures Blocks(n, a, b, c, d) == Many(n, a) + Many(n, b) + [c, d]
  {}

  lemma {:induction false} CountInMany<T>(n: nat, a: T, x: T)
    ensures multiset(Many(n, a))[x] == if a == x then n else 0
  {
    if n > 0 {
      assert Many(n, a) == [a] + Many(n - 1, a);
      CountInMany(n - 1, a, x);
    }
  }

  lemma CountInBlocks<T>(n: nat, a: T, b: T, c: T, d: T, x: T)
    ensures multiset(Blocks(n, a, b, c, d))[x]
      == (if a == x then n else 0) + (if b == x then n else 0) + (if c == x then 1 else 0) + (if d == x then 1 else 0)
  {
    BlocksAre(n, a, b, c, d);
    CountInMany(n, a, x);
    CountInMany(n, b, x);
  }

  lemma {:induction false} SumOfMany(n: nat, a: real)
    ensures Sum(Many(n, a)) == n as real * a
  {
    if n > 0 {
      assert Many(n, a)[1..] == Many(n - 1, a);
      SumOfMany(n - 1, a);
      Distribute(a, (n - 1) as real, 1.0);
    }
  }

  lemma SumOfBlocks(n: nat, a: real, b: real, c: real, d: real)
    ensures Sum(Blocks(n, a, b, c, d)) == n as real * a + n as real * b + c + d
  {
    BlocksAre(n, a, b, c, d);
    SumOfMany(n, a);
    SumOfMany(n, b);
    hide Many, Blocks;
    SumAppend(Many(n, a), Many(n, b));
    SumAppend(Many(n, a) + Many(n, b), [c, d]);
    assert [c, d][1..] == [d];
    SumOne(d);
    assert Sum([c, d]) == c + d;
  }

  /** The two classes that occur, and the rest spread over the other five. */
  function TwoClass(p: real, q: real): (r: Row)
    ensures |r| == CLASSES
  {
    var o := (1.0 - p - q) / 5.0;
    [p, q, o, o, o, o, o]
  }

  lemma SumOfSeven(s: seq<real>)
    requires |s| == 7
    ensures Sum(s) == s[0] + s[1] + s[2] + s[3] + s[4] + s[5] + s[6]
  {
    assert s == [s[0]] + ([s[1]] + ([s[2]] + ([s[3]] + ([s[4]] + ([s[5]] + [s[6]])))));
    SumAppend([s[0]], s[1..]);
    SumOne(s[0]);
    SumOne(s[6]);
    SumAppend([s[1]], s[2..]);
    SumAppend([s[2]], s[3..]);
    SumAppend([s[3]], s[4..]);
    SumAppend([s[4]], s[5..]);
    SumAppend([s[5]], s[6..]);
    SumOne(s[1]);
    SumOne(s[2]);
    SumOne(s[3]);
    SumOne(s[4]);
    SumOne(s[5]);
    assert s[0..] == [s[0]] + s[1..] && s[1..] == [s[1]] + s[2..] && s[2..] == [s[2]] + s[3..];
    assert s[3..] == [s[3]] + s[4..] && s[4..] == [s[4]] + s[5..] && s[5..] == [s[5]] + s[6..] && s[6..] == [s[6]];
  }

  lemma SumOne(x: real)
    ensures Sum([x]) == x
  {
    assert [x][1..] == [];
  }

  predicate Plausible(p: real, q: real) {
    && 0.04 <= p <= 0.95 && 0.04 <= q <= 0.95 && 0.89 <= p + q <= 0.98
    && p != q && (p >= 0.3 || q >= 0.3)
  }

  lemma TwoClassIs(p: real, q: real)
    requires Plausible(p, q)
    ensures Distribution(TwoClass(p, q)) && FirstMax(TwoClass(p, q)) == if p > q then 0 else 1
  {
    var r := TwoClass(p, q);
    SumOfSeven(r);
    hide Sum;
    assert IsArgMax(r, if p > q then 0 else 1);
    ArgMaxIsUnique(r, FirstMax(r), if p > q then 0 else 1);
  }

  lemma ClippingIsIdle(r: Row)
    requires r != [] && Sum(r) == 1.0 && forall i :: 0 <= i < |r| ==> CLIP <= r[i] <= 1.0 - CLIP
    ensures Clipped(r) == r
  {
    hide Sum;
    var q := seq(|r|, i requires 0 <= i < |r| =>
      if r[i] < CLIP then CLIP else if r[i] > 1.0 - CLIP then 1.0 - CLIP else r[i]);
    assert q == r && Scale(r, 1.0) == r;
  }

  lemma TwoClassIsKept(p: real, q: real)
    requires Plausible(p, q)
    ensures Clipped(TwoClass(p, q)) == TwoClass(p, q) && TwoClass(p, q)[0] == p && TwoClass(p, q)[1] == q
  {
    TwoClassIs(p, q);
    ClippingIsIdle(TwoClass(p, q));
  }

  lemma MixTwoClass(a: real, p: real, q: real, s: real, t: real)
    requires a == 0.0 || a == 0.5 || a == 1.0
    ensures Mix(a, TwoClass(p, q), TwoClass(s, t)) == TwoClass(Blend(a, p, s), Blend(a, q, t))
  {
    if a == 0.0 {} else if a == 0.5 {} else {}
  }

  function Truth(n: nat): (y: seq<nat>)
    ensures |y| == 2 * n + 2 && forall i :: 0 <= i < |y| ==> y[i] < 2
  {
    Blocks<nat>(n, 0, 1, 0, 1)
  }

  function Guess(n: nat, c: nat, d: nat): (y: seq<nat>)
    ensures |y| == 2 * n + 2 && (c < 2 && d < 2 ==> forall i :: 0 <= i < |y| ==> y[i] < 2)
  {
    Blocks<nat>(n, 0, 1, c, d)
  }

  /** The easy rows, mirrored for the two classes, and the two others. */
  function FourRows(n: nat, p: real, q: real, r: real, t: real, s: real, u: real): (rows: seq<Row>)
    ensures |rows| == 2 * n + 2 && forall i :: 0 <= i < |rows| ==> |rows[i]| == CLASSES
  {
    Blocks(n, TwoClass(p, q), TwoClass(q, p), TwoClass(r, t), TwoClass(s, u))
  }

  /** Easy rows on which the tabular branch is surer, and two rows that it gets wrong. */
  function Misleading(n: nat): (v: Validation)
    ensures Shaped(v)
  {
    Validation(
      FourRows(n, 0.9, 0.05, 0.05, 0.9, 0.5, 0.45),
      FourRows(n, 0.6, 0.3, 0.6, 0.3, 0.05, 0.9),
      Truth(n))
  }

  /** What the four kinds of rows fuse to at a weight. */
  ghost predicate FusedTo(a: real, p: real, q: real, r: real, t: real, s: real, u: real) {
    && (a == 0.0 || a == 0.5 || a == 1.0)
    && p == Blend(a, 0.9, 0.6) && q == Blend(a, 0.05, 0.3)
    && r == Blend(a, 0.05, 0.6) && t == Blend(a, 0.9, 0.3)
    && s == Blend(a, 0.5, 0.05) && u == Blend(a, 0.45, 0.9)
  }

  lemma FusedMisleading(n: nat, a: real, p: real, q: real, r: real, t: real, s: real, u: real)
    requires FusedTo(a, p, q, r, t, s, u)
    ensures Fused(Misleading(n), a) == FourRows(n, p, q, r, t, s, u)
  {
    MixTwoClass(a, 0.9, 0.05, 0.6, 0.3);
    MixTwoClass(a, 0.05, 0.9, 0.3, 0.6);
    MixTwoClass(a, 0.05, 0.9, 0.6, 0.3);
    MixTwoClass(a, 0.5, 0.45, 0.05, 0.9);
    hide Mix, TwoClass, Blend;
  }

  predicate AllPlausible(p: real, q: real, r: real, t: real, s: real, u: real) {
    Plausible(p, q) && Plausible(q, p) && Plausible(r, t) && Plausible(s, u) && p > q
  }

  lemma PredictionsAre(n: nat, p: real, q: real, r: real, t: real, s: real, u: real)
    requires AllPlausible(p, q, r, t, s, u)
    ensures Predictions(FourRows(n, p, q, r, t, s, u)) == Guess(n, if r > t then 0 else 1, if s > u then 0 else 1)
  {
    TwoClassIs(p, q);
    TwoClassIs(q, p);
    TwoClassIs(r, t);
    TwoClassIs(s, u);
    hide TwoClass, FirstMax, Distribution;
  }

  lemma LossesOfBlocks(n: nat, a: Row, b: Row, c: Row, d: Row, minusLog: real -> real)
    requires |a| == |b| == |c| == |d| == CLASSES
    ensures forall i :: 0 <= i < 2 * n + 2 ==> |Blocks(n, a, b, c, d)[i]| == CLASSES
    ensures Losses(Blocks(n, a, b, c, d), Truth(n), minusLog)
      == Blocks(n, minusLog(Clipped(a)[0]), minusLog(Clipped(b)[1]), minusLog(Clipped(c)[0]), minusLog(Clipped(d)[1]))
  {
    hide Clipped;
  }

  lemma LossesAre(n: nat, p: real, q: real, r: real, t: real, s: real, u: real, minusLog: real -> real)
    requires AllPlausible(p, q, r, t, s, u)
    ensures Sum(Losses(FourRows(n, p, q, r, t, s, u), Truth(n), minusLog))
         == n as real * minusLog(p) + n as real * minusLog(p) + minusLog(r) + minusLog(u)
  {
    TwoClassIsKept(p, q);
    TwoClassIsKept(q, p);
    TwoClassIsKept(r, t);
    TwoClassIsKept(s, u);
    hide Clipped, Sum, TwoClass, Losses, Blocks, Truth, Plausible, AllPlausible;
    LossesOfBlocks(n, TwoClass(p, q), TwoClass(q, p), TwoClass(r, t), TwoClass(s, u), minusLog);
    SumOfBlocks(n, minusLog(p), minusLog(p), minusLog(r), minusLog(u));
  }

  lemma Absent(y: seq<nat>, predicted: seq<nat>, c: nat)
    requires |y| == |predicted| && c !in y && c !in predicted
    ensures F1(y, predicted, c) == 0.0
  {
    assert multiset(y)[c] == 0 && multiset(predicted)[c] == 0;
  }

  /** Only the classes 0 and 1 occur, so the other five neither add to the sum nor count. */
  lemma {:induction false} OnlyTwoClasses(y: seq<nat>, predicted: seq<nat>, k: nat)
    requires |y| == |predicted| && k >= 2 && forall i :: 0 <= i < |y| ==> y[i] < 2 && predicted[i] < 2
    ensures F1Sum(y, predicted, k) == F1Sum(y, predicted, 2) && Present(y, predicted, k) == Present(y, predicted, 2)
    decreases k
  {
    hide F1;
    if k > 2 {
      OnlyTwoClasses(y, predicted, k - 1);
      Absent(y, predicted, k - 1);
    }
  }

  lemma MacroOfTwo(y: seq<nat>, predicted: seq<nat>)
    requires |y| == |predicted| && forall i :: 0 <= i < |y| ==> y[i] < 2 && predicted[i] < 2
    requires 0 in y && 1 in y
    ensures MacroF1(y, predicted) == (F1(y, predicted, 0) + F1(y, predicted, 1)) / 2.0
  {
    OnlyTwoClasses(y, predicted, CLASSES);
    hide F1;
    assert F1Sum(y, predicted, 0) == 0.0 && F1Sum(y, predicted, 1) == F1(y, predicted, 0);
    assert F1Sum(y, predicted, 2) == F1Sum(y, predicted, 1) + F1(y, predicted, 1);
    assert Present(y, predicted, 1) == 1 && Present(y, predicted, 2) == 2;
  }

  function Ratio(a: nat, b: nat): real
    requires b > 0
  {
    (2 * a) as real / b as real
  }

  lemma ZipOfGuess(n: nat, c: nat, d: nat)
    ensures Zip(Truth(n), Guess(n, c, d)) == Blocks<(nat, nat)>(n, (0, 0), (1, 1), (0, c), (1, d))
  {}

  /** Hits, true and predicted samples of class `k`. */
  lemma CountsAre(n: nat, c: nat, d: nat, k: nat)
    requires c < 2 && d < 2 && k < 2
    ensures multiset(Zip(Truth(n), Guess(n, c, d)))[(k, k)] == if k == 0 then n + 1 - c else n + d
    ensures multiset(Truth(n))[k] == n + 1
    ensures multiset(Guess(n, c, d))[k] == if k == 0 then n + 2 - c - d else n + c + d
  {
    ZipOfGuess(n, c, d);
    CountInBlocks<(nat, nat)>(n, (0, 0), (1, 1), (0, c), (1, d), (k, k));
    CountInBlocks<nat>(n, 0, 1, 0, 1, k);
    CountInBlocks<nat>(n, 0, 1, c, d, k);
    hide Blocks, Zip;
  }

  lemma F1Is(n: nat, c: nat, d: nat)
    requires c < 2 && d < 2
    ensures F1(Truth(n), Guess(n, c, d), 0) == Ratio(n + 1 - c, 2 * n + 3 - c - d)
    ensures F1(Truth(n), Guess(n, c, d), 1) == Ratio(n + d, 2 * n + 1 + c + d)
  {
    hide Truth, Guess, Zip;
    CountsAre(n, c, d, 0);
    CountsAre(n, c, d, 1);
  }

  lemma MacroIs(n: nat, c: nat, d: nat)
    requires c < 2 && d < 2
    ensures MacroF1(Truth(n), Guess(n, c, d))
         == (Ratio(n + 1 - c, 2 * n + 3 - c - d) + Ratio(n + d, 2 * n + 1 + c + d)) / 2.0
  {
    F1Is(n, c, d);
    assert Truth(n)[2 * n] == 0 && Truth(n)[2 * n + 1] == 1;
    hide Truth, Guess, MacroF1, F1, Ratio;
    MacroOfTwo(Truth(n), Guess(n, c, d));
  }

  /** What the argument needs of the negative logarithm: two decreases and a bound. */
  ghost predicate LikeMinusLog(minusLog: real -> real) {
    && minusLog(0.6) - minusLog(0.75) >= 0.2 && minusLog(0.75) - minusLog(0.9) >= 0.15
    && forall p :: 0.05 <= p <= 1.0 ==> 0.0 <= minusLog(p) <= 4.0
  }

  const SIZE: nat := 6000

  lemma EvaluateIs(v: Validation, minusLog: real -> real, a: real)
    requires Shaped(v) && v.y != []
    ensures var e := Evaluate(v, minusLog)(a);
      && e.0 == MacroF1(v.y, Predictions(Fused(v, a)))
      && e.1 == Finite(Sum(Losses(Fused(v, a), v.y, minusLog)) / |v.y| as real)
  {
    hide MacroF1, Predictions, Fused, Losses, Sum;
  }

  lemma EvaluationIs(
      a: real, p: real, q: real, r: real, t: real, s: real, u: real, c: nat, d: nat, minusLog: real -> real)
    requires FusedTo(a, p, q, r, t, s, u) && AllPlausible(p, q, r, t, s, u)
    requires c == (if r > t then 0 else 1) && d == if s > u then 0 else 1
    ensures var e := Evaluate(Misleading(SIZE), minusLog)(a);
      && e.0 == (Ratio(SIZE + 1 - c, 2 * SIZE + 3 - c - d) + Ratio(SIZE + d, 2 * SIZE + 1 + c + d)) / 2.0
      && e.1 == Finite((6000.0 * minusLog(p) + 6000.0 * minusLog(p) + minusLog(r) + minusLog(u)) / 12002.0)
  {
    hide Truth, Guess, FourRows, Fused, Predictions, Losses, MacroF1, Sum, FusedTo, Ratio, AllPlausible;
    var v := Misleading(SIZE);
    assert v.y == Truth(SIZE);
    FusedMisleading(SIZE, a, p, q, r, t, s, u);
    PredictionsAre(SIZE, p, q, r, t, s, u);
    LossesAre(SIZE, p, q, r, t, s, u, minusLog);
    MacroIs(SIZE, c, d);
    hide Misleading;
    EvaluateIs(v, minusLog, a);
  }

  lemma EvaluationsAre(minusLog: real -> real)
    ensures var e := Evaluate(Misleading(SIZE), minusLog);
      && e(0.0).0 == 1.0
      && e(0.5).0 == (12000.0 / 12001.0 + 12002.0 / 12003.0) / 2.0
      && e(1.0).0 == 12000.0 / 12002.0
      && e(0.0).1 == Finite((12000.0 * minusLog(0.6) + minusLog(0.6) + minusLog(0.9)) / 12002.0)
      && e(0.5).1 == Finite((12000.0 * minusLog(0.75) + minusLog(0.325) + minusLog(0.675)) / 12002.0)
      && e(1.0).1 == Finite((12000.0 * minusLog(0.9) + minusLog(0.05) + minusLog(0.45)) / 12002.0)
  {
    hide Evaluate, Misleading;
    EvaluationIs(0.0, 0.6, 0.3, 0.6, 0.3, 0.05, 0.9, 0, 1, minusLog);
    EvaluationIs(0.5, 0.75, 0.175, 0.325, 0.6, 0.275, 0.675, 1, 1, minusLog);
    EvaluationIs(1.0, 0.9, 0.05, 0.05, 0.9, 0.5, 0.45, 1, 0, minusLog);
  }

  /** 12 002 rows on which the search ends more than the tolerance below the score it saw first. */
  lemma RowsCanMislead(minusLog: real -> real)
    requires LikeMinusLog(minusLog)
    ensures Usable(Misleading(SIZE)) && Misleading(SIZE).y != []
    ensures var points := AlphaPoints(3, Evaluate(Misleading(SIZE), minusLog));
      var r := Search(points, ALPHA_START);
      r.what == 1.0 && points[0].what == 0.0 && points[0].score > r.score + TOLERANCE
  {
    MisleadingIsUsable(SIZE);
    EvaluationsAre(minusLog);
    hide Usable, Misleading, Evaluate;
    TwoStepsDown(Evaluate(Misleading(SIZE), minusLog));
  }

  ghost predicate AllDistributions(rows: seq<Row>) {
    forall i :: 0 <= i < |rows| ==> Distribution(rows[i])
  }

  lemma FourRowsAreDistributions(n: nat, p: real, q: real, r: real, t: real, s: real, u: real)
    requires Plausible(p, q) && Plausible(q, p) && Plausible(r, t) && Plausible(s, u)
    ensures AllDistributions(FourRows(n, p, q, r, t, s, u))
  {
    TwoClassIs(p, q);
    TwoClassIs(q, p);
    TwoClassIs(r, t);
    TwoClassIs(s, u);
    hide Distribution, TwoClass, FirstMax;
  }

  lemma MisleadingIsUsable(n: nat)
    ensures Usable(Misleading(n)) && Misleading(n).y != []
  {
    FourRowsAreDistributions(n, 0.9, 0.05, 0.05, 0.9, 0.5, 0.45);
    FourRowsAreDistributions(n, 0.6, 0.3, 0.6, 0.3, 0.05, 0.9);
    hide Distribution, FourRows, Truth;
  }

  /** Away from the clips the clipped rows' entries stand to each other as before, and they sum to 1. */
  lemma ClippedKeepsRatios(p: Row, i: nat, j: nat)
    requires p != [] && i < |p| && j < |p|
    ensures Sum(Clipped(p)) == 1.0
    ensures Times(Clipped(p)[i], ClipAt(p[j])) == Times(Clipped(p)[j], ClipAt(p[i]))
  {
    var q := seq(|p|, i requires 0 <= i < |p| => ClipAt(p[i]));
    SumPositive(q);
    assert Clipped(p) == Scale(q, Sum(q)) by { ClippedIs(p, q); }
    WholeIsOne(q, Sum(q));
    hide Clipped, Sum, Times, ClipAt, Scale;
    TimesSwap(q[i], q[j]);
    ScaleKeepsRatios(q, q, Sum(q), i, j);
  }

  lemma TimesSwap(a: real, b: real)
    ensures Times(a, b) == Times(b, a)
  {}

  function ClipAt(x: real): real {
    if x < CLIP then CLIP else if x > 1.0 - CLIP then 1.0 - CLIP else x
  }

  lemma ClippedIs(p: Row, q: Row)
    requires q == seq(|p|, i requires 0 <= i < |p| => ClipAt(p[i])) && Sum(q) != 0.0
    ensures Clipped(p) == Scale(q, Sum(q))
  {
    hide Sum, Scale;
    assert q == seq(|p|, i requires 0 <= i < |p| =>
      if p[i] < CLIP then CLIP else if p[i] > 1.0 - CLIP then 1.0 - CLIP else p[i]);
  }
}

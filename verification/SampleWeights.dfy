/** Class-balanced and session-balanced training weights. */
module SampleWeights {
  import opened Wrappers
  import opened RealSums

  datatype Profile = NoWeights | ClassBalanced | SessionClassBalanced

  function Count<K(==)>(keys: seq<K>, k: K): nat {
    if keys == [] then 0 else (if keys[0] == k then 1 else 0) + Count(keys[1..], k)
  }

  function KeySet<K(==)>(keys: seq<K>): set<K> {
    set i | 0 <= i < |keys| :: keys[i]
  }

  /** Sum of the weights at the positions of one key. */
  function Share<K(==)>(keys: seq<K>, w: seq<real>, k: K): real
    requires |keys| == |w|
  {
    if keys == [] then 0.0 else (if keys[0] == k then w[0] else 0.0) + Share(keys[1..], w[1..], k)
  }

  lemma {:induction false} CountPositive<K>(keys: seq<K>, k: K)
    ensures Count(keys, k) > 0 <==> k in keys
    decreases |keys|
  {
    if keys != [] { CountPositive(keys[1..], k); }
  }

  /** The base weight of a class: the samples shared equally among the classes, then among the class's samples. */
  function ClassWeight(y: seq<int>, c: int): real
    requires c in y
  {
    CountPositive(y, c);
    InKeySet(y, c);
    |y| as real / (|KeySet(y)| * Count(y, c)) as real
  }

  lemma InKeySet<K>(keys: seq<K>, k: K)
    requires k in keys
    ensures k in KeySet(keys) && |KeySet(keys)| > 0
  {}

  function ClassWeights(y: seq<int>): (w: seq<real>)
    ensures |w| == |y|
  {
    seq(|y|, i requires 0 <= i < |y| => ClassWeight(y, y[i]))
  }

  /** Each weight divided by the number of flows of its session. */
  function Damped<K(==)>(w: seq<real>, groups: seq<K>): (r: seq<real>)
    requires |w| == |groups|
    ensures |r| == |w|
  {
    seq(|w|, i requires 0 <= i < |w| => DampedAt(w, groups, i))
  }

  function DampedAt<K(==)>(w: seq<real>, groups: seq<K>, i: nat): real
    requires |w| == |groups| && i < |w|
  {
    CountPositive(groups, groups[i]);
    w[i] / Count(groups, groups[i]) as real
  }

  function Normalized(w: seq<real>): (r: seq<real>)
    ensures |r| == |w|
  {
    var total := Sum(w);
    if total > 0.0 then seq(|w|, i requires 0 <= i < |w| => Renormalize(w[i], total, |w|)) else w
  }

  function Renormalize(x: real, total: real, n: nat): real
    requires total > 0.0
  {
    x / total * n as real
  }

  predicate UsesSessions<K>(profile: Profile, y: seq<int>, groups: Option<seq<K>>) {
    profile.SessionClassBalanced? && groups.Some? && |groups.value| == |y|
  }

  function Weights<K(==)>(profile: Profile, y: seq<int>, groups: Option<seq<K>>): (w: seq<real>)
    ensures |w| == |y|
  {
    if profile.NoWeights? || |KeySet(y)| <= 1 then Ones(|y|)
    else if UsesSessions(profile, y, groups) then Normalized(Damped(ClassWeights(y), groups.value))
    else ClassWeights(y)
  }

  method ComputeWeights<K(==)>(profile: Profile, y: seq<int>, groups: Option<seq<K>>) returns (weights: array<real>)
    ensures weights[..] == Weights(profile, y, groups)
  {
    hide Count, KeySet, Sum;
    var n := |y|;
    var classes := KeySet(y);
    if n == 0 || profile.NoWeights? || |classes| <= 1 {
      weights := new real[n](_ => 1.0);
      NothingToWeigh(y);
      assert weights[..] == Ones(|y|);
      return;
    }
    var classWeight: map<int, real> := map[];
    var left := classes;
    MembersOf(y);
    while left != {}
      invariant left <= classes && classWeight.Keys == classes - left
      invariant forall c :: c in classes ==> c in y
      invariant forall c :: c in classWeight ==> c in y && classWeight[c] == ClassWeight(y, c)
    {
      SomeElement(left);
      var c: int :| c in left;
      classWeight := classWeight[c := ClassWeight(y, c)];
      left := left - {c};
    }
    weights := new real[n](i requires 0 <= i < n => if y[i] in classWeight then classWeight[y[i]] else 0.0);
    assert weights[..] == ClassWeights(y);
    if UsesSessions(profile, y, groups) {
      var sessions := groups.value;
      for i := 0 to n
        invariant forall j :: 0 <= j < i ==> weights[j] == DampedAt(ClassWeights(y), sessions, j)
        invariant forall j :: i <= j < n ==> weights[j] == ClassWeights(y)[j]
      {
        CountPositive(sessions, sessions[i]);
        weights[i] := weights[i] / Count(sessions, sessions[i]) as real;
      }
      assert weights[..] == Damped(ClassWeights(y), sessions);
      var total := Sum(weights[..]);
      hide Renormalize;
      if total > 0.0 {
        var scaled := new real[n](i requires 0 <= i < n reads weights => Renormalize(weights[i], total, n));
        assert scaled[..] == Normalized(weights[..]);
        weights := scaled;
      }
    }
  }

  lemma SomeElement(s: set<int>)
    requires s != {}
    ensures exists c: int :: c in s
  {
    assert (exists c: int :: c in s) || s == {};
  }

  lemma MembersOf<K>(keys: seq<K>)
    ensures forall k :: k in KeySet(keys) <==> k in keys
  {}

  lemma NothingToWeigh(y: seq<int>)
    ensures y == [] ==> |KeySet(y)| <= 1
  {
    if y == [] { assert KeySet(y) == {}; }
  }

  // Every class carries the same total

  lemma {:induction false} EqualShare<K>(keys: seq<K>, w: seq<real>, k: K, v: real)
    requires |keys| == |w| && forall i :: 0 <= i < |keys| && keys[i] == k ==> w[i] == v
    ensures Share(keys, w, k) == Count(keys, k) as real * v
    decreases |keys|
  {
    if keys != [] { EqualShare(keys[1..], w[1..], k, v); }
  }

  ghost function Pick<K(!new)>(ks: set<K>): (k: K)
    requires ks != {}
    ensures k in ks
  {
    var k :| k in ks; k
  }

  ghost function Total<K(!new)>(ks: set<K>, keys: seq<K>, w: seq<real>): real
    requires |keys| == |w|
    decreases |ks|
  {
    if ks == {} then 0.0 else Share(keys, w, Pick(ks)) + Total(ks - {Pick(ks)}, keys, w)
  }

  lemma {:induction false} TotalOneMore<K(!new)>(ks: set<K>, keys: seq<K>, w: seq<real>)
    requires |keys| == |w| > 0
    ensures Total(ks, keys, w) == Total(ks, keys[1..], w[1..]) + (if keys[0] in ks then w[0] else 0.0)
    decreases |ks|
  {
    if ks != {} { TotalOneMore(ks - {Pick(ks)}, keys, w); }
  }

  lemma {:induction false} TotalIsSum<K(!new)>(ks: set<K>, keys: seq<K>, w: seq<real>)
    requires |keys| == |w| && forall k :: k in keys ==> k in ks
    ensures Total(ks, keys, w) == Sum(w)
    decreases |keys|
  {
    if keys == [] {
      EmptyTotal(ks);
    } else {
      TotalOneMore(ks, keys, w);
      TotalIsSum(ks, keys[1..], w[1..]);
    }
  }

  lemma {:induction false} EmptyTotal<K(!new)>(ks: set<K>)
    ensures Total<K>(ks, [], []) == 0.0
    decreases |ks|
  {
    if ks != {} { EmptyTotal(ks - {Pick(ks)}); }
  }

  lemma {:induction false} TotalOfEqual<K(!new)>(ks: set<K>, keys: seq<K>, w: seq<real>, v: real)
    requires |keys| == |w| && forall k :: k in ks ==> Share(keys, w, k) == v
    ensures Total(ks, keys, w) == |ks| as real * v
    decreases |ks|
  {
    hide Share;
    if ks != {} {
      var rest := ks - {Pick(ks)};
      TotalOfEqual(rest, keys, w, v);
      assert |ks| == |rest| + 1;
      assert |ks| as real * v == |rest| as real * v + v;
    }
  }

  lemma ShareOut(n: real, m: nat, count: nat)
    requires m > 0 && count > 0
    ensures count as real * (n / (m * count) as real) == n / m as real
    ensures m as real * (n / m as real) == n
    ensures n > 0.0 ==> n / (m * count) as real > 0.0
  {
    var c, k := count as real, m as real;
    assert (m * count) as real == k * c;
    ScaleBack(n, k * c);
    ScaleBack(n, k);
    var q := n / (k * c);
    assert k * (c * q) == n;
    assert k * (n / k) == n;
    assert k * (c * q - n / k) == 0.0;
  }

  /** Class-balanced weights are positive, give each of the m classes n/m, and sum to n. */
  lemma ClassesCarryEqualWeight(y: seq<int>)
    requires y != []
    ensures var n, m := |y| as real, |KeySet(y)|;
      && m > 0
      && (forall c :: c in y ==> Share(y, ClassWeights(y), c) == n / m as real)
      && Sum(ClassWeights(y)) == n
      && forall i :: 0 <= i < |y| ==> ClassWeights(y)[i] > 0.0
  {
    hide Count, Sum, KeySet, Share, ClassWeight;
    var n, m := |y| as real, |KeySet(y)|;
    MembersOf(y);
    InKeySet(y, y[0]);
    forall c | c in y ensures Share(y, ClassWeights(y), c) == n / m as real && ClassWeight(y, c) > 0.0 {
      ClassShare(y, c);
    }
    TotalOfEqual(KeySet(y), y, ClassWeights(y), n / m as real);
    TotalIsSum(KeySet(y), y, ClassWeights(y));
    ShareOut(n, m, 1);
  }

  lemma ClassShare(y: seq<int>, c: int)
    requires c in y && |KeySet(y)| > 0
    ensures Share(y, ClassWeights(y), c) == |y| as real / |KeySet(y)| as real
    ensures ClassWeight(y, c) > 0.0
  {
    hide Count, KeySet, Share;
    CountPositive(y, c);
    EqualShare(y, ClassWeights(y), c, ClassWeight(y, c));
    ShareOut(|y| as real, |KeySet(y)|, Count(y, c));
  }

  // Sessions

  lemma {:induction false} SumOfScaled(w: seq<real>, r: seq<real>, k: real)
    requires |w| == |r| && forall i :: 0 <= i < |w| ==> r[i] == Times(k, w[i])
    ensures Sum(r) == Times(k, Sum(w))
    decreases |w|
  {
    if w != [] {
      SumOfScaled(w[1..], r[1..], k);
      Distribute(k, w[0], Sum(w[1..]));
    }
  }

  lemma Rescale(x: real, total: real, n: nat)
    requires total > 0.0
    ensures Renormalize(x, total, n) == Times(n as real / total, x)
    ensures Times(n as real / total, total) == n as real
  {
    ScaleBack(x, total);
    ScaleBack(n as real, total);
    var a, b := x / total, n as real / total;
    assert total * a == x && total * b == n as real;
    assert a * (total * b) == (total * a) * b;
  }

  lemma TimesPositive(a: real, b: real)
    requires a > 0.0 && b > 0.0
    ensures Times(a, b) > 0.0
  {
    Product(a, b);
  }

  lemma QuotientPositive(x: real, k: real)
    requires x > 0.0 && k > 0.0
    ensures x / k > 0.0
  {
    ScaleBack(x, k);
    var q := x / k;
    assert k * q > 0.0;
  }

  lemma DampedPositive<K(!new)>(y: seq<int>, groups: seq<K>)
    requires y != [] && |groups| == |y|
    ensures var d := Damped(ClassWeights(y), groups);
      Sum(d) > 0.0 && forall i :: 0 <= i < |d| ==> d[i] > 0.0
  {
    hide Count, Sum, KeySet, ClassWeight, Share;
    ClassesCarryEqualWeight(y);
    var d := Damped(ClassWeights(y), groups);
    forall i | 0 <= i < |d| ensures d[i] > 0.0 {
      CountPositive(groups, groups[i]);
      QuotientPositive(ClassWeights(y)[i], Count(groups, groups[i]) as real);
    }
    SumPositive(d);
  }

  /** Session-balanced weights are positive and still sum to the number of samples. */
  lemma SessionWeightsSum<K(!new)>(y: seq<int>, groups: seq<K>)
    requires y != [] && |groups| == |y|
    ensures var w := Normalized(Damped(ClassWeights(y), groups));
      && Sum(w) == |y| as real
      && (forall i :: 0 <= i < |y| ==> w[i] > 0.0)
  {
    DampedPositive(y, groups);
    NormalizedSum(Damped(ClassWeights(y), groups));
  }

  /** Renormalizing positive weights makes them sum to their number. */
  lemma NormalizedSum(d: seq<real>)
    requires Sum(d) > 0.0 && forall i :: 0 <= i < |d| ==> d[i] > 0.0
    ensures Sum(Normalized(d)) == |d| as real
    ensures forall i :: 0 <= i < |d| ==> Normalized(d)[i] > 0.0
  {
    var total, n := Sum(d), |d|;
    assert n > 0;
    hide Sum, Renormalize, Times;
    var k := n as real / total;
    QuotientPositive(n as real, total);
    forall i | 0 <= i < n ensures Normalized(d)[i] == Times(k, d[i]) && Normalized(d)[i] > 0.0 {
      Rescale(d[i], total, n);
      TimesPositive(k, d[i]);
    }
    SumOfScaled(d, Normalized(d), k);
    Rescale(0.0, total, n);
  }

  /** When sessions have one class each, all sessions of a class carry the same weight, however many flows they have. */
  lemma SessionsOfClassCarryEqualWeight<K(!new)>(y: seq<int>, groups: seq<K>, g: K, h: K, c: int)
    requires |groups| == |y| && g in groups && h in groups
    requires forall i :: 0 <= i < |y| && (groups[i] == g || groups[i] == h) ==> y[i] == c
    ensures var w := Normalized(Damped(ClassWeights(y), groups));
      Share(groups, w, g) == Share(groups, w, h)
  {
    SessionShare(y, groups, g, c);
    SessionShare(y, groups, h, c);
  }

  /** A session's total depends on its class alone. */
  lemma SessionShare<K(!new)>(y: seq<int>, groups: seq<K>, g: K, c: int)
    requires |groups| == |y| && g in groups
    requires forall i :: 0 <= i < |y| && groups[i] == g ==> y[i] == c
    ensures c in y && Sum(Damped(ClassWeights(y), groups)) > 0.0
    ensures Share(groups, Normalized(Damped(ClassWeights(y), groups)), g)
         == Times(|y| as real / Sum(Damped(ClassWeights(y), groups)), ClassWeight(y, c))
  {
    hide Count, Sum, KeySet, ClassWeight, Share, Renormalize, Times;
    var i0 :| 0 <= i0 < |groups| && groups[i0] == g;
    assert y[i0] == c;
    DampedPositive(y, groups);
    CountPositive(groups, g);
    var flow, total := ClassWeight(y, c) / Count(groups, g) as real, Sum(Damped(ClassWeights(y), groups));
    EqualShare(groups, Normalized(Damped(ClassWeights(y), groups)), g, Renormalize(flow, total, |y|));
    AllFlows(ClassWeight(y, c), Count(groups, g), total, |y|);
  }

  lemma AllFlows(weight: real, count: nat, total: real, n: nat)
    requires count > 0 && total > 0.0
    ensures count as real * Renormalize(weight / count as real, total, n) == Times(n as real / total, weight)
  {
    ScaleBack(weight, count as real);
    Rescale(weight / count as real, total, n);
    var q, c, k := weight / count as real, count as real, n as real / total;
    assert c * (k * q) == k * (c * q);
  }

  /** Under every profile the weights are positive and sum to the number of samples. */
  lemma WeightsSumToSamples<K(!new)>(profile: Profile, y: seq<int>, groups: Option<seq<K>>)
    ensures Sum(Weights(profile, y, groups)) == |y| as real
    ensures forall i :: 0 <= i < |y| ==> Weights(profile, y, groups)[i] > 0.0
  {
    hide Sum, ClassWeights, Damped, Normalized;
    NothingToWeigh(y);
    SumOfOnes(|y|);
    if y != [] {
      ClassesCarryEqualWeight(y);
      if UsesSessions(profile, y, groups) { SessionWeightsSum(y, groups.value); }
    }
  }

  /**
   * What each profile balances. No weighting, or a single class: every weight is 1. By class: the size of a sample's
   * class times its weight is the same for all samples. By session and class: so is both sizes times the weight.
   */
  lemma ProfileDecides<K(!new)>(profile: Profile, y: seq<int>, groups: Option<seq<K>>, i: nat, j: nat)
    requires i < |y| && j < |y|
    ensures var w := Weights(profile, y, groups);
      var balanced := !profile.NoWeights? && exists k :: 0 <= k < |y| && y[k] != y[0];
      var bySession := profile.SessionClassBalanced? && groups.Some? && |groups.value| == |y|;
      if !balanced then w[i] == 1.0
      else if !bySession then Times(Count(y, y[i]) as real, w[i]) == Times(Count(y, y[j]) as real, w[j])
      else
        Times(Count(y, y[i]) as real, Times(Count(groups.value, groups.value[i]) as real, w[i]))
        == Times(Count(y, y[j]) as real, Times(Count(groups.value, groups.value[j]) as real, w[j]))
  {
    hide Count, KeySet, ClassWeights, Damped, Normalized, Times, Sum;
    OneClass(y);
    if !(profile.NoWeights? || |KeySet(y)| <= 1) {
      ClassBalance(y, i);
      ClassBalance(y, j);
      if UsesSessions(profile, y, groups) {
        SessionBalance(y, groups.value, i);
        SessionBalance(y, groups.value, j);
      }
    }
  }

  lemma OneClass(y: seq<int>)
    requires y != []
    ensures |KeySet(y)| <= 1 <==> forall k :: 0 <= k < |y| ==> y[k] == y[0]
  {
    assert y[0] in KeySet(y);
    if exists k :: 0 <= k < |y| && y[k] != y[0] {
      var k :| 0 <= k < |y| && y[k] != y[0];
      assert y[k] in KeySet(y);
      SubsetSize({y[0], y[k]}, KeySet(y));
    } else {
      assert KeySet(y) == {y[0]};
    }
  }

  lemma SubsetSize(a: set<int>, b: set<int>)
    requires a <= b
    ensures |a| <= |b|
  {
    assert b == a + (b - a);
  }

  lemma ClassBalance(y: seq<int>, i: nat)
    requires i < |y|
    ensures |KeySet(y)| > 0
    ensures ClassWeights(y)[i] == ClassWeight(y, y[i])
    ensures Times(Count(y, y[i]) as real, ClassWeight(y, y[i])) == |y| as real / |KeySet(y)| as real
  {
    InKeySet(y, y[i]);
    hide KeySet, Times;
    WeightOfClass(y, y[i]);
  }

  lemma WeightOfClass(y: seq<int>, c: int)
    requires c in y
    ensures |KeySet(y)| > 0
    ensures Times(Count(y, c) as real, ClassWeight(y, c)) == |y| as real / |KeySet(y)| as real
  {
    CountPositive(y, c);
    InKeySet(y, c);
    hide Count, KeySet;
    ShareOut(|y| as real, |KeySet(y)|, Count(y, c));
  }

  lemma SessionBalance<K(!new)>(y: seq<int>, groups: seq<K>, i: nat)
    requires i < |y| && |groups| == |y|
    ensures |KeySet(y)| > 0 && Sum(Damped(ClassWeights(y), groups)) > 0.0
    ensures var w := Normalized(Damped(ClassWeights(y), groups));
      Times(Count(y, y[i]) as real, Times(Count(groups, groups[i]) as real, w[i]))
      == Times(|y| as real / Sum(Damped(ClassWeights(y), groups)), |y| as real / |KeySet(y)| as real)
  {
    hide Count, KeySet, Sum, Renormalize, Times, ClassWeight;
    DampedPositive(y, groups);
    ClassBalance(y, i);
    CountPositive(groups, groups[i]);
    var weight, count, total := ClassWeight(y, y[i]), Count(groups, groups[i]), Sum(Damped(ClassWeights(y), groups));
    NormalizedAt(y, groups, i);
    hide Damped, Normalized, ClassWeights;
    FlowsTimes(weight, count, total, |y|);
    TimesCommutes(Count(y, y[i]) as real, |y| as real / total, weight);
  }

  lemma NormalizedAt<K(!new)>(y: seq<int>, groups: seq<K>, i: nat)
    requires i < |y| && |groups| == |y| && Sum(Damped(ClassWeights(y), groups)) > 0.0
    ensures Count(groups, groups[i]) > 0
    ensures Normalized(Damped(ClassWeights(y), groups))[i]
      == Renormalize(ClassWeight(y, y[i]) / Count(groups, groups[i]) as real, Sum(Damped(ClassWeights(y), groups)), |y|)
  {
    CountPositive(groups, groups[i]);
    hide Count, Sum, Renormalize, ClassWeight;
  }

  lemma FlowsTimes(weight: real, count: nat, total: real, n: nat)
    requires count > 0 && total > 0.0
    ensures Times(count as real, Renormalize(weight / count as real, total, n)) == Times(n as real / total, weight)
  {
    hide Renormalize;
    AllFlows(weight, count, total, n);
  }

  lemma TimesCommutes(a: real, b: real, x: real)
    ensures Times(a, Times(b, x)) == Times(b, Times(a, x))
  {
    assert a * (b * x) == b * (a * x);
  }
}

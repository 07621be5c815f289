/** Sums of real sequences. */
module RealSums {

  function Sum(s: seq<real>): real {
    if s == [] then 0.0 else s[0] + Sum(s[1..])
  }

  lemma {:induction false} SumAppend(a: seq<real>, b: seq<real>)
    ensures Sum(a + b) == Sum(a) + Sum(b)
  {
    if a == [] {
      assert a + b == b;
    } else {
      assert (a + b)[1..] == a[1..] + b;
      SumAppend(a[1..], b);
    }
  }

  lemma SumSnoc(s: seq<real>, x: real)
    ensures Sum(s + [x]) == Sum(s) + x
  {
    SumAppend(s, [x]);
    assert [x][1..] == [];
  }

  lemma SumSplit(s: seq<real>, i: nat)
    requires i <= |s|
    ensures Sum(s) == Sum(s[..i]) + Sum(s[i..])
  {
    SumAppend(s[..i], s[i..]);
    assert s == s[..i] + s[i..];
  }

  lemma SumExtend(s: seq<real>, lo: nat, hi: nat)
    requires lo <= hi < |s|
    ensures Sum(s[lo..hi + 1]) == Sum(s[lo..hi]) + s[hi]
  {
    SumSnoc(s[lo..hi], s[hi]);
    assert s[lo..hi + 1] == s[lo..hi] + [s[hi]];
  }

  lemma {:induction false} SumNonNegative(s: seq<real>)
    requires forall i :: 0 <= i < |s| ==> s[i] >= 0.0
    ensures Sum(s) >= 0.0
  {
    if s != [] { SumNonNegative(s[1..]); }
  }

  lemma {:induction false} SumPositive(s: seq<real>)
    requires s != [] && forall i :: 0 <= i < |s| ==> s[i] > 0.0
    ensures Sum(s) > 0.0
    decreases |s|
  {
    if |s| > 1 { SumPositive(s[1..]); }
  }

  function Abs(x: real): real {
    if x < 0.0 then -x else x
  }

  lemma QuotientInUnit(a: real, b: real)
    requires 0.0 <= a <= b && b > 0.0
    ensures 0.0 <= a / b <= 1.0
  {
    assert (a / b) * b == a;
  }

  function Times(a: real, b: real): real {
    a * b
  }

  lemma TimesIs(a: real, b: real)
    ensures Times(a, b) == a * b
  {}

  lemma Distribute(k: real, a: real, b: real)
    ensures k * (a + b) == k * a + k * b
  {}

  lemma ScaleBack(a: real, b: real)
    requires b != 0.0
    ensures b * (a / b) == a
  {}

  lemma LessByFactor(a: real, b: real, k: real)
    requires k > 0.0 && a * k <= b * k
    ensures a <= b
  {
    assert (a - b) * k <= 0.0;
  }

  lemma QuotientOrder(a: real, b: real, k: real)
    requires k > 0.0
    ensures a < b <==> a / k < b / k
    ensures a == b <==> a / k == b / k
  {
    ScaleBack(a, k);
    ScaleBack(b, k);
    var x, y := a / k, b / k;
    assert k * x == a && k * y == b;
    assert k * (y - x) == b - a;
  }

  lemma Product(a: real, b: real)
    requires a >= 0.0 && b >= 0.0
    ensures a * b >= 0.0 && (a > 0.0 && b > 0.0 ==> a * b > 0.0)
  {}

  function Ones(n: nat): (s: seq<real>)
    ensures |s| == n
  {
    seq(n, _ => 1.0)
  }

  lemma {:induction false} SumOfOnes(n: nat)
    ensures Sum(Ones(n)) == n as real
  {
    if n > 0 {
      assert Ones(n)[1..] == Ones(n - 1);
      SumOfOnes(n - 1);
    }
  }

  /** `round(x)`: to the nearest integer, halves to the even one. */
  function Round(x: real): int {
    var f := x.Floor;
    var d := x - f as real;
    if d < 0.5 || (d == 0.5 && f % 2 == 0) then f else f + 1
  }

  lemma RoundIsNear(x: real)
    ensures -0.5 <= Round(x) as real - x <= 0.5
    ensures x >= 0.0 ==> Round(x) >= 0
  {}

  /** Nothing else rounds `x`: it is an integer within one half, and even where two are. */
  lemma RoundIsDetermined(x: real, k: int)
    ensures k == Round(x) <==> -0.5 <= k as real - x <= 0.5 && (Abs(k as real - x) == 0.5 ==> k % 2 == 0)
  {}

  /** `round(x, 4)` */
  function Round4(x: real): real {
    Round(x * 10000.0) as real / 10000.0
  }

  /** Numbers of at most four digits stay. */
  lemma Round4Exact(x: real, k: int)
    requires x * 10000.0 == k as real
    ensures Round4(x) == x
  {
    RoundIsDetermined(x * 10000.0, k);
  }

  lemma RoundsOfHalves()
    ensures Round4(0.0) == 0.0 && Round4(0.5) == 0.5 && Round4(1.0) == 1.0
  {
    Round4Exact(0.0, 0);
    Round4Exact(0.5, 5000);
    Round4Exact(1.0, 10000);
  }

  lemma Round4IsNear(x: real)
    ensures -0.00005 <= Round4(x) - x <= 0.00005 && Round4(x) * 10000.0 == Round(x * 10000.0) as real
  {
    RoundIsNear(x * 10000.0);
  }

  lemma QuotientTimes(a: real, b: real, k: real)
    requires k != 0.0
    ensures a / k * b == a * b / k
  {
    ScaleBack(a, k);
    ScaleBack(a * b, k);
    var q := a / k;
    assert k * (q * b) == (k * q) * b;
  }

  function Min(a: nat, b: nat): nat {
    if a < b then a else b
  }
}

/** Percentiles with linear interpolation, as numpy computes them by default. */
module Percentiles {
  import opened RealSums

  predicate Ascending(s: seq<real>) {
    forall i, j :: 0 <= i < j < |s| ==> s[i] <= s[j]
  }

  function Insert(x: real, s: seq<real>): seq<real> {
    if s == [] || x <= s[0] then [x] + s else [s[0]] + Insert(x, s[1..])
  }

  function Sorted(s: seq<real>): seq<real> {
    if s == [] then [] else Insert(s[0], Sorted(s[1..]))
  }

  lemma {:induction false} InsertKeeps(x: real, s: seq<real>)
    ensures multiset(Insert(x, s)) == multiset(s) + multiset{x} && |Insert(x, s)| == |s| + 1
    decreases |s|
  {
    if s != [] && x > s[0] {
      assert s == [s[0]] + s[1..];
      InsertKeeps(x, s[1..]);
    }
  }

  lemma {:induction false} InsertBounded(x: real, s: seq<real>, low: real)
    requires low <= x && forall i :: 0 <= i < |s| ==> low <= s[i]
    ensures forall i :: 0 <= i < |Insert(x, s)| ==> low <= Insert(x, s)[i]
    decreases |s|
  {
    if s != [] && x > s[0] { InsertBounded(x, s[1..], low); }
  }

  lemma {:induction false} InsertAscends(x: real, s: seq<real>)
    requires Ascending(s)
    ensures Ascending(Insert(x, s))
    decreases |s|
  {
    if s != [] && x > s[0] {
      InsertAscends(x, s[1..]);
      InsertBounded(x, s[1..], s[0]);
    }
  }

  /** Sorting keeps the numbers, each as often as it occurs, and puts them in ascending order. */
  lemma {:induction false} SortedMeaning(s: seq<real>)
    ensures Ascending(Sorted(s)) && multiset(Sorted(s)) == multiset(s) && |Sorted(s)| == |s|
  {
    if s != [] {
      assert s == [s[0]] + s[1..];
      SortedMeaning(s[1..]);
      InsertKeeps(s[0], Sorted(s[1..]));
      InsertAscends(s[0], Sorted(s[1..]));
    }
  }

  lemma {:induction false} SortedIsFixed(s: seq<real>)
    requires Ascending(s)
    ensures Sorted(s) == s
  {
    if s != [] { SortedIsFixed(s[1..]); }
  }

  /** Where the `q`-th percentile of `n` sorted numbers lies, in hundredths of an index. */
  function Position(n: nat, q: nat): (h: nat)
    requires n > 0 && q <= 100
    ensures h / 100 < n
  {
    PositionFits(n - 1, q);
    (n - 1) * q
  }

  lemma PositionFits(n: nat, q: nat)
    requires q <= 100
    ensures n * q <= n * 100
  {
    assert n * (100 - q) >= 0;
  }

  function Between(a: real, b: real, part: real): real {
    a + part * (b - a)
  }

  /** The `q`-th percentile, interpolated linearly between neighbours in the sorted data. */
  function Percentile(s: seq<real>, q: nat): real
    requires s != [] && q <= 100
  {
    SortedMeaning(s);
    var t, h := Sorted(s), Position(|s|, q);
    if h / 100 + 1 < |s| then Between(t[h / 100], t[h / 100 + 1], (h % 100) as real / 100.0) else t[h / 100]
  }

  lemma BetweenIsBetween(a: real, b: real, part: real)
    requires a <= b && 0.0 <= part <= 1.0
    ensures a <= Between(a, b, part) <= b
  {
    Product(part, b - a);
    Product(1.0 - part, b - a);
    Distribute(b - a, part, 1.0 - part);
  }

  /** A percentile lies among the data: the thresholds tried are within what the known samples reach. */
  lemma PercentileIsAmong(s: seq<real>, q: nat, low: real, high: real)
    requires s != [] && q <= 100 && forall i :: 0 <= i < |s| ==> low <= s[i] <= high
    ensures low <= Percentile(s, q) <= high
  {
    SortedMeaning(s);
    var t, h := Sorted(s), Position(|s|, q);
    forall i | 0 <= i < |t| ensures low <= t[i] <= high {
      assert t[i] in multiset(s);
    }
    hide Sorted, Between, Position;
    if h / 100 + 1 < |s| { BetweenIsBetween(t[h / 100], t[h / 100 + 1], (h % 100) as real / 100.0); }
  }

  /** In hundredths of the way from one sorted neighbour to the next. */
  lemma PercentileInterpolates(s: seq<real>, q: nat, i: nat, r: nat)
    requires s != [] && q <= 100 && (|s| - 1) * q == 100 * i + r && r < 100
    ensures |Sorted(s)| == |s| && i < |s| && (r > 0 ==> i + 1 < |s|)
    ensures r == 0 ==> Percentile(s, q) == Sorted(s)[i]
    ensures r > 0 ==> 100.0 * Percentile(s, q) == (100 - r) as real * Sorted(s)[i] + r as real * Sorted(s)[i + 1]
  {
    SortedMeaning(s);
    hide Sorted;
    PositionFits(|s| - 1, q);
    var h := Position(|s|, q);
    assert h / 100 == i && h % 100 == r;
    if i + 1 < |s| {
      InHundredths(Sorted(s)[i], Sorted(s)[i + 1], r);
    }
  }

  lemma InHundredths(a: real, b: real, r: nat)
    requires r < 100
    ensures 100.0 * Between(a, b, r as real / 100.0) == (100 - r) as real * a + r as real * b
  {
    var part := r as real / 100.0;
    assert 100.0 * (part * (b - a)) == r as real * (b - a);
    Distribute(r as real, b - a, a);
  }

  /** A higher percentile is not a lower number. */
  lemma PercentileAscends(s: seq<real>, p: nat, q: nat)
    requires s != [] && p <= q <= 100
    ensures Percentile(s, p) <= Percentile(s, q)
  {
    SortedMeaning(s);
    var t, g, h := Sorted(s), Position(|s|, p), Position(|s|, q);
    hide Sorted;
    PositionAscends(|s| - 1, p, q);
    PercentileAround(s, p);
    PercentileAround(s, q);
    hide Position;
    if g / 100 < h / 100 {
      assert t[g / 100 + 1] <= t[h / 100];
    } else if g / 100 + 1 < |s| {
      BetweenAscends(t[g / 100], t[g / 100 + 1], (g % 100) as real / 100.0, (h % 100) as real / 100.0);
    }
  }

  lemma PositionAscends(n: nat, p: nat, q: nat)
    requires p <= q <= 100
    ensures n * p <= n * q && (n * p) / 100 <= (n * q) / 100
    ensures (n * p) / 100 == (n * q) / 100 ==> (n * p) % 100 <= (n * q) % 100
  {
    assert n * (q - p) >= 0;
    assert n * q == n * p + n * (q - p);
  }

  lemma BetweenAscends(a: real, b: real, x: real, y: real)
    requires a <= b && x <= y
    ensures Between(a, b, x) <= Between(a, b, y)
  {
    Product(y - x, b - a);
    Distribute(b - a, y - x, x);
  }

  lemma PercentileAround(s: seq<real>, q: nat)
    requires s != [] && q <= 100
    ensures var t, i := Sorted(s), Position(|s|, q) / 100;
      && |t| == |s| && t[i] <= Percentile(s, q) && (i + 1 < |s| ==> Percentile(s, q) <= t[i + 1])
  {
    SortedMeaning(s);
    hide Sorted;
    var t, h := Sorted(s), Position(|s|, q);
    if h / 100 + 1 < |s| { BetweenIsBetween(t[h / 100], t[h / 100 + 1], (h % 100) as real / 100.0); }
  }

  function Along(a: real, step: real, x: real): real {
    a + x * step
  }

  /** `n` numbers in equal steps from `a`. */
  function Spaced(n: nat, a: real, step: real): (s: seq<real>)
    ensures |s| == n
  {
    seq(n, i requires 0 <= i < n => Along(a, step, i as real))
  }

  lemma SpacedAscends(n: nat, a: real, step: real)
    requires step >= 0.0
    ensures Ascending(Spaced(n, a, step))
  {
    forall i, j | 0 <= i < j < n ensures Spaced(n, a, step)[i] <= Spaced(n, a, step)[j] {
      Product((j - i) as real, step);
      Distribute(step, i as real, (j - i) as real);
    }
  }

  /** Of equally spaced numbers the `q`-th percentile lies `q` hundredths of the way from the first to the last. */
  lemma SpacedPercentile(n: nat, q: nat, a: real, step: real)
    requires n >= 2 && q <= 100 && step >= 0.0
    ensures var width := (n - 1) as real * step;
      && Spaced(n, a, step)[n - 1] == a + width
      && Percentile(Spaced(n, a, step), q) == a + q as real / 100.0 * width
  {
    hide Percentile, Spaced, Position;
    SpacedPercentileAlong(n, q, a, step);
    PositionAsProduct(n, q);
    StepsToPercentile(a, step, (n - 1) as real, q as real);
    SpacedAt(n, a, step, n - 1);
  }

  lemma PositionAsProduct(n: nat, q: nat)
    requires n > 0 && q <= 100
    ensures Position(n, q) as real == (n - 1) as real * q as real
  {}

  lemma SpacedAt(n: nat, a: real, step: real, i: nat)
    requires i < n
    ensures Spaced(n, a, step)[i] == Along(a, step, i as real)
  {}

  lemma StepsToPercentile(a: real, step: real, m: real, q: real)
    ensures Along(a, step, m * q / 100.0) == a + q / 100.0 * (m * step)
  {
    assert (m * q) * step == q * (m * step);
    assert m * q / 100.0 * step == (m * q) * step / 100.0;
  }

  lemma SpacedPercentileAlong(n: nat, q: nat, a: real, step: real)
    requires n >= 2 && q <= 100 && step >= 0.0
    ensures Percentile(Spaced(n, a, step), q) == Along(a, step, Position(n, q) as real / 100.0)
  {
    hide Position, Along, Hundredths;
    var s, h := Spaced(n, a, step), Position(n, q);
    SpacedAscends(n, a, step);
    SortedIsFixed(s);
    PercentileInHundredths(s, q);
    hide Percentile, Sorted, Ascending;
    InSteps(a, step, h / 100, h % 100);
    assert ((h / 100) as real * 100.0 + (h % 100) as real) == h as real;
    if h % 100 == 0 { NoHundredths(s[h / 100], Along(a, step, (h / 100 + 1) as real)); }
  }

  function Hundredths(x: real, y: real, r: nat): real {
    ((100.0 - r as real) * x + r as real * y) / 100.0
  }

  lemma NoHundredths(x: real, y: real)
    ensures Hundredths(x, y, 0) == x
  {}

  lemma PercentileInHundredths(s: seq<real>, q: nat)
    requires s != [] && q <= 100
    ensures var t, h := Sorted(s), Position(|s|, q);
      && |t| == |s|
      && (h % 100 == 0 ==> Percentile(s, q) == t[h / 100])
      && (h % 100 > 0 ==> h / 100 + 1 < |s| && Percentile(s, q) == Hundredths(t[h / 100], t[h / 100 + 1], h % 100))
  {
    var h := Position(|s|, q);
    PercentileInterpolates(s, q, h / 100, h % 100);
    hide Percentile, Sorted, Position;
  }

  lemma InSteps(a: real, step: real, k: nat, l: nat)
    ensures Along(a, step, (k as real * 100.0 + l as real) / 100.0)
      == Hundredths(Along(a, step, k as real), Along(a, step, (k + 1) as real), l)
  {
    var i, r := k as real, l as real;
    var x := a + i * step;
    Distribute(step, i, 1.0);
    Distribute(r, x, step);
    Distribute(step, i * 100.0, r);
    assert (i * 100.0 + r) / 100.0 * step == (i * 100.0 + r) * step / 100.0;
    assert (i * 100.0) * step == 100.0 * (i * step);
    assert (100.0 - r) * x + r * x == 100.0 * x;
  }

  /** Of 101 ascending numbers the percentiles are the numbers themselves. */
  lemma PercentileOfHundred(s: seq<real>, q: nat)
    requires |s| == 101 && Ascending(s) && q < 100
    ensures Percentile(s, q) == s[q]
  {
    SortedIsFixed(s);
    hide Sorted;
    var h := Position(101, q);
    assert h == 100 * q && h / 100 == q && h % 100 == 0;
  }
}

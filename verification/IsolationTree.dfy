/** Isolation trees stored as flat arrays: the walk over them, the score, and the stored form of a detector. */
module IsolationTree {
  import opened Wrappers
  import opened RealSums

  /** Parallel arrays, one entry a node; -1 as left child marks a leaf. */
  datatype FlatTree = FlatTree(
    left: seq<int>, right: seq<int>, feature: seq<int>, threshold: seq<real>, samples: seq<int>)

  datatype Tree = Leaf(samples: int) | Node(feature: nat, threshold: real, low: Tree, high: Tree)

  predicate IsLeaf(t: FlatTree, node: nat)
    requires node < |t.left|
  {
    t.left[node] == -1
  }

  /** Children come after their parent and no node has two parents: the arrays hold one finite binary tree. */
  predicate Encodes(t: FlatTree, dims: nat) {
    var n := |t.left|;
    && n > 0 && |t.right| == n && |t.feature| == n && |t.threshold| == n && |t.samples| == n
    && (forall i :: 0 <= i < n && t.left[i] != -1 ==>
         i < t.left[i] < n && i < t.right[i] < n && t.left[i] != t.right[i] && 0 <= t.feature[i] < dims)
    && (forall i, j :: 0 <= i < j < n && t.left[i] != -1 && t.left[j] != -1 ==>
         t.left[i] != t.left[j] && t.left[i] != t.right[j] && t.right[i] != t.left[j] && t.right[i] != t.right[j])
  }

  function Decode(t: FlatTree, dims: nat, node: nat): Tree
    requires Encodes(t, dims) && node < |t.left|
    decreases |t.left| - node
  {
    if t.left[node] == -1 then Leaf(t.samples[node])
    else Node(t.feature[node], t.threshold[node], Decode(t, dims, t.left[node]), Decode(t, dims, t.right[node]))
  }

  /** Expected path length of an unsuccessful search among `n`; `ln` stands for the natural logarithm. */
  function CFactor(n: int, ln: real -> real): real {
    if n <= 1 then 0.0
    else if n == 2 then 1.0
    else 2.0 * (ln(n as real - 1.0) + 0.57721566490153286060) - 2.0 * (n as real - 1.0) / n as real
  }

  predicate Fits(tree: Tree, dims: nat) {
    match tree
    case Leaf(_) => true
    case Node(f, _, low, high) => f < dims && Fits(low, dims) && Fits(high, dims)
  }

  /** Path length by recursion on the tree. */
  function PathLength(tree: Tree, x: seq<real>, ln: real -> real): real
    requires Fits(tree, |x|)
  {
    match tree
    case Leaf(n) => CFactor(n, ln)
    case Node(f, threshold, low, high) => 1.0 + PathLength(if x[f] <= threshold then low else high, x, ln)
  }

  function Depth(tree: Tree): nat {
    match tree
    case Leaf(_) => 0
    case Node(_, _, low, high) => 1 + (if Depth(low) < Depth(high) then Depth(high) else Depth(low))
  }

  lemma {:induction false} DecodedFits(t: FlatTree, dims: nat, node: nat)
    requires Encodes(t, dims) && node < |t.left|
    ensures Fits(Decode(t, dims, node), dims)
    decreases |t.left| - node
  {
    if t.left[node] != -1 {
      DecodedFits(t, dims, t.left[node]);
      DecodedFits(t, dims, t.right[node]);
    }
  }

  predicate ChildOf(t: FlatTree, p: nat, i: int) {
    p < |t.left| && p < |t.right| && t.left[p] != -1 && (i == t.left[p] || i == t.right[p])
  }

  /** The root and the children of the nodes passed so far are all different: a walk of `d` steps saw 2d + 1 nodes. */
  ghost predicate Seen(t: FlatTree, seen: set<nat>, node: nat, d: nat) {
    && |seen| == 2 * d + 1
    && (forall i :: i in seen ==> i < |t.left|)
    && (forall i :: i in seen && i != 0 ==> exists p :: 0 <= p < node && ChildOf(t, p, i))
  }

  lemma OneParent(t: FlatTree, dims: nat, q: nat, i: int)
    requires Encodes(t, dims) && ChildOf(t, q, i)
    ensures forall p :: ChildOf(t, p, i) ==> p == q
    ensures q < i < |t.left|
  {}

  lemma ChildIsNew(t: FlatTree, dims: nat, seen: set<nat>, node: nat, d: nat, i: nat)
    requires Encodes(t, dims) && Seen(t, seen, node, d) && ChildOf(t, node, i)
    ensures i !in seen
  {
    OneParent(t, dims, node, i);
    hide Encodes, ChildOf;
  }

  lemma SeeChildren(t: FlatTree, dims: nat, seen: set<nat>, node: nat, d: nat, l: nat, r: nat, next: nat)
    requires Encodes(t, dims) && Seen(t, seen, node, d)
    requires node < |t.left| && t.left[node] != -1 && l == t.left[node] && r == t.right[node]
    requires next == l || next == r
    ensures Seen(t, seen + {l, r}, next, d + 1)
  {
    assert ChildOf(t, node, l) && ChildOf(t, node, r) && l != r;
    ChildIsNew(t, dims, seen, node, d, l);
    ChildIsNew(t, dims, seen, node, d, r);
    OneParent(t, dims, node, l);
    OneParent(t, dims, node, r);
    hide Encodes, ChildOf;
    TwoMore(seen, l, r);
    forall i | i in seen + {l, r} && i != 0 ensures exists p :: 0 <= p < next && ChildOf(t, p, i) {
      if i in seen {
        var p :| 0 <= p < node && ChildOf(t, p, i);
      } else {
        assert ChildOf(t, node, i);
      }
    }
  }

  lemma TwoMore(s: set<nat>, l: nat, r: nat)
    requires l !in s && r !in s && l != r
    ensures |s + {l, r}| == |s| + 2
  {
    assert s + {l, r} == (s + {l}) + {r};
  }

  lemma {:induction false} SeenFits(seen: set<nat>, n: nat)
    requires forall i :: i in seen ==> i < n
    ensures |seen| <= n
    decreases n
  {
    if n > 0 {
      SeenFits(seen - {n - 1}, n - 1);
    } else {
      assert seen == {};
    }
  }

  /** The walk ends in a leaf, computes the tree's path length, and takes at most (nodes - 1) / 2 steps. */
  method PathLengthSingleTree(x: seq<real>, t: FlatTree, ln: real -> real)
    returns (h: real, ghost leaf: nat, ghost steps: nat)
    requires Encodes(t, |x|)
    ensures Fits(Decode(t, |x|, 0), |x|) && h == PathLength(Decode(t, |x|, 0), x, ln)
    ensures leaf < |t.left| && IsLeaf(t, leaf) && h == steps as real + CFactor(t.samples[leaf], ln)
    ensures 2 * steps + 1 <= |t.left|
  {
    hide CFactor, Seen;
    var node: nat := 0;
    var depth := 0.0;
    steps := 0;
    ghost var seen: set<nat> := {0};
    DecodedFits(t, |x|, 0);
    assert Seen(t, {0}, 0, 0) by { SeenRoot(t, |x|); }
    while t.left[node] != -1
      invariant node < |t.left|
      invariant Seen(t, seen, node, steps) && depth == steps as real
      invariant Fits(Decode(t, |x|, node), |x|)
      invariant PathLength(Decode(t, |x|, 0), x, ln) == depth + PathLength(Decode(t, |x|, node), x, ln)
      decreases |t.left| - node
    {
      var low: nat, high: nat := t.left[node], t.right[node];
      var next := if x[t.feature[node]] <= t.threshold[node] then low else high;
      SeeChildren(t, |x|, seen, node, steps, low, high, next);
      seen := seen + {low, high};
      node := next;
      depth := depth + 1.0;
      steps := steps + 1;
    }
    SeenIsSmall(t, seen, node, steps);
    leaf := node;
    h := depth + CFactor(t.samples[node], ln);
  }

  lemma SeenRoot(t: FlatTree, dims: nat)
    requires Encodes(t, dims)
    ensures Seen(t, {0}, 0, 0)
  {}

  lemma SeenIsSmall(t: FlatTree, seen: set<nat>, node: nat, d: nat)
    requires Seen(t, seen, node, d)
    ensures 2 * d + 1 <= |t.left|
  {
    SeenFits(seen, |t.left|);
  }

  // Encoding a tree in preorder

  datatype Row = Row(left: int, right: int, feature: int, threshold: real, samples: int)

  function Size(tree: Tree): (n: nat)
    ensures n > 0
  {
    match tree
    case Leaf(_) => 1
    case Node(_, _, low, high) => 1 + Size(low) + Size(high)
  }

  /** Depth-first rows of a tree whose root gets index `base`; inner nodes record no sample count here. */
  function Rows(tree: Tree, base: nat): (r: seq<Row>)
    ensures |r| == Size(tree)
  {
    match tree
    case Leaf(n) => [Row(-1, -1, -2, -2.0, n)]
    case Node(f, threshold, low, high) =>
      [Row(base + 1, base + 1 + Size(low), f, threshold, 0)] + Rows(low, base + 1) + Rows(high, base + 1 + Size(low))
  }

  function FromRows(rows: seq<Row>): FlatTree {
    FlatTree(
      seq(|rows|, i requires 0 <= i < |rows| => rows[i].left),
      seq(|rows|, i requires 0 <= i < |rows| => rows[i].right),
      seq(|rows|, i requires 0 <= i < |rows| => rows[i].feature),
      seq(|rows|, i requires 0 <= i < |rows| => rows[i].threshold),
      seq(|rows|, i requires 0 <= i < |rows| => rows[i].samples))
  }

  lemma FromRowsAt(rows: seq<Row>, i: nat)
    requires i < |rows|
    ensures var t := FromRows(rows);
      && |t.left| == |t.right| == |t.feature| == |t.threshold| == |t.samples| == |rows|
      && Row(t.left[i], t.right[i], t.feature[i], t.threshold[i], t.samples[i]) == rows[i]
  {}

  /** A row's children lie after it and within the subtree. */
  predicate RowFits(row: Row, i: int, end: int, dims: nat) {
    row.left != -1 ==> i < row.left < end && i < row.right < end && row.left != row.right && 0 <= row.feature < dims
  }

  lemma {:induction false} RowsFit(tree: Tree, base: nat, dims: nat)
    requires Fits(tree, dims)
    ensures forall i :: 0 <= i < |Rows(tree, base)| ==> RowFits(Rows(tree, base)[i], base + i, base + Size(tree), dims)
    decreases tree
  {
    match tree
    case Leaf(_) =>
    case Node(_, _, low, high) =>
      RowsFit(low, base + 1, dims);
      RowsFit(high, base + 1 + Size(low), dims);
      var a, b, all := Rows(low, base + 1), Rows(high, base + 1 + Size(low)), Rows(tree, base);
      forall i | 0 <= i < |all| ensures RowFits(all[i], base + i, base + Size(tree), dims) {
        if 0 < i <= |a| {
          assert all[i] == a[i - 1] && RowFits(a[i - 1], base + 1 + (i - 1), base + 1 + Size(low), dims);
        } else if i > |a| {
          assert all[i] == b[i - 1 - |a|];
          assert RowFits(b[i - 1 - |a|], base + 1 + Size(low) + (i - 1 - |a|), base + 1 + Size(low) + Size(high), dims);
        }
      }
  }

  predicate Apart(p: Row, q: Row) {
    p.left != -1 && q.left != -1 ==>
      p.left != q.left && p.left != q.right && p.right != q.left && p.right != q.right
  }

  lemma {:induction false} RowsApart(tree: Tree, base: nat, dims: nat)
    requires Fits(tree, dims)
    ensures forall i, j :: 0 <= i < j < |Rows(tree, base)| ==> Apart(Rows(tree, base)[i], Rows(tree, base)[j])
    decreases tree
  {
    match tree
    case Leaf(_) =>
    case Node(_, _, low, high) =>
      var mid := base + 1 + Size(low);
      RowsApart(low, base + 1, dims);
      RowsApart(high, mid, dims);
      RowsFit(low, base + 1, dims);
      RowsFit(high, mid, dims);
      var a, b, all := Rows(low, base + 1), Rows(high, mid), Rows(tree, base);
      forall i, j | 0 <= i < j < |all| ensures Apart(all[i], all[j]) {
        if 0 < i { RowIn(a, b, all, i); }
        RowIn(a, b, all, j);
        if 0 < i && i <= |a| { assert RowFits(a[i - 1], base + 1 + (i - 1), mid, dims); }
        if j <= |a| { assert RowFits(a[j - 1], base + 1 + (j - 1), mid, dims); }
        else { assert RowFits(b[j - 1 - |a|], mid + (j - 1 - |a|), mid + Size(high), dims); }
      }
  }

  lemma RowIn(a: seq<Row>, b: seq<Row>, all: seq<Row>, i: nat)
    requires |all| == 1 + |a| + |b| && all == [all[0]] + a + b && 0 < i < |all|
    ensures all[i] == if i <= |a| then a[i - 1] else b[i - 1 - |a|]
  {}

  /** Every tree has such an encoding. */
  lemma EncodingIsValid(tree: Tree, dims: nat)
    requires Fits(tree, dims)
    ensures Encodes(FromRows(Rows(tree, 0)), dims)
  {
    RowsFit(tree, 0, dims);
    RowsApart(tree, 0, dims);
    hide Rows;
    var rows, t := Rows(tree, 0), FromRows(Rows(tree, 0));
    assert forall i :: 0 <= i < |rows| ==> RowFits(rows[i], i, |rows|, dims);
    assert forall i, j :: 0 <= i < j < |rows| ==> Apart(rows[i], rows[j]);
  }

  predicate Holds(rows: seq<Row>, base: nat, part: seq<Row>) {
    base + |part| <= |rows| && forall k :: 0 <= k < |part| ==> rows[base + k] == part[k]
  }

  lemma HoldsBoth(rows: seq<Row>, base: nat, a: seq<Row>, b: seq<Row>)
    requires Holds(rows, base, a + b)
    ensures Holds(rows, base, a) && Holds(rows, base + |a|, b)
  {
    forall k | 0 <= k < |a| ensures rows[base + k] == a[k] { assert (a + b)[k] == a[k]; }
    forall k | 0 <= k < |b| ensures rows[base + |a| + k] == b[k] { assert (a + b)[|a| + k] == b[k]; }
  }

  lemma DecodeStep(rows: seq<Row>, i: nat, dims: nat)
    requires Encodes(FromRows(rows), dims) && i < |rows|
    ensures var t, row := FromRows(rows), rows[i];
      && (row.left == -1 ==> Decode(t, dims, i) == Leaf(row.samples))
      && (row.left != -1 ==>
           && i < row.left < |rows| && i < row.right < |rows| && row.feature >= 0
           && Decode(t, dims, i)
              == Node(row.feature, row.threshold, Decode(t, dims, row.left), Decode(t, dims, row.right)))
  {
    FromRowsAt(rows, i);
  }

  lemma {:induction false} DecodeRows(tree: Tree, rows: seq<Row>, base: nat, dims: nat)
    requires Encodes(FromRows(rows), dims) && Holds(rows, base, Rows(tree, base))
    ensures base < |rows| && Decode(FromRows(rows), dims, base) == tree
    decreases tree
  {
    var row := Rows(tree, base)[0];
    assert rows[base + 0] == row;
    DecodeStep(rows, base, dims);
    match tree
    case Leaf(n) =>
    case Node(f, threshold, low, high) =>
      var mid := base + 1 + Size(low);
      var a, b := Rows(low, base + 1), Rows(high, mid);
      assert Rows(tree, base) == [row] + (a + b);
      hide Encodes, FromRows, Rows, Decode, Holds;
      HoldsBoth(rows, base, [row], a + b);
      HoldsBoth(rows, base + 1, a, b);
      DecodeRows(low, rows, base + 1, dims);
      DecodeRows(high, rows, mid, dims);
  }

  /** Round trip: decoding the preorder arrays of a tree gives the tree back. */
  lemma EncodeDecode(tree: Tree, dims: nat)
    requires Fits(tree, dims)
    ensures Encodes(FromRows(Rows(tree, 0)), dims) && Decode(FromRows(Rows(tree, 0)), dims, 0) == tree
  {
    EncodingIsValid(tree, dims);
    var rows := Rows(tree, 0);
    DecodeRows(tree, rows, 0, dims);
  }

  // Scores

  /** `features` is the feature list of the schema the detector was made with. */
  datatype Detector = Detector(
    features: seq<string>,
    threshold: real, nSamples: int, means: map<string, real>, stds: map<string, real>, trees: seq<FlatTree>)

  predicate Usable(d: Detector, dims: nat) {
    forall k :: 0 <= k < |d.trees| ==> Encodes(d.trees[k], dims)
  }

  function Lengths(trees: seq<FlatTree>, x: seq<real>, ln: real -> real): (r: seq<real>)
    requires forall k :: 0 <= k < |trees| ==> Encodes(trees[k], |x|)
    ensures |r| == |trees|
  {
    if trees == [] then []
    else
      DecodedFits(trees[0], |x|, 0);
      [PathLength(Decode(trees[0], |x|, 0), x, ln)] + Lengths(trees[1..], x, ln)
  }

  /** 2 to the minus mean path length over the expected one; one half without trees. `pow2` is the power function. */
  function Score(d: Detector, x: seq<real>, ln: real -> real, pow2: real -> real): real
    requires Usable(d, |x|)
  {
    if d.trees == [] then 0.5
    else
      var expected := if CFactor(d.nSamples, ln) <= 0.0 then 1.0 else CFactor(d.nSamples, ln);
      pow2(-(Sum(Lengths(d.trees, x, ln)) / |d.trees| as real) / expected)
  }

  /** Samples come as plain rows, or as a table with named columns. */
  datatype Samples = Matrix(rows: seq<seq<real>>) | Table(columns: set<string>, records: seq<map<string, real>>)

  ghost predicate WellShaped(xs: Samples, d: Detector, dims: nat) {
    match xs
    case Matrix(rows) => forall i :: 0 <= i < |rows| ==> |rows[i]| == dims
    case Table(columns, records) =>
      |d.features| == dims && forall i :: 0 <= i < |records| ==> records[i].Keys == columns
  }

  datatype ScoreError = MissingColumn

  /** A record's values in the order of the features, 0 where it has none. */
  function Project(record: map<string, real>, features: seq<string>): (x: seq<real>)
    ensures |x| == |features|
  {
    seq(|features|, i requires 0 <= i < |features| => if features[i] in record then record[features[i]] else 0.0)
  }

  function RowsOf(xs: Samples, d: Detector): seq<seq<real>> {
    match xs
    case Matrix(rows) => rows
    case Table(_, records) => seq(|records|, i requires 0 <= i < |records| => Project(records[i], d.features))
  }

  method ScoreRow(d: Detector, x: seq<real>, ln: real -> real, pow2: real -> real) returns (score: real)
    requires Usable(d, |x|) && d.trees != []
    ensures score == Score(d, x, ln, pow2)
  {
    hide CFactor, Encodes, Lengths, PathLength, Decode, Fits, Sum;
    var c := CFactor(d.nSamples, ln);
    if c <= 0.0 { c := 1.0; }
    var lengths := [];
    for k := 0 to |d.trees|
      invariant lengths + Lengths(d.trees[k..], x, ln) == Lengths(d.trees, x, ln)
    {
      var h, _, _ := PathLengthSingleTree(x, d.trees[k], ln);
      LengthsStep(d.trees, k, x, ln);
      lengths := lengths + [h];
    }
    assert |Lengths(d.trees[|d.trees|..], x, ln)| == 0;
    assert lengths == Lengths(d.trees, x, ln);
    return pow2(-(Sum(lengths) / |d.trees| as real) / c);
  }

  lemma LengthsStep(trees: seq<FlatTree>, k: nat, x: seq<real>, ln: real -> real)
    requires k < |trees| && forall i :: 0 <= i < |trees| ==> Encodes(trees[i], |x|)
    ensures Fits(Decode(trees[k], |x|, 0), |x|)
    ensures Lengths(trees[k..], x, ln) == [PathLength(Decode(trees[k], |x|, 0), x, ln)] + Lengths(trees[k + 1..], x, ln)
  {
    hide PathLength;
    DecodedFits(trees[k], |x|, 0);
    assert trees[k..][1..] == trees[k + 1..];
  }

  /** Named samples are first brought into the order of the detector's own features. */
  method ScoreSamples(d: Detector, xs: Samples, dims: nat, ln: real -> real, pow2: real -> real)
    returns (r: Result<seq<real>, ScoreError>)
    requires Usable(d, dims) && WellShaped(xs, d, dims)
    ensures r.Err? <==> xs.Table? && exists f :: f in d.features && f !in xs.columns
    ensures r.Ok? ==>
      var rows := RowsOf(xs, d);
      && |r.value| == |rows|
      && forall i :: 0 <= i < |rows| ==> |rows[i]| == dims && r.value[i] == Score(d, rows[i], ln, pow2)
  {
    hide Score, Usable;
    if xs.Table? && exists f :: f in d.features && f !in xs.columns { return Err(MissingColumn); }
    var rows := RowsOf(xs, d);
    assert forall i :: 0 <= i < |rows| ==> |rows[i]| == dims;
    if d.trees == [] {
      assert forall i :: 0 <= i < |rows| ==> Score(d, rows[i], ln, pow2) == 0.5
        by { EmptyForestIsNeutral(d, ln, pow2); }
      return Ok(seq(|rows|, _ => 0.5));
    }
    var scores := [];
    for i := 0 to |rows|
      invariant |scores| == i
      invariant forall j :: 0 <= j < i ==> scores[j] == Score(d, rows[j], ln, pow2)
    {
      var score := ScoreRow(d, rows[i], ln, pow2);
      scores := scores + [score];
    }
    return Ok(scores);
  }

  /** One named record, with 0 for what it leaves out. */
  method EvaluateFlow(d: Detector, record: map<string, real>, ln: real -> real, pow2: real -> real)
    returns (isAnomaly: bool, score: real)
    requires Usable(d, |d.features|)
    ensures score == Score(d, Project(record, d.features), ln, pow2)
    ensures isAnomaly <==> score >= d.threshold
  {
    hide Score, Usable;
    var scores := ScoreSamples(d, Matrix([Project(record, d.features)]), |d.features|, ln, pow2);
    score := scores.value[0];
    isAnomaly := score >= d.threshold;
  }

  lemma EmptyForestIsNeutral(d: Detector, ln: real -> real, pow2: real -> real)
    requires d.trees == []
    ensures forall x :: Usable(d, |x|) ==> Score(d, x, ln, pow2) == 0.5
  {}

  /** What the bound below needs of the logarithm and the power function. */
  ghost predicate Transcendental(ln: real -> real, pow2: real -> real) {
    && (forall x :: x >= 2.0 ==> ln(x) >= 0.5)
    && (forall y :: y <= 0.0 ==> 0.0 < pow2(y) <= 1.0)
  }

  lemma CFactorIsNonNegative(n: int, ln: real -> real)
    requires forall x :: x >= 2.0 ==> ln(x) >= 0.5
    ensures CFactor(n, ln) >= 0.0
  {
    if n > 2 {
      var r := n as real;
      QuotientInUnit(r - 1.0, r);
      assert 2.0 * (r - 1.0) / r == 2.0 * ((r - 1.0) / r);
    }
  }

  lemma {:induction false} PathIsNonNegative(tree: Tree, x: seq<real>, ln: real -> real)
    requires Fits(tree, |x|) && forall y :: y >= 2.0 ==> ln(y) >= 0.5
    ensures PathLength(tree, x, ln) >= 0.0
    decreases tree
  {
    match tree
    case Leaf(n) => CFactorIsNonNegative(n, ln);
    case Node(f, threshold, low, high) => PathIsNonNegative(if x[f] <= threshold then low else high, x, ln);
  }

  lemma {:induction false} LengthsAreNonNegative(trees: seq<FlatTree>, x: seq<real>, ln: real -> real)
    requires forall k :: 0 <= k < |trees| ==> Encodes(trees[k], |x|)
    requires forall y :: y >= 2.0 ==> ln(y) >= 0.5
    ensures forall k :: 0 <= k < |trees| ==> Lengths(trees, x, ln)[k] >= 0.0
    decreases |trees|
  {
    hide CFactor;
    if trees != [] {
      DecodedFits(trees[0], |x|, 0);
      PathIsNonNegative(Decode(trees[0], |x|, 0), x, ln);
      LengthsAreNonNegative(trees[1..], x, ln);
    }
  }

  /** Every score lies in (0, 1]. */
  lemma ScoreInUnit(d: Detector, x: seq<real>, ln: real -> real, pow2: real -> real)
    requires Usable(d, |x|) && Transcendental(ln, pow2)
    ensures 0.0 < Score(d, x, ln, pow2) <= 1.0
  {
    hide Encodes, CFactor, Lengths, Sum;
    if d.trees != [] {
      LengthsAreNonNegative(d.trees, x, ln);
      var total := Sum(Lengths(d.trees, x, ln));
      SumNonNegative(Lengths(d.trees, x, ln));
      var expected := if CFactor(d.nSamples, ln) <= 0.0 then 1.0 else CFactor(d.nSamples, ln);
      NonPositiveExponent(total, |d.trees|, expected);
    }
  }

  lemma NonPositiveExponent(total: real, n: nat, expected: real)
    requires total >= 0.0 && n > 0 && expected > 0.0
    ensures -(total / n as real) / expected <= 0.0
  {
    var mean := total / n as real;
    ScaleBack(total, n as real);
    assert mean >= 0.0;
    ScaleBack(-mean, expected);
    var q := -mean / expected;
    assert expected * q == -mean;
    assert q > 0.0 ==> expected * q > 0.0;
  }

  /** Fewer splits to isolate a sample, over all trees, is a higher score. */
  lemma ShorterPathsScoreHigher(d: Detector, x: seq<real>, y: seq<real>, ln: real -> real, pow2: real -> real)
    requires |x| == |y| && Usable(d, |x|) && d.trees != []
    requires forall a, b :: a < b ==> pow2(a) < pow2(b)
    ensures Score(d, x, ln, pow2) > Score(d, y, ln, pow2)
      <==> Sum(Lengths(d.trees, x, ln)) < Sum(Lengths(d.trees, y, ln))
  {
    hide Encodes, CFactor, Lengths, Sum;
    var expected := if CFactor(d.nSamples, ln) <= 0.0 then 1.0 else CFactor(d.nSamples, ln);
    ExponentOrder(Sum(Lengths(d.trees, x, ln)), Sum(Lengths(d.trees, y, ln)), |d.trees|, expected);
  }

  lemma ExponentOrder(a: real, b: real, n: nat, expected: real)
    requires n > 0 && expected > 0.0
    ensures a < b <==> -(a / n as real) / expected > -(b / n as real) / expected
    ensures a == b <==> -(a / n as real) / expected == -(b / n as real) / expected
  {
    QuotientOrder(a, b, n as real);
    QuotientOrder(-(b / n as real), -(a / n as real), expected);
  }

  // The stored form

  datatype Json =
    | Number(r: real) | Integer(i: int) | Numbers(m: map<string, real>) | Trees(ts: seq<FlatTree>) | Label(s: string)

  /** What the schema stands for in the file: a hash of it, not its features. */
  type Hasher = seq<string> -> string

  function ToDict(d: Detector, hash: Hasher): map<string, Json> {
    map["version" := Label("1.0.0"), "schema_hash" := Label(hash(d.features)),
        "operational_threshold" := Number(d.threshold), "n_samples_fit" := Integer(d.nSamples),
        "feature_means" := Numbers(d.means), "feature_stds" := Numbers(d.stds),
        "num_trees" := Integer(|d.trees|), "trees_data" := Trees(d.trees)]
  }

  const CANONICAL_FEATURES: seq<string> := [
    "f15_total_packets", "f16_total_bytes", "f17_flow_duration_ms", "f18_packet_rate_pps", "f19_byte_rate_bps",
    "f09_mean_iat", "f10_std_iat", "f01_mean_fwd_pkt_len", "f05_mean_bwd_pkt_len", "f13_fwd_bwd_pkt_ratio"]

  datatype LoadError = MissingThreshold | WrongKind

  /**
   * The features are those of the schema handed over, else the canonical ones; the stored hash is not consulted. A
   * missing threshold or an entry of the wrong kind fails; every other missing entry has a default.
   */
  function LoadJson(data: map<string, Json>, schema: Option<seq<string>>): Result<Detector, LoadError> {
    var features := schema.GetOr(CANONICAL_FEATURES);
    var n := if "n_samples_fit" in data then data["n_samples_fit"] else Integer(256);
    var means := if "feature_means" in data then data["feature_means"] else Numbers(map[]);
    var stds := if "feature_stds" in data then data["feature_stds"] else Numbers(map[]);
    var trees := if "trees_data" in data then data["trees_data"] else Trees([]);
    if "operational_threshold" !in data then Err(MissingThreshold)
    else
      var threshold := data["operational_threshold"];
      if !(threshold.Number? && n.Integer? && means.Numbers? && stds.Numbers? && trees.Trees?) then Err(WrongKind)
      else Ok(Detector(features, threshold.r, n.i, means.m, stds.m, trees.ts))
  }

  /** Everything but the feature list survives storing and loading. */
  lemma LoadedDetectorIs(d: Detector, hash: Hasher, schema: Option<seq<string>>)
    ensures LoadJson(ToDict(d, hash), schema) == Ok(d.(features := schema.GetOr(CANONICAL_FEATURES)))
  {
    var data := ToDict(d, hash);
    assert data["n_samples_fit"] == Integer(d.nSamples) && data["operational_threshold"] == Number(d.threshold);
    assert data["feature_means"] == Numbers(d.means) && data["feature_stds"] == Numbers(d.stds);
    assert data["trees_data"] == Trees(d.trees);
  }

  /** Two feature lists read every record alike only when they are the same list. */
  lemma ProjectionTellsFeatures(f: seq<string>, g: seq<string>)
    ensures (forall record :: Project(record, f) == Project(record, g)) <==> f == g
  {
    if forall record :: Project(record, f) == Project(record, g) {
      assert |Project(map[], f)| == |Project(map[], g)|;
      forall i | 0 <= i < |f| ensures f[i] == g[i] {
        var one := map[f[i] := 1.0];
        assert Project(one, f)[i] == 1.0 && Project(one, g)[i] == 1.0;
      }
    }
  }

  /** The schema to load a detector with. */
  predicate Restores(schema: Option<seq<string>>, d: Detector) {
    schema == Some(d.features) || (schema.None? && d.features == CANONICAL_FEATURES)
  }

  /** A reloaded detector reads every named record as before exactly when its own schema is restored. */
  lemma ReloadReadsAlike(d: Detector, hash: Hasher, schema: Option<seq<string>>)
    ensures var r := LoadJson(ToDict(d, hash), schema);
      && r.Ok?
      && (Restores(schema, d) <==> forall record :: Project(record, r.value.features) == Project(record, d.features))
  {
    LoadedDetectorIs(d, hash, schema);
    ProjectionTellsFeatures(schema.GetOr(CANONICAL_FEATURES), d.features);
  }

  /** Plain rows are scored as before whatever the schema; named ones if the schema is restored. */
  lemma StoredDetectorScoresAlike(
      d: Detector, hash: Hasher, schema: Option<seq<string>>, xs: Samples, dims: nat,
      ln: real -> real, pow2: real -> real)
    requires Usable(d, dims) && WellShaped(xs, d, dims) && (xs.Matrix? || Restores(schema, d))
    ensures var r := LoadJson(ToDict(d, hash), schema);
      && r.Ok? && Usable(r.value, dims) && RowsOf(xs, r.value) == RowsOf(xs, d)
      && forall x: seq<real> :: |x| == dims ==> Score(r.value, x, ln, pow2) == Score(d, x, ln, pow2)
  {
    LoadedDetectorIs(d, hash, schema);
    var e := d.(features := schema.GetOr(CANONICAL_FEATURES));
    assert Usable(e, dims);
    hide Usable, RowsOf;
    forall x: seq<real> | |x| == dims ensures Usable(e, dims) && Score(e, x, ln, pow2) == Score(d, x, ln, pow2) {
      SchemaDoesNotScore(d, e.features, x, ln, pow2);
    }
  }

  lemma SchemaDoesNotScore(d: Detector, features: seq<string>, x: seq<real>, ln: real -> real, pow2: real -> real)
    requires Usable(d, |x|)
    ensures Usable(d.(features := features), |x|)
    ensures Score(d.(features := features), x, ln, pow2) == Score(d, x, ln, pow2)
  {
    hide Encodes;
  }

  // Which schemas keep the scores of named records

  lemma EncodesMoreDims(t: FlatTree, m: nat, n: nat)
    requires Encodes(t, m) && m <= n
    ensures Encodes(t, n)
  {}

  lemma {:induction false} DecodesAlike(t: FlatTree, m: nat, n: nat, node: nat)
    requires Encodes(t, m) && Encodes(t, n) && node < |t.left|
    ensures Decode(t, m, node) == Decode(t, n, node)
    decreases |t.left| - node
  {
    if t.left[node] != -1 {
      DecodesAlike(t, m, n, t.left[node]);
      DecodesAlike(t, m, n, t.right[node]);
    }
  }

  lemma {:induction false} LongerRowSamePath(tree: Tree, x: seq<real>, y: seq<real>, ln: real -> real)
    requires Fits(tree, |x|) && x <= y
    ensures Fits(tree, |y|) && PathLength(tree, x, ln) == PathLength(tree, y, ln)
    decreases tree
  {
    hide CFactor;
    match tree
    case Leaf(_) =>
    case Node(_, _, low, high) =>
      LongerRowSamePath(low, x, y, ln);
      LongerRowSamePath(high, x, y, ln);
  }

  lemma {:induction false} LongerRowSameLengths(trees: seq<FlatTree>, x: seq<real>, y: seq<real>, ln: real -> real)
    requires (forall k :: 0 <= k < |trees| ==> Encodes(trees[k], |x|)) && x <= y
    ensures forall k :: 0 <= k < |trees| ==> Encodes(trees[k], |y|)
    ensures Lengths(trees, x, ln) == Lengths(trees, y, ln)
    decreases |trees|
  {
    hide Encodes, PathLength, Decode, Fits;
    forall k | 0 <= k < |trees| ensures Encodes(trees[k], |y|) { EncodesMoreDims(trees[k], |x|, |y|); }
    if trees != [] {
      FirstNode(trees[0], |x|);
      DecodedFits(trees[0], |x|, 0);
      DecodedFits(trees[0], |y|, 0);
      DecodesAlike(trees[0], |x|, |y|, 0);
      LongerRowSamePath(Decode(trees[0], |x|, 0), x, y, ln);
      LongerRowSameLengths(trees[1..], x, y, ln);
    }
  }

  lemma FirstNode(t: FlatTree, dims: nat)
    requires Encodes(t, dims)
    ensures 0 < |t.left|
  {}

  lemma LongerRowSameScore(d: Detector, e: Detector, x: seq<real>, y: seq<real>, ln: real -> real, pow2: real -> real)
    requires Usable(d, |x|) && x <= y && e == d.(features := e.features)
    ensures Usable(e, |y|) && Score(e, y, ln, pow2) == Score(d, x, ln, pow2)
  {
    hide Encodes, Lengths, CFactor, Sum;
    LongerRowSameLengths(d.trees, x, y, ln);
  }

  lemma LongerListLongerRow(record: map<string, real>, f: seq<string>, g: seq<string>)
    requires f <= g
    ensures Project(record, f) <= Project(record, g)
  {}

  /** The reloaded detector can score any named record, and scores it as the original did. */
  ghost predicate ScoresAlike(d: Detector, e: Detector, ln: real -> real, pow2: real -> real) {
    && Usable(d, |d.features|) && Usable(e, |e.features|)
    && forall record: map<string, real> ::
         Score(e, Project(record, e.features), ln, pow2) == Score(d, Project(record, d.features), ln, pow2)
  }

  lemma PrefixScoresAlike(d: Detector, e: Detector, ln: real -> real, pow2: real -> real)
    requires Usable(d, |d.features|) && e == d.(features := e.features) && d.features <= e.features
    ensures ScoresAlike(d, e, ln, pow2)
  {
    hide Usable, Score;
    LongerListLongerRow(map[], d.features, e.features);
    LongerRowSameScore(d, e, Project(map[], d.features), Project(map[], e.features), ln, pow2);
    forall record: map<string, real>
      ensures Score(e, Project(record, e.features), ln, pow2) == Score(d, Project(record, d.features), ln, pow2)
    {
      LongerListLongerRow(record, d.features, e.features);
      LongerRowSameScore(d, e, Project(record, d.features), Project(record, e.features), ln, pow2);
    }
  }

  /** One tree that splits once, on column `k`. */
  function SplitOn(features: seq<string>, k: nat): Detector {
    Detector(features, 0.6, 2, map[], map[], [FromRows(Rows(Node(k, 0.5, Leaf(1), Leaf(2)), 0))])
  }

  lemma SplitScore(f: seq<string>, k: nat, x: seq<real>, ln: real -> real, pow2: real -> real)
    requires k < |x|
    ensures Usable(SplitOn(f, k), |x|) && Score(SplitOn(f, k), x, ln, pow2) == pow2(if x[k] <= 0.5 then -1.0 else -2.0)
  {
    var tree := Node(k, 0.5, Leaf(1), Leaf(2));
    var t := FromRows(Rows(tree, 0));
    EncodeDecode(tree, |x|);
    hide Encodes, Decode, Rows, FromRows;
    assert [t][1..] == [];
    assert PathLength(tree, x, ln) == if x[k] <= 0.5 then 1.0 else 2.0;
    assert Lengths([t], x, ln) == [PathLength(tree, x, ln)];
    SumSnoc([], PathLength(tree, x, ln));
    assert [] + [PathLength(tree, x, ln)] == [PathLength(tree, x, ln)] && Sum([]) == 0.0;
    assert CFactor(2, ln) == 1.0;
  }

  lemma SplitNeedsColumn(f: seq<string>, k: nat, dims: nat)
    requires dims <= k
    ensures !Usable(SplitOn(f, k), dims)
  {
    var t := FromRows(Rows(Node(k, 0.5, Leaf(1), Leaf(2)), 0));
    assert SplitOn(f, k).trees[0] == t;
    assert t.left[0] != -1 && t.feature[0] == k;
  }

  /** A list that does not begin with the original's fails the split on the first column where it departs. */
  lemma DepartureShows(f: seq<string>, g: seq<string>, ln: real -> real, pow2: real -> real) returns (k: nat)
    requires !(f <= g) && forall a, b :: a < b ==> pow2(a) < pow2(b)
    ensures k < |f| && Usable(SplitOn(f, k), |f|) && !ScoresAlike(SplitOn(f, k), SplitOn(g, k), ln, pow2)
  {
    if forall i :: 0 <= i < |f| && i < |g| ==> f[i] == g[i] {
      k := |g|;
      assert |g| < |f|;
      SplitScore(f, k, Project(map[], f), ln, pow2);
      SplitNeedsColumn(g, k, |g|);
    } else {
      k :| 0 <= k < |f| && k < |g| && f[k] != g[k];
      var record := map[f[k] := 1.0];
      var x, y := Project(record, f), Project(record, g);
      assert x[k] == 1.0 && y[k] == 0.0;
      SplitScore(f, k, x, ln, pow2);
      SplitScore(g, k, y, ln, pow2);
      hide SplitOn, Score, Usable;
      assert Score(SplitOn(f, k), x, ln, pow2) != Score(SplitOn(g, k), y, ln, pow2);
    }
  }

  /**
   * The schemas that are safe to load with: every detector with features `f` scores all named records as before if and
   * only if the list it is loaded with begins with `f`.
   */
  lemma ReloadScoresAlike(
      f: seq<string>, schema: Option<seq<string>>, hash: Hasher, ln: real -> real, pow2: real -> real)
    requires forall a, b :: a < b ==> pow2(a) < pow2(b)
    ensures f <= schema.GetOr(CANONICAL_FEATURES) <==>
      forall d: Detector :: d.features == f && Usable(d, |f|) ==>
        LoadJson(ToDict(d, hash), schema).Ok? && ScoresAlike(d, LoadJson(ToDict(d, hash), schema).value, ln, pow2)
  {
    hide ScoresAlike, Usable, LoadJson, ToDict, SplitOn;
    var g := schema.GetOr(CANONICAL_FEATURES);
    if f <= g {
      forall d: Detector | d.features == f && Usable(d, |f|)
        ensures LoadJson(ToDict(d, hash), schema).Ok?
        ensures ScoresAlike(d, LoadJson(ToDict(d, hash), schema).value, ln, pow2)
      {
        LoadedDetectorIs(d, hash, schema);
        PrefixScoresAlike(d, d.(features := g), ln, pow2);
      }
    } else {
      var k := DepartureShows(f, g, ln, pow2);
      LoadedDetectorIs(SplitOn(f, k), hash, schema);
      SplitFeatures(f, g, k);
    }
  }

  lemma SplitFeatures(f: seq<string>, g: seq<string>, k: nat)
    ensures SplitOn(f, k).features == f && SplitOn(f, k).(features := g) == SplitOn(g, k)
  {}

  const TWO_FEATURES := SplitOn(["a", "b"], 0)

  /** Loaded without its schema, this detector reads another column and scores the record differently. */
  lemma ReloadCanScoreDifferently(hash: Hasher, ln: real -> real, pow2: real -> real)
    requires forall a, b :: a < b ==> pow2(a) < pow2(b)
    ensures var d, record := TWO_FEATURES, map["a" := 1.0, "b" := 1.0];
      var r := LoadJson(ToDict(d, hash), None);
      && r.Ok?
      && var x, y := Project(record, d.features), Project(record, r.value.features);
      && Usable(d, |x|) && Usable(r.value, |y|)
      && Score(d, x, ln, pow2) < Score(r.value, y, ln, pow2)
  {
    var d, record := TWO_FEATURES, map["a" := 1.0, "b" := 1.0];
    LoadedDetectorIs(d, hash, None);
    SplitFeatures(d.features, CANONICAL_FEATURES, 0);
    var x, y := Project(record, d.features), Project(record, CANONICAL_FEATURES);
    assert x[0] == 1.0 && y[0] == 0.0;
    SplitScore(d.features, 0, x, ln, pow2);
    SplitScore(CANONICAL_FEATURES, 0, y, ln, pow2);
    hide SplitOn, Score, Usable, LoadJson, ToDict;
  }

  // What a score is

  /** The score is the power of 2 to minus the mean path length in units of the expected one. */
  lemma ScoreIsPower(d: Detector, x: seq<real>, e: real, ln: real -> real, pow2: real -> real)
    requires Usable(d, |x|) && d.trees != []
    requires var expected := if CFactor(d.nSamples, ln) > 0.0 then CFactor(d.nSamples, ln) else 1.0;
      e * expected * |d.trees| as real == Sum(Lengths(d.trees, x, ln))
    ensures Score(d, x, ln, pow2) == pow2(-e)
  {
    hide Encodes, CFactor, Lengths, Sum;
    var expected, n := if CFactor(d.nSamples, ln) > 0.0 then CFactor(d.nSamples, ln) else 1.0, |d.trees| as real;
    Divided(e, expected, n, Sum(Lengths(d.trees, x, ln)));
  }

  lemma Divided(e: real, expected: real, n: real, total: real)
    requires expected > 0.0 && n > 0.0 && e * expected * n == total
    ensures -(total / n) / expected == -e
  {
    var mean, r := total / n, -(total / n) / expected;
    ScaleBack(total, n);
    assert n * (mean - e * expected) == 0.0;
    ScaleBack(-mean, expected);
    assert expected * (r + e) == 0.0;
  }

  /** Expected path lengths score one half of 1, that is, 2 to the minus 1. */
  lemma ExpectedLengthScore(d: Detector, x: seq<real>, ln: real -> real, pow2: real -> real)
    requires Usable(d, |x|) && d.trees != [] && CFactor(d.nSamples, ln) > 0.0
    requires Sum(Lengths(d.trees, x, ln)) == CFactor(d.nSamples, ln) * |d.trees| as real
    ensures Score(d, x, ln, pow2) == pow2(-1.0)
  {
    hide Usable, CFactor, Lengths, Sum, Score;
    ScoreIsPower(d, x, 1.0, ln, pow2);
  }

  lemma NoTreesScoreHalf(d: Detector, x: seq<real>, ln: real -> real, pow2: real -> real)
    requires d.trees == [] && Usable(d, |x|)
    ensures Score(d, x, ln, pow2) == 0.5
  {}

  /** Nothing to search among one, one step among two; from three on the expectation grows with the logarithm. */
  lemma ExpectedLengths(n: int, ln: real -> real)
    ensures n <= 1 ==> CFactor(n, ln) == 0.0
    ensures CFactor(2, ln) == 1.0 && CFactor(3, ln) == 2.0 * ln(2.0) + 1.1544313298030657212 - 4.0 / 3.0
    ensures n >= 3 ==>
      (CFactor(n + 1, ln) - CFactor(n, ln) - 2.0 * (ln(n as real) - ln(n as real - 1.0))) * (n * (n + 1)) as real
        == -2.0
  {
    if n >= 3 {
      var r := n as real;
      ScaleBack(2.0 * (r - 1.0), r);
      ScaleBack(2.0 * r, r + 1.0);
      var a, b := 2.0 * (r - 1.0) / r, 2.0 * r / (r + 1.0);
      assert (n * (n + 1)) as real == r * (r + 1.0);
      assert (a - b) * (r * (r + 1.0)) == (a * r) * (r + 1.0) - (b * (r + 1.0)) * r;
      assert (a * r) * (r + 1.0) - (b * (r + 1.0)) * r == 2.0 * (r - 1.0) * (r + 1.0) - 2.0 * r * r;
      assert (n + 1) as real == r + 1.0;
    }
  }

  /** What a stored form that has little more than the threshold loads as. */
  lemma LoadDefaults(threshold: real, schema: Option<seq<string>>)
    ensures LoadJson(map["operational_threshold" := Number(threshold)], schema)
      == Ok(Detector(schema.GetOr(CANONICAL_FEATURES), threshold, 256, map[], map[], []))
    ensures forall data :: "operational_threshold" !in data ==> LoadJson(data, schema) == Err(MissingThreshold)
  {}
}

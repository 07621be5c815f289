/** A search that keeps a best point and breaks ties inside a tolerance by cost. */
module ToleranceSearch {

  const TOLERANCE := 0.0001

  datatype Cost = Finite(value: real) | Infinite

  predicate Cheaper(a: Cost, b: Cost) {
    a.Finite? && (b.Infinite? || a.value < b.value)
  }

  datatype Point<T> = Point(what: T, score: real, cost: Cost, feasible: bool)

  /** A feasible point that scores higher, or ties within the tolerance at lower cost, becomes the best. */
  predicate Replaces<T>(p: Point<T>, best: Point<T>) {
    && p.feasible
    && (p.score > best.score || (-TOLERANCE < p.score - best.score < TOLERANCE && Cheaper(p.cost, best.cost)))
  }

  function Search<T>(points: seq<Point<T>>, best: Point<T>): Point<T>
    decreases |points|
  {
    if points == [] then best else Search(points[1..], if Replaces(points[0], best) then points[0] else best)
  }

  lemma {:induction false} SearchSnoc<T>(points: seq<Point<T>>, p: Point<T>, best: Point<T>)
    ensures Search(points + [p], best) ==
      (var r := Search(points, best); if Replaces(p, r) then p else r)
    decreases |points|
  {
    hide Replaces;
    if points == [] {
      assert points + [p] == [p] && [p][1..] == [];
    } else {
      assert (points + [p])[1..] == points[1..] + [p];
      SearchSnoc(points[1..], p, if Replaces(points[0], best) then points[0] else best);
    }
  }

  /** The outcome is the start or a feasible point, and never far below what it started from. */
  lemma {:induction false} SearchKeepsScore<T>(points: seq<Point<T>>, best: Point<T>)
    ensures Search(points, best) == best || (Search(points, best) in points && Search(points, best).feasible)
    ensures Search(points, best).score >= best.score - TOLERANCE * |points| as real
    decreases |points|
  {
    if points != [] {
      var next := if Replaces(points[0], best) then points[0] else best;
      SearchKeepsScore(points[1..], next);
      assert next.score >= best.score - TOLERANCE;
    }
  }

  /** Any visited feasible point beats the outcome by at most the tolerance per point visited after it. */
  lemma {:induction false} SearchNearBest<T>(points: seq<Point<T>>, best: Point<T>, i: nat)
    requires i < |points| && points[i].feasible
    ensures points[i].score <= Search(points, best).score + TOLERANCE * (|points| - 1 - i) as real
    decreases |points|
  {
    var next := if Replaces(points[0], best) then points[0] else best;
    if i == 0 {
      SearchKeepsScore(points[1..], next);
      assert next.score >= points[0].score;
    } else {
      SearchNearBest(points[1..], next, i - 1);
    }
  }

  /** Distinct scores are at least the tolerance apart, so that only exact ties are broken by cost. */
  predicate Separated<T>(points: seq<Point<T>>, best: Point<T>) {
    && (forall i, j ::
         0 <= i < |points| && 0 <= j < |points| && -TOLERANCE < points[i].score - points[j].score < TOLERANCE ==>
         points[i].score == points[j].score)
    && forall i :: 0 <= i < |points| && -TOLERANCE < points[i].score - best.score < TOLERANCE ==>
         points[i].score == best.score
  }

  predicate NoBetter<T>(p: Point<T>, r: Point<T>) {
    p.score < r.score || (p.score == r.score && !Cheaper(p.cost, r.cost))
  }

  /** With separated scores the outcome is optimal: highest score, and lowest cost among those. */
  lemma {:induction false} SeparatedSearchIsOptimal<T>(points: seq<Point<T>>, best: Point<T>)
    requires Separated(points, best)
    ensures NoBetter(best, Search(points, best))
    ensures forall i :: 0 <= i < |points| && points[i].feasible ==> NoBetter(points[i], Search(points, best))
    decreases |points|
  {
    if points != [] {
      var next := if Replaces(points[0], best) then points[0] else best;
      SeparatedSearchIsOptimal(points[1..], next);
      forall i | 0 < i < |points| && points[i].feasible ensures NoBetter(points[i], Search(points, best)) {
        assert points[i] == points[1..][i - 1];
      }
    }
  }

  // When no visiting order loses the best score

  /** A feasible point that no feasible point outscores. */
  ghost predicate IsTop<T(!new)>(points: seq<Point<T>>, a: Point<T>) {
    a in points && a.feasible && forall p :: p in points && p.feasible ==> p.score <= a.score
  }

  /** No feasible point that scores just below the top is cheaper than every top point. */
  ghost predicate NoCheapNearMiss<T(!new)>(points: seq<Point<T>>) {
    forall a, b :: IsTop(points, a) && b in points && b.feasible && a.score - TOLERANCE < b.score < a.score ==>
      exists top :: IsTop(points, top) && !Cheaper(b.cost, top.cost)
  }

  ghost predicate EndsAtTop<T(!new)>(points: seq<Point<T>>, start: Point<T>) {
    forall p :: p in points && p.feasible ==> p.score <= Search(points, start).score
  }

  /** The start is below everything that counts, as -1 is below any rate or F1. */
  ghost predicate StartsBelow<T(!new)>(points: seq<Point<T>>, start: Point<T>) {
    forall p :: p in points && p.feasible ==> start.score < p.score
  }

  lemma {:induction false} Stays<T>(points: seq<Point<T>>, best: Point<T>)
    requires forall p :: p in points ==> !Replaces(p, best)
    ensures Search(points, best) == best
    decreases |points|
  {
    if points != [] {
      assert points[0] in points;
      Stays(points[1..], best);
    }
  }

  /** A point that is visited, is not outscored, and is undercut by nothing near it decides the outcome. */
  lemma {:induction false} Settles<T>(points: seq<Point<T>>, best: Point<T>, i: nat)
    requires i < |points| && points[i].feasible
    requires forall p :: p in points && p.feasible ==>
      p.score <= points[i].score && (p.score > points[i].score - TOLERANCE ==> !Cheaper(p.cost, points[i].cost))
    requires best.score < points[i].score || (best.score == points[i].score && !Cheaper(best.cost, points[i].cost))
    ensures Search(points, best).score == points[i].score && Search(points, best).cost == points[i].cost
    decreases |points|
  {
    assert points[0] in points;
    var next := if Replaces(points[0], best) then points[0] else best;
    if i == 0 {
      assert next.score == points[0].score && next.cost == points[0].cost;
      Stays(points[1..], next);
    } else {
      Settles(points[1..], next, i - 1);
    }
  }

  lemma {:induction false} CheapestTop<T(!new)>(points: seq<Point<T>>, some: Point<T>, n: nat) returns (top: Point<T>)
    requires IsTop(points, some) && n <= |points|
    ensures IsTop(points, top) && !Cheaper(some.cost, top.cost)
    ensures forall k :: 0 <= k < n && IsTop(points, points[k]) ==> !Cheaper(points[k].cost, top.cost)
    decreases n
  {
    hide IsTop;
    if n == 0 { return some; }
    top := CheapestTop(points, some, n - 1);
    if IsTop(points, points[n - 1]) && Cheaper(points[n - 1].cost, top.cost) { top := points[n - 1]; }
  }

  /** Under that condition the outcome has the best score and, among those, the least cost. */
  lemma SafeSearchIsOptimal<T(!new)>(points: seq<Point<T>>, start: Point<T>, i: nat)
    requires NoCheapNearMiss(points) && StartsBelow(points, start) && i < |points| && points[i].feasible
    ensures NoBetter(points[i], Search(points, start))
  {
    var some := TopExists(points, |points|, i);
    var top := CheapestTop(points, some, |points|);
    CheapestIsNotUndercut(points, top);
    var k :| 0 <= k < |points| && points[k] == top;
    hide NoCheapNearMiss;
    Settles(points, start, k);
  }

  lemma CheapestIsNotUndercut<T(!new)>(points: seq<Point<T>>, top: Point<T>)
    requires NoCheapNearMiss(points) && IsTop(points, top)
    requires forall k :: 0 <= k < |points| && IsTop(points, points[k]) ==> !Cheaper(points[k].cost, top.cost)
    ensures forall p :: p in points && p.feasible ==>
      p.score <= top.score && (p.score > top.score - TOLERANCE ==> !Cheaper(p.cost, top.cost))
  {
    forall p | p in points && p.feasible && p.score > top.score - TOLERANCE ensures !Cheaper(p.cost, top.cost) {
      if p.score == top.score {
        var j :| 0 <= j < |points| && points[j] == p;
        assert IsTop(points, points[j]);
      } else {
        var other :| IsTop(points, other) && !Cheaper(p.cost, other.cost);
        var j :| 0 <= j < |points| && points[j] == other;
        assert !Cheaper(points[j].cost, top.cost);
      }
    }
  }

  lemma {:induction false} TopExists<T(!new)>(points: seq<Point<T>>, n: nat, i: nat) returns (top: Point<T>)
    requires i < n <= |points| && points[i].feasible
    ensures top in points && top.feasible
    ensures forall k :: 0 <= k < n && points[k].feasible ==> points[k].score <= top.score
    decreases n
  {
    if exists k :: 0 <= k < n - 1 && points[k].feasible {
      var k :| 0 <= k < n - 1 && points[k].feasible;
      top := TopExists(points, n - 1, k);
      if points[n - 1].feasible && points[n - 1].score > top.score { top := points[n - 1]; }
    } else {
      top := points[i];
    }
  }

  /** A cheap near miss that is visited last leaves the search below the top. */
  lemma NearMissLast<T(!new)>(points: seq<Point<T>>, start: Point<T>, a: Point<T>, i: nat)
    requires StartsBelow(points, start) && IsTop(points, a) && i < |points| && points[i].feasible
    requires a.score - TOLERANCE < points[i].score < a.score
    requires forall top :: IsTop(points, top) ==> Cheaper(points[i].cost, top.cost)
    ensures var order := points[..i] + points[i + 1..] + [points[i]];
      multiset(order) == multiset(points) && !EndsAtTop(order, start)
  {
    var others, b := points[..i] + points[i + 1..], points[i];
    var r := Search(others, start);
    SearchKeepsScore(others, start);
    SearchSnoc(others, b, start);
    assert points == points[..i] + ([b] + points[i + 1..]);
    var order := others + [b];
    assert multiset(order) == multiset(points);
    assert a in multiset(points) && a in order;
    if r != start {
      assert r in points && r.feasible;
      if r.score == a.score { assert IsTop(points, r); }
    }
    assert Search(order, start).score < a.score;
  }

  lemma SafeOrderEndsAtTop<T(!new)>(points: seq<Point<T>>, start: Point<T>)
    requires NoCheapNearMiss(points) && StartsBelow(points, start)
    ensures EndsAtTop(points, start)
  {
    forall p | p in points && p.feasible ensures p.score <= Search(points, start).score {
      var i :| 0 <= i < |points| && points[i] == p;
      SafeSearchIsOptimal(points, start, i);
      hide NoCheapNearMiss, Search;
    }
  }

  lemma BadOrder<T(!new)>(points: seq<Point<T>>, start: Point<T>) returns (order: seq<Point<T>>)
    requires StartsBelow(points, start) && !NoCheapNearMiss(points)
    ensures multiset(order) == multiset(points) && !EndsAtTop(order, start)
  {
    hide EndsAtTop, Search;
    var a, b :| IsTop(points, a) && b in points && b.feasible && a.score - TOLERANCE < b.score < a.score
      && forall top :: IsTop(points, top) ==> Cheaper(b.cost, top.cost);
    hide IsTop, NoCheapNearMiss;
    var i :| 0 <= i < |points| && points[i] == b;
    NearMissLast(points, start, a, i);
    order := points[..i] + points[i + 1..] + [points[i]];
  }

  /** Every visiting order ends at the best feasible score if and only if no cheap point scores just below it. */
  lemma BestInEveryOrder<T(!new)>(points: seq<Point<T>>, start: Point<T>)
    requires StartsBelow(points, start)
    ensures (forall order :: multiset(order) == multiset(points) ==> EndsAtTop(order, start))
      <==> NoCheapNearMiss(points)
  {
    hide EndsAtTop, NoCheapNearMiss;
    if NoCheapNearMiss(points) {
      forall order | multiset(order) == multiset(points) ensures EndsAtTop(order, start) {
        SameMembers(order, points);
        SafeOrderEndsAtTop(order, start);
      }
    } else {
      var order := BadOrder(points, start);
    }
  }

  /** Reordering changes nothing of what the condition speaks about. */
  lemma SameMembers<T(!new)>(order: seq<Point<T>>, points: seq<Point<T>>)
    requires multiset(order) == multiset(points)
    ensures forall p :: p in order <==> p in points
    ensures NoCheapNearMiss(order) <==> NoCheapNearMiss(points)
  {
    forall p ensures p in order <==> p in points {
      assert p in multiset(order) <==> p in multiset(points);
    }
    assert forall p :: IsTop(order, p) <==> IsTop(points, p);
    hide IsTop;
  }

  // When the given visiting order does not lose the best score

  /** Feasible, below the top by less than the tolerance, and cheaper. */
  predicate Undercuts<T>(p: Point<T>, top: Point<T>) {
    p.feasible && top.score - TOLERANCE < p.score < top.score && Cheaper(p.cost, top.cost)
  }

  /** The top point `points[t]` is undercut by nothing that is visited after it. */
  ghost predicate Unthreatened<T(!new)>(points: seq<Point<T>>, t: nat)
    requires t < |points|
  {
    IsTop(points, points[t]) && forall j :: t < j < |points| ==> !Undercuts(points[j], points[t])
  }

  lemma {:induction false} SearchAppend<T>(a: seq<Point<T>>, b: seq<Point<T>>, start: Point<T>)
    ensures Search(a + b, start) == Search(b, Search(a, start))
    decreases |a|
  {
    hide Replaces;
    if a == [] {
      assert a + b == b;
    } else {
      assert (a + b)[1..] == a[1..] + b;
      SearchAppend(a[1..], b, if Replaces(a[0], start) then a[0] else start);
    }
  }

  /** A best point at the top score is kept, or exchanged for another at that score, until the end. */
  lemma {:induction false} KeepsTop<T>(points: seq<Point<T>>, best: Point<T>, cost: Cost)
    requires !Cheaper(cost, best.cost)
    requires forall p :: p in points && p.feasible ==>
      p.score <= best.score && (best.score - TOLERANCE < p.score < best.score ==> !Cheaper(p.cost, cost))
    ensures Search(points, best).score == best.score
    decreases |points|
  {
    if points != [] {
      assert points[0] in points;
      var next := if Replaces(points[0], best) then points[0] else best;
      KeepsTop(points[1..], next, cost);
    }
  }

  /** The outcome was visited at some point, or is the start, and nothing visited after it replaces it. */
  lemma {:induction false} LastReplacement<T>(points: seq<Point<T>>, start: Point<T>) returns (t: int)
    ensures -1 <= t < |points|
    ensures Search(points, start) == if t == -1 then start else points[t]
    ensures forall j :: t < j < |points| ==> !Replaces(points[j], Search(points, start))
    decreases |points|
  {
    hide Replaces;
    if points == [] { return -1; }
    var replaced := Replaces(points[0], start);
    var u := LastReplacement(points[1..], if replaced then points[0] else start);
    assert forall j :: 0 < j < |points| ==> points[j] == points[1..][j - 1];
    t := if u >= 0 then u + 1 else if replaced then 0 else -1;
  }

  lemma UnthreatenedEndsAtTop<T(!new)>(points: seq<Point<T>>, start: Point<T>, t: nat)
    requires StartsBelow(points, start) && t < |points| && Unthreatened(points, t)
    ensures EndsAtTop(points, start)
  {
    var before, after := points[..t], points[t + 1..];
    var top := points[t];
    assert points == before + ([top] + after);
    SearchAppend(before, [top] + after, start);
    var r := Search(before, start);
    SearchKeepsScore(before, start);
    assert ([top] + after)[1..] == after;
    var next := if Replaces(top, r) then top else r;
    assert r.score <= top.score && next.score == top.score && !Cheaper(top.cost, next.cost);
    forall p | p in after && p.feasible
      ensures p.score <= top.score && (top.score - TOLERANCE < p.score < top.score ==> !Cheaper(p.cost, top.cost))
    {
      var j :| 0 <= j < |after| && after[j] == p;
      assert points[t + 1 + j] == p;
    }
    KeepsTop(after, next, top.cost);
  }

  lemma EndIsUnthreatened<T(!new)>(points: seq<Point<T>>, start: Point<T>, i: nat) returns (t: nat)
    requires StartsBelow(points, start) && i < |points| && points[i].feasible && EndsAtTop(points, start)
    ensures t < |points| && Unthreatened(points, t)
  {
    var u := LastReplacement(points, start);
    SearchKeepsScore(points, start);
    var r := Search(points, start);
    assert points[i].score <= r.score && start.score < points[i].score;
    t := u;
    assert r in points && r.feasible;
  }

  /** The search ends at the best score if and only if some best point is not undercut, just below it, later on. */
  lemma BestInThisOrder<T(!new)>(points: seq<Point<T>>, start: Point<T>)
    requires StartsBelow(points, start) && exists i :: 0 <= i < |points| && points[i].feasible
    ensures EndsAtTop(points, start) <==> exists t: nat :: t < |points| && Unthreatened(points, t)
  {
    hide EndsAtTop, Unthreatened, StartsBelow;
    if EndsAtTop(points, start) {
      var i :| 0 <= i < |points| && points[i].feasible;
      var t := EndIsUnthreatened(points, start, i);
    }
    if t: nat :| t < |points| && Unthreatened(points, t) {
      UnthreatenedEndsAtTop(points, start, t);
    }
  }
}

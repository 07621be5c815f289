/** Session-level train/validation/test/OOD partitioning. */
module Splitter {
  import opened Wrappers
  import opened Names
  import opened RealSums

  datatype Session = Session(id: string, workload: Option<string>)

  datatype Assignment = Assignment(sessionId: string, split: string, groupId: string, workloadClass: string)

  datatype Ratios = Ratios(train: real, val: real, test: real)

  const OOD := "OOD_HOLDOUT"

  function UpperChar(c: char): char {
    if 'a' <= c <= 'z' then c - 'a' + 'A' else c
  }

  function Upper(s: string): string {
    seq(|s|, i requires 0 <= i < |s| => UpperChar(s[i]))
  }

  /** The workload class; an absent or empty one counts as UNKNOWN. */
  function ClassOf(s: Session): string {
    if s.workload.Some? && s.workload.value != "" then s.workload.value else "UNKNOWN"
  }

  predicate IsOod(s: Session) {
    Upper(ClassOf(s)) in {"OOD_HOLDOUT", "OOD", "UNMODELED"}
  }

  // Sizes

  function Portion(n: nat, ratio: real): real {
    n as real * ratio
  }

  /** By how many sessions the portions miss `n` because the ratios' sum is off. */
  function Shortfall(n: nat, r: Ratios): real {
    n as real * Abs(r.train + r.val + r.test - 1.0)
  }

  /** How many of `n` sessions go to train and to validation; the rest is for test. */
  function Quota(n: nat, r: Ratios): (int, int) {
    var train := Round(Portion(n, r.train));
    var val := Round(Portion(n, r.val));
    if n - train - val < 0 then (train, if n - train > 0 then n - train else 0) else (train, val)
  }

  /** A slice bound as Python clips it. */
  function Bound(i: int, n: nat): (b: nat)
    ensures b <= n
  {
    if i < 0 then 0 else if i > n then n else i
  }

  function TrainSize(n: nat, r: Ratios): (k: nat)
    ensures k <= n
  {
    Bound(Quota(n, r).0, n)
  }

  function TrainValSize(n: nat, r: Ratios): (k: nat)
    ensures k <= n
  {
    Bound(Quota(n, r).0 + Quota(n, r).1, n)
  }

  datatype RatioError = SumIsNotOne | NegativeRatio

  /** Ratios as a splitter takes them: first their sum is looked at, then their signs. */
  function TakeRatios(r: Ratios): (taken: Result<Ratios, RatioError>)
    ensures taken.Ok? ==> taken.value == r
    ensures taken == Err(SumIsNotOne) <==> Abs(r.train + r.val + r.test - 1.0) * 100000.0 > 1.0
    ensures taken == Err(NegativeRatio)
      <==> taken != Err(SumIsNotOne) && !(r.train >= 0.0 && r.val >= 0.0 && r.test >= 0.0)
  {
    if Abs(r.train + r.val + r.test - 1.0) > 0.00001 then Err(SumIsNotOne)
    else if r.train < 0.0 || r.val < 0.0 || r.test < 0.0 then Err(NegativeRatio)
    else Ok(r)
  }

  lemma TakenRatiosAreValid(r: Ratios)
    ensures ValidRatios(r) <==> TakeRatios(r) == Ok(r)
  {}

  /** The ratios a splitter accepts: none negative. Their sum is checked against 1 with a tolerance. */
  predicate ValidRatios(r: Ratios) {
    r.train >= 0.0 && r.val >= 0.0 && r.test >= 0.0 && -0.00001 <= r.train + r.val + r.test - 1.0 <= 0.00001
  }

  /** The three sizes as shares `a`, `b`, `c` of `n`, up to `slack` by which the shares miss `n`. */
  lemma SharesToSizes(n: nat, train: int, val: int, a: real, b: real, c: real, slack: real)
    requires a >= 0.0 && b >= 0.0 && c >= 0.0 && Abs(a + b + c - n as real) <= slack
    requires -0.5 <= train as real - a <= 0.5 && -0.5 <= val as real - b <= 0.5 && train >= 0 && val >= 0
    ensures var v := if n - train - val < 0 then (if n - train > 0 then n - train else 0) else val;
      var k, m := Bound(train, n), Bound(train + v, n);
      && k <= m <= n
      && Abs(k as real - a) <= 0.5 + slack
      && Abs((m - k) as real - b) <= 0.5 + slack
      && Abs((n - m) as real - c) <= 1.0 + slack
  {}

  /** Every class's split sizes are within one session of the ratios' portions, plus what their sum is off by. */
  lemma SizesNearPortions(n: nat, r: Ratios)
    requires ValidRatios(r)
    ensures var k, m := TrainSize(n, r), TrainValSize(n, r);
      && k <= m <= n
      && Abs(k as real - Portion(n, r.train)) <= 0.5 + Shortfall(n, r)
      && Abs((m - k) as real - Portion(n, r.val)) <= 0.5 + Shortfall(n, r)
      && Abs((n - m) as real - Portion(n, r.test)) <= 1.0 + Shortfall(n, r)
      && (r.train + r.val + r.test == 1.0 ==> Shortfall(n, r) == 0.0)
  {
    hide Portion, Shortfall;
    PortionsAddUp(n, r);
    RoundIsNear(Portion(n, r.train));
    RoundIsNear(Portion(n, r.val));
    SharesToSizes(n, Round(Portion(n, r.train)), Round(Portion(n, r.val)),
                  Portion(n, r.train), Portion(n, r.val), Portion(n, r.test), Shortfall(n, r));
  }

  lemma PortionsAddUp(n: nat, r: Ratios)
    requires ValidRatios(r)
    ensures Portion(n, r.train) >= 0.0 && Portion(n, r.val) >= 0.0 && Portion(n, r.test) >= 0.0
    ensures Abs(Portion(n, r.train) + Portion(n, r.val) + Portion(n, r.test) - n as real) <= Shortfall(n, r)
    ensures r.train + r.val + r.test == 1.0 ==> Shortfall(n, r) == 0.0
  {
    var x, e := n as real, r.train + r.val + r.test - 1.0;
    assert x * e == x * r.train + x * r.val + x * r.test - x;
    assert e >= 0.0 ==> x * e >= 0.0;
    assert e < 0.0 ==> x * e <= 0.0 && x * (-e) == -(x * e);
  }

  // Buckets and assignments

  function Bucket(sessions: seq<Session>, c: string): seq<Session> {
    if sessions == [] then []
    else (if !IsOod(sessions[0]) && ClassOf(sessions[0]) == c then [sessions[0]] else []) + Bucket(sessions[1..], c)
  }

  function OodOf(sessions: seq<Session>): seq<Session> {
    if sessions == [] then [] else (if IsOod(sessions[0]) then [sessions[0]] else []) + OodOf(sessions[1..])
  }

  function Classes(sessions: seq<Session>): set<string> {
    set i | 0 <= i < |sessions| && !IsOod(sessions[i]) :: ClassOf(sessions[i])
  }

  function AssignAll(sessions: seq<Session>, split: string, prefix: string, c: string): (r: seq<Assignment>)
    ensures |r| == |sessions|
  {
    seq(|sessions|, i requires 0 <= i < |sessions| =>
      Assignment(sessions[i].id, split, prefix + sessions[i].id, c))
  }

  /** A shuffle may depend on the class name but only rearranges. */
  type Shuffle = (string, seq<Session>) -> seq<Session>

  ghost predicate Rearranges(shuffle: Shuffle) {
    forall c, s :: multiset(shuffle(c, s)) == multiset(s)
  }

  lemma SameLength(shuffle: Shuffle, c: string, s: seq<Session>)
    requires Rearranges(shuffle)
    ensures |shuffle(c, s)| == |s|
  {
    assert |multiset(shuffle(c, s))| == |multiset(s)|;
  }

  /** One class: the shuffled bucket cut into train, validation and test. */
  function ClassPart(bucket: seq<Session>, c: string, r: Ratios): seq<Assignment> {
    var k, m := TrainSize(|bucket|, r), TrainValSize(|bucket|, r);
    AssignAll(bucket[..k], "TRAIN", "group_", c)
    + AssignAll(bucket[k..if k < m then m else k], "VALIDATION", "group_", c)
    + AssignAll(bucket[if k < m then m else k..], "TEST", "group_", c)
  }

  /** A class keeps its shuffled order; the three splits are consecutive and sized near the ratios' portions. */
  lemma ClassIsSplitByRatios(bucket: seq<Session>, c: string, r: Ratios)
    requires ValidRatios(r)
    ensures var n, part := |bucket|, ClassPart(bucket, c, r);
      var k, m := TrainSize(n, r), TrainValSize(n, r);
      && |part| == n
      && (forall i :: 0 <= i < n ==>
           && part[i].sessionId == bucket[i].id && part[i].workloadClass == c
           && part[i].groupId == "group_" + bucket[i].id
           && part[i].split == if i < k then "TRAIN" else if i < m then "VALIDATION" else "TEST")
      && Abs(k as real - Portion(n, r.train)) <= 0.5 + Shortfall(n, r)
      && Abs((m - k) as real - Portion(n, r.val)) <= 0.5 + Shortfall(n, r)
      && Abs((n - m) as real - Portion(n, r.test)) <= 1.0 + Shortfall(n, r)
  {
    SizesNearPortions(|bucket|, r);
    var k, m := TrainSize(|bucket|, r), TrainValSize(|bucket|, r);
    hide Quota, TrainSize, TrainValSize, Portion, Shortfall, Abs;
    var train := AssignAll(bucket[..k], "TRAIN", "group_", c);
    var val := AssignAll(bucket[k..m], "VALIDATION", "group_", c);
    var test := AssignAll(bucket[m..], "TEST", "group_", c);
    forall i | 0 <= i < |bucket|
      ensures var a := (train + val + test)[i];
        && a.sessionId == bucket[i].id && a.workloadClass == c && a.groupId == "group_" + bucket[i].id
        && a.split == if i < k then "TRAIN" else if i < m then "VALIDATION" else "TEST"
    {
      PartAt(train, val, test, i);
    }
  }

  lemma PartAt(a: seq<Assignment>, b: seq<Assignment>, c: seq<Assignment>, i: nat)
    requires i < |a| + |b| + |c|
    ensures (a + b + c)[i] == if i < |a| then a[i] else if i < |a| + |b| then b[i - |a|] else c[i - |a| - |b|]
  {}

  function ClassParts(sessions: seq<Session>, names: seq<string>, r: Ratios, shuffle: Shuffle): seq<Assignment> {
    if names == [] then []
    else
      ClassPart(shuffle(names[0], Bucket(sessions, names[0])), names[0], r)
      + ClassParts(sessions, names[1..], r, shuffle)
  }

  ghost function Assigned(sessions: seq<Session>, r: Ratios, shuffle: Shuffle): seq<Assignment> {
    AssignAll(OodOf(sessions), OOD, "group_ood_", OOD) + ClassParts(sessions, Sorted(Classes(sessions)), r, shuffle)
  }

  lemma {:induction false} BucketAppend(a: seq<Session>, s: Session, c: string)
    ensures Bucket(a + [s], c) == Bucket(a, c) + (if !IsOod(s) && ClassOf(s) == c then [s] else [])
    ensures OodOf(a + [s]) == OodOf(a) + (if IsOod(s) then [s] else [])
  {
    hide IsOod, ClassOf;
    if a == [] {
      assert a + [s] == [s] && [s][1..] == [];
    } else {
      assert (a + [s])[1..] == a[1..] + [s];
      BucketAppend(a[1..], s, c);
    }
  }

  lemma {:induction false} EmptyBucket(a: seq<Session>, c: string)
    requires c !in Classes(a)
    ensures Bucket(a, c) == []
  {
    hide IsOod, ClassOf;
    if a != [] {
      assert Classes(a[1..]) <= Classes(a);
      EmptyBucket(a[1..], c);
    }
  }

  lemma ClassesAppend(a: seq<Session>, s: Session)
    ensures Classes(a + [s]) == Classes(a) + (if IsOod(s) then {} else {ClassOf(s)})
  {
    hide IsOod, ClassOf;
    var b := a + [s];
    assert forall i :: 0 <= i < |a| ==> b[i] == a[i];
    assert b[|a|] == s;
  }

  method BuildBuckets(sessions: seq<Session>) returns (buckets: map<string, seq<Session>>, ood: seq<Session>)
    ensures buckets.Keys == Classes(sessions)
    ensures forall c :: c in buckets ==> buckets[c] == Bucket(sessions, c)
    ensures ood == OodOf(sessions)
  {
    hide IsOod, ClassOf, Classes;
    buckets, ood := map[], [];
    assert Classes([]) == {} by { NoClasses(); }
    for i := 0 to |sessions|
      invariant buckets.Keys == Classes(sessions[..i])
      invariant forall c :: c in buckets ==> buckets[c] == Bucket(sessions[..i], c)
      invariant ood == OodOf(sessions[..i])
    {
      var s := sessions[i];
      assert sessions[..i + 1] == sessions[..i] + [s];
      ClassesAppend(sessions[..i], s);
      forall c
        ensures Bucket(sessions[..i + 1], c)
             == Bucket(sessions[..i], c) + (if !IsOod(s) && ClassOf(s) == c then [s] else [])
        ensures OodOf(sessions[..i + 1]) == OodOf(sessions[..i]) + (if IsOod(s) then [s] else [])
      {
        BucketAppend(sessions[..i], s, c);
      }
      BucketAppend(sessions[..i], s, "");
      if IsOod(s) {
        ood := ood + [s];
      } else {
        var c := ClassOf(s);
        if c !in buckets { EmptyBucket(sessions[..i], c); }
        buckets := buckets[c := (if c in buckets then buckets[c] else []) + [s]];
      }
    }
    assert sessions[..|sessions|] == sessions;
  }

  lemma NoClasses()
    ensures Classes([]) == {}
  {}

  /** The loop that files sessions under one split. */
  method AssignTo(sessions: seq<Session>, split: string, prefix: string, c: string) returns (r: seq<Assignment>)
    ensures r == AssignAll(sessions, split, prefix, c)
  {
    r := [];
    for i := 0 to |sessions|
      invariant r == AssignAll(sessions[..i], split, prefix, c)
    {
      r := r + [Assignment(sessions[i].id, split, prefix + sessions[i].id, c)];
    }
    assert sessions[..|sessions|] == sessions;
  }

  method PartitionClass(bucket: seq<Session>, c: string, r: Ratios) returns (part: seq<Assignment>)
    ensures part == ClassPart(bucket, c, r)
  {
    hide Quota, AssignAll;
    var n := |bucket|;
    var quota := Quota(n, r);
    var k, m := Bound(quota.0, n), Bound(quota.0 + quota.1, n);
    var cut := if k < m then m else k;
    var train := AssignTo(bucket[..k], "TRAIN", "group_", c);
    var val := AssignTo(bucket[k..cut], "VALIDATION", "group_", c);
    var test := AssignTo(bucket[cut..], "TEST", "group_", c);
    part := train + val + test;
  }

  lemma ClassPartsStep(sessions: seq<Session>, names: seq<string>, i: nat, r: Ratios, shuffle: Shuffle)
    requires i < |names|
    ensures ClassParts(sessions, names[i..], r, shuffle)
         == ClassPart(shuffle(names[i], Bucket(sessions, names[i])), names[i], r)
            + ClassParts(sessions, names[i + 1..], r, shuffle)
  {
    assert names[i..][1..] == names[i + 1..];
  }

  method Partition(sessions: seq<Session>, r: Ratios, shuffle: Shuffle) returns (assignments: seq<Assignment>)
    ensures assignments == Assigned(sessions, r, shuffle)
  {
    hide Bucket, OodOf, Classes, ClassPart, AssignAll, Sorted;
    var buckets, ood := BuildBuckets(sessions);
    assignments := AssignTo(ood, OOD, "group_ood_", OOD);
    var names := Sort(buckets.Keys);
    ghost var before := assignments;
    SortedMeaning(buckets.Keys);
    assert names[0..] == names;
    for i := 0 to |names|
      invariant assignments + ClassParts(sessions, names[i..], r, shuffle)
        == before + ClassParts(sessions, names, r, shuffle)
    {
      var c := names[i];
      assert c in names;
      ClassPartsStep(sessions, names, i, r, shuffle);
      var part := PartitionClass(shuffle(c, buckets[c]), c, r);
      assignments := assignments + part;
    }
  }

  /** Equal up to the case of ASCII letters; `word` is in upper case. */
  predicate Spells(s: string, word: string) {
    |s| == |word| && forall i :: 0 <= i < |s| ==> s[i] == word[i] || ('a' <= s[i] <= 'z' && s[i] - 'a' + 'A' == word[i])
  }

  predicate IsUpper(word: string) {
    forall i :: 0 <= i < |word| ==> !('a' <= word[i] <= 'z')
  }

  predicate SpellsOod(c: string) {
    Spells(c, "OOD_HOLDOUT") || Spells(c, "OOD") || Spells(c, "UNMODELED")
  }

  lemma UpperSpells(s: string, word: string)
    requires IsUpper(word)
    ensures Upper(s) == word <==> Spells(s, word)
  {}

  /** Which sessions are held out: those whose class is one of three words, in any case; no class counts as UNKNOWN. */
  lemma OodWords(s: Session)
    ensures IsOod(s) <==> s.workload.Some? && SpellsOod(s.workload.value)
    ensures s.workload == None || s.workload == Some("") ==> ClassOf(s) == "UNKNOWN"
    ensures s.workload.Some? && s.workload.value != "" ==> ClassOf(s) == s.workload.value
  {
    UpperSpells(ClassOf(s), "OOD_HOLDOUT");
    UpperSpells(ClassOf(s), "OOD");
    UpperSpells(ClassOf(s), "UNMODELED");
    hide Upper;
  }

  /** The sizes are the rounded portions while they fit; once they do not, nothing is left for test. */
  lemma SizesAreRounded(n: nat, r: Ratios)
    requires ValidRatios(r)
    ensures var train, val := Round(Portion(n, r.train)), Round(Portion(n, r.val));
      && 0 <= train && 0 <= val
      && (train + val <= n ==> TrainSize(n, r) == train && TrainValSize(n, r) == train + val)
      && (train + val > n ==> TrainSize(n, r) == (if train < n then train else n) && TrainValSize(n, r) == n)
  {
    PortionsAddUp(n, r);
    RoundIsNear(Portion(n, r.train));
    RoundIsNear(Portion(n, r.val));
    hide Round, Portion, ValidRatios, Shortfall;
  }
}

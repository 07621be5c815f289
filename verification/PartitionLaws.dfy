/** What a partition conserves, where it sends each session, and why the audit finds it clean. */
module PartitionLaws {
  import opened RealSums
  import opened Names
  import opened Splitter
  import opened LeakageAudit

  // Ids

  function Ids(assignments: seq<Assignment>): (r: seq<string>)
    ensures |r| == |assignments|
  {
    seq(|assignments|, i requires 0 <= i < |assignments| => assignments[i].sessionId)
  }

  function SessionIds(sessions: seq<Session>): (r: seq<string>)
    ensures |r| == |sessions|
  {
    seq(|sessions|, i requires 0 <= i < |sessions| => sessions[i].id)
  }

  lemma {:induction false} SameSessionsSameIds(a: seq<Session>, b: seq<Session>)
    requires multiset(a) == multiset(b)
    ensures multiset(SessionIds(a)) == multiset(SessionIds(b))
    decreases |a|
  {
    if a == [] {
      assert |multiset(b)| == 0;
    } else {
      var i := FindFirst(a, b);
      SameSessionsSameIds(a[1..], b[..i] + b[i + 1..]);
      SessionIdsWithout(b, i);
      assert SessionIds(a)[1..] == SessionIds(a[1..]) && SessionIds(a)[0] == a[0].id;
      hide SessionIds;
      PutBack(SessionIds(a), SessionIds(b), i);
    }
  }

  lemma PutBack(a: seq<string>, b: seq<string>, i: nat)
    requires a != [] && i < |b| && a[0] == b[i]
    requires multiset(a[1..]) == multiset(b[..i] + b[i + 1..])
    ensures multiset(a) == multiset(b)
  {
    assert a == [a[0]] + a[1..];
    assert b == b[..i] + ([b[i]] + b[i + 1..]);
  }

  lemma FindFirst(a: seq<Session>, b: seq<Session>) returns (i: nat)
    requires a != [] && multiset(a) == multiset(b)
    ensures i < |b| && b[i] == a[0] && multiset(a[1..]) == multiset(b[..i] + b[i + 1..])
  {
    assert a[0] in multiset(b);
    i :| 0 <= i < |b| && b[i] == a[0];
    assert a == [a[0]] + a[1..];
    assert multiset(a[1..]) == multiset(a) - multiset{a[0]};
    WithoutOne(b, i);
  }

  lemma WithoutOne(b: seq<Session>, i: nat)
    requires i < |b|
    ensures multiset(b[..i] + b[i + 1..]) == multiset(b) - multiset{b[i]}
  {
    assert b == b[..i] + ([b[i]] + b[i + 1..]);
  }

  lemma SessionIdsWithout(s: seq<Session>, i: nat)
    requires i < |s|
    ensures SessionIds(s[..i] + s[i + 1..]) == SessionIds(s)[..i] + SessionIds(s)[i + 1..]
    ensures SessionIds(s)[i] == s[i].id
  {}

  lemma IdsOfAll(s: seq<Session>, split: string, prefix: string, c: string)
    ensures Ids(AssignAll(s, split, prefix, c)) == SessionIds(s)
  {}

  lemma IdsAppend(a: seq<Assignment>, b: seq<Assignment>)
    ensures Ids(a + b) == Ids(a) + Ids(b)
  {}

  lemma ClassPartIds(bucket: seq<Session>, c: string, r: Ratios)
    ensures Ids(ClassPart(bucket, c, r)) == SessionIds(bucket)
  {
    var k, m := TrainSize(|bucket|, r), TrainValSize(|bucket|, r);
    var cut := if k < m then m else k;
    assert bucket == bucket[..k] + bucket[k..cut] + bucket[cut..];
    SessionIdsAppend(bucket[..k], bucket[k..cut]);
    SessionIdsAppend(bucket[..k] + bucket[k..cut], bucket[cut..]);
    hide TrainSize, TrainValSize, AssignAll, Ids, SessionIds;
    var train := AssignAll(bucket[..k], "TRAIN", "group_", c);
    var val := AssignAll(bucket[k..cut], "VALIDATION", "group_", c);
    var test := AssignAll(bucket[cut..], "TEST", "group_", c);
    IdsOfAll(bucket[..k], "TRAIN", "group_", c);
    IdsOfAll(bucket[k..cut], "VALIDATION", "group_", c);
    IdsOfAll(bucket[cut..], "TEST", "group_", c);
    IdsAppend(train, val);
    IdsAppend(train + val, test);
  }

  /** The supervised sessions of the given classes, in input order. */
  function InClasses(sessions: seq<Session>, names: set<string>): seq<Session> {
    if sessions == [] then []
    else
      (if !IsOod(sessions[0]) && ClassOf(sessions[0]) in names then [sessions[0]] else [])
      + InClasses(sessions[1..], names)
  }

  lemma {:induction false} TakeClass(sessions: seq<Session>, c: string, names: set<string>)
    requires c !in names
    ensures multiset(InClasses(sessions, names + {c}))
      == multiset(Bucket(sessions, c)) + multiset(InClasses(sessions, names))
    decreases |sessions|
  {
    hide IsOod, ClassOf;
    if sessions != [] { TakeClass(sessions[1..], c, names); }
  }

  function SetOf(names: seq<string>): set<string> {
    set i | 0 <= i < |names| :: names[i]
  }

  lemma {:induction false} ClassPartsIds(sessions: seq<Session>, names: seq<string>, r: Ratios, shuffle: Shuffle)
    requires Rearranges(shuffle) && forall i, j :: 0 <= i < j < |names| ==> names[i] != names[j]
    ensures multiset(Ids(ClassParts(sessions, names, r, shuffle)))
      == multiset(SessionIds(InClasses(sessions, SetOf(names))))
    decreases |names|
  {
    hide ClassPart, Bucket, Ids, SessionIds;
    if names == [] {
      assert SetOf(names) == {};
      NoneInClasses(sessions);
    } else {
      var c, bucket, rest := names[0], Bucket(sessions, names[0]), SetOf(names[1..]);
      var tail := ClassParts(sessions, names[1..], r, shuffle);
      ClassPartsIds(sessions, names[1..], r, shuffle);
      ClassPartIds(shuffle(c, bucket), c, r);
      SameSessionsSameIds(shuffle(c, bucket), bucket);
      IdsAppend(ClassPart(shuffle(c, bucket), c, r), tail);
      assert SetOf(names) == rest + {c} by { SetOfCons(names); }
      assert c !in rest;
      TakeClass(sessions, c, rest);
      SameSessionsSameIds(InClasses(sessions, rest + {c}), bucket + InClasses(sessions, rest));
      SessionIdsAppend(bucket, InClasses(sessions, rest));
    }
  }

  lemma SetOfCons(names: seq<string>)
    requires names != []
    ensures SetOf(names) == SetOf(names[1..]) + {names[0]}
  {
    forall x ensures x in SetOf(names) <==> x in SetOf(names[1..]) + {names[0]} {
      if x in SetOf(names) {
        var i :| 0 <= i < |names| && names[i] == x;
        if i > 0 { assert names[1..][i - 1] == x; }
      }
    }
  }

  lemma SessionIdsAppend(a: seq<Session>, b: seq<Session>)
    ensures SessionIds(a + b) == SessionIds(a) + SessionIds(b)
  {}

  lemma {:induction false} NoneInClasses(sessions: seq<Session>)
    ensures InClasses(sessions, {}) == [] && SessionIds([]) == [] && Ids([]) == []
    decreases |sessions|
  {
    if sessions != [] { NoneInClasses(sessions[1..]); }
  }

  lemma {:induction false} OodOrClass(sessions: seq<Session>, names: set<string>)
    requires Classes(sessions) <= names
    ensures multiset(OodOf(sessions)) + multiset(InClasses(sessions, names)) == multiset(sessions)
    decreases |sessions|
  {
    hide IsOod, ClassOf;
    if sessions != [] {
      var s, rest := sessions[0], sessions[1..];
      assert sessions == [s] + rest;
      assert Classes(rest) <= Classes(sessions);
      assert !IsOod(s) ==> ClassOf(s) in Classes(sessions);
      OodOrClass(rest, names);
    }
  }

  /** Every input session is assigned exactly once. */
  lemma PartitionConserves(sessions: seq<Session>, r: Ratios, shuffle: Shuffle)
    requires Rearranges(shuffle)
    ensures multiset(Ids(Assigned(sessions, r, shuffle))) == multiset(SessionIds(sessions))
  {
    hide ClassParts, OodOf, InClasses, AssignAll, Ids, SessionIds;
    var classes := Classes(sessions);
    var names := Sorted(classes);
    SortedMeaning(classes);
    assert SetOf(names) == classes;
    hide Classes, Sorted;
    var ood := OodOf(sessions);
    var supervised := InClasses(sessions, classes);
    ClassPartsIds(sessions, names, r, shuffle);
    IdsOfAll(ood, OOD, "group_ood_", OOD);
    IdsAppend(AssignAll(ood, OOD, "group_ood_", OOD), ClassParts(sessions, names, r, shuffle));
    OodOrClass(sessions, classes);
    SameSessionsSameIds(ood + supervised, sessions);
    SessionIdsAppend(ood, supervised);
  }

  lemma {:induction false} ClassPartsSplits(sessions: seq<Session>, names: seq<string>, r: Ratios, shuffle: Shuffle)
    requires Rearranges(shuffle)
    ensures forall a :: a in ClassParts(sessions, names, r, shuffle) ==>
      && a.split in {"TRAIN", "VALIDATION", "TEST"}
      && exists s :: s in sessions && !IsOod(s) && s.id == a.sessionId && ClassOf(s) == a.workloadClass
    decreases |names|
  {
    if names != [] {
      var c, bucket := names[0], Bucket(sessions, names[0]);
      var shuffled := shuffle(c, bucket);
      forall a | a in ClassPart(shuffled, c, r)
        ensures a.split in {"TRAIN", "VALIDATION", "TEST"} && a.workloadClass == c
        ensures exists s :: s in sessions && !IsOod(s) && s.id == a.sessionId && ClassOf(s) == c
      {
        var s := PartFromBucket(shuffled, c, r, a);
        assert s in multiset(bucket);
        BucketMembers(sessions, c, s);
      }
      ClassPartsSplits(sessions, names[1..], r, shuffle);
    }
  }

  lemma PartFromBucket(bucket: seq<Session>, c: string, r: Ratios, a: Assignment) returns (s: Session)
    requires a in ClassPart(bucket, c, r)
    ensures a.split in {"TRAIN", "VALIDATION", "TEST"} && a.workloadClass == c
    ensures s in bucket && s.id == a.sessionId
  {
    ClassPartIds(bucket, c, r);
    hide TrainSize, TrainValSize;
    var part := ClassPart(bucket, c, r);
    var i :| 0 <= i < |part| && part[i] == a;
    assert Ids(part)[i] == SessionIds(bucket)[i];
    s := bucket[i];
  }

  lemma {:induction false} BucketMembers(sessions: seq<Session>, c: string, s: Session)
    requires s in Bucket(sessions, c)
    ensures s in sessions && !IsOod(s) && ClassOf(s) == c
    decreases |sessions|
  {
    hide IsOod, ClassOf;
    if sessions != [] && s in Bucket(sessions[1..], c) { BucketMembers(sessions[1..], c, s); }
  }

  lemma {:induction false} OodMembers(sessions: seq<Session>, s: Session)
    requires s in OodOf(sessions)
    ensures s in sessions && IsOod(s)
    decreases |sessions|
  {
    hide IsOod;
    if sessions != [] && s in OodOf(sessions[1..]) { OodMembers(sessions[1..], s); }
  }

  predicate PlacedRight(s: Session, a: Assignment) {
    && (IsOod(s) <==> a.split == OOD)
    && (!IsOod(s) ==> a.split in {"TRAIN", "VALIDATION", "TEST"} && a.workloadClass == ClassOf(s))
  }

  /** OOD sessions go to the holdout and nowhere else; the others keep their class and never go there. */
  lemma OodIsQuarantined(sessions: seq<Session>, r: Ratios, shuffle: Shuffle, a: Assignment)
    requires Rearranges(shuffle) && a in Assigned(sessions, r, shuffle)
    ensures exists s :: s in sessions && s.id == a.sessionId && PlacedRight(s, a)
  {
    ClassPartsSplits(sessions, Sorted(Classes(sessions)), r, shuffle);
    hide ClassParts, IsOod, ClassOf;
    var ood := OodOf(sessions);
    var held := AssignAll(ood, OOD, "group_ood_", OOD);
    if a in held {
      var i :| 0 <= i < |held| && held[i] == a;
      OodMembers(sessions, ood[i]);
    }
  }

  // What each split and each class receives

  function Select(a: seq<Assignment>, keep: Assignment -> bool): seq<Assignment> {
    if a == [] then [] else (if keep(a[0]) then [a[0]] else []) + Select(a[1..], keep)
  }

  function InSplit(a: seq<Assignment>, split: string): seq<Assignment> {
    Select(a, (x: Assignment) => x.split == split)
  }

  function InClass(a: seq<Assignment>, c: string): seq<Assignment> {
    Select(a, (x: Assignment) => x.workloadClass == c)
  }

  lemma SelectStep(a: seq<Assignment>, keep: Assignment -> bool)
    requires a != []
    ensures Select(a, keep) == (if keep(a[0]) then [a[0]] else []) + Select(a[1..], keep)
  {}

  lemma {:induction false} SelectAppend(a: seq<Assignment>, b: seq<Assignment>, keep: Assignment -> bool)
    ensures Select(a + b, keep) == Select(a, keep) + Select(b, keep)
    decreases |a|
  {
    if a == [] {
      assert a + b == b;
    } else {
      var first := if keep(a[0]) then [a[0]] else [];
      assert (a + b)[0] == a[0] && (a + b)[1..] == a[1..] + b;
      SelectAppend(a[1..], b, keep);
      SelectStep(a, keep);
      SelectStep(a + b, keep);
      hide Select;
      assert Select(a + b, keep) == first + (Select(a[1..], keep) + Select(b, keep));
    }
  }

  lemma {:induction false} SelectAll(a: seq<Assignment>, keep: Assignment -> bool)
    requires forall i :: 0 <= i < |a| ==> keep(a[i])
    ensures Select(a, keep) == a
  {
    if a != [] {
      SelectAll(a[1..], keep);
      assert a == [a[0]] + a[1..];
    }
  }

  lemma {:induction false} SelectNone(a: seq<Assignment>, keep: Assignment -> bool)
    requires forall i :: 0 <= i < |a| ==> !keep(a[i])
    ensures Select(a, keep) == []
  {
    if a != [] { SelectNone(a[1..], keep); }
  }

  lemma SplitAppend(a: seq<Assignment>, b: seq<Assignment>, x: string)
    ensures InSplit(a + b, x) == InSplit(a, x) + InSplit(b, x)
    ensures InClass(a + b, x) == InClass(a, x) + InClass(b, x)
  {
    hide Select;
    SelectAppend(a, b, (y: Assignment) => y.split == x);
    SelectAppend(a, b, (y: Assignment) => y.workloadClass == x);
  }

  predicate Uniform(a: seq<Assignment>, split: string, c: string) {
    forall i :: 0 <= i < |a| ==> a[i].split == split && a[i].workloadClass == c
  }

  lemma UniformSelects(a: seq<Assignment>, split: string, c: string, x: string)
    requires Uniform(a, split, c)
    ensures InSplit(a, x) == if x == split then a else []
    ensures InClass(a, x) == if x == c then a else []
  {
    hide Select;
    var bySplit, byClass := (y: Assignment) => y.split == x, (y: Assignment) => y.workloadClass == x;
    if x == split { SelectAll(a, bySplit); } else { SelectNone(a, bySplit); }
    if x == c { SelectAll(a, byClass); } else { SelectNone(a, byClass); }
  }

  lemma AssignAllIsUniform(s: seq<Session>, split: string, prefix: string, c: string)
    ensures Uniform(AssignAll(s, split, prefix, c), split, c)
  {}

  /** The three stretches of a class and what each split and class finds in them. */
  lemma ClassPartSelects(bucket: seq<Session>, c: string, r: Ratios, x: string)
    ensures var n, part := |bucket|, ClassPart(bucket, c, r);
      && InClass(part, x) == (if x == c then part else [])
      && InSplit(part, OOD) == []
      && (ValidRatios(r) ==>
           && |InSplit(part, "TRAIN")| == TrainSize(n, r)
           && |InSplit(part, "VALIDATION")| == TrainValSize(n, r) - TrainSize(n, r)
           && |InSplit(part, "TEST")| == n - TrainValSize(n, r))
  {
    var k, m := TrainSize(|bucket|, r), TrainValSize(|bucket|, r);
    var cut := if k < m then m else k;
    assert ValidRatios(r) ==> cut == m by { if ValidRatios(r) { SizesNearPortions(|bucket|, r); } }
    hide TrainSize, TrainValSize, ValidRatios;
    var train := AssignAll(bucket[..k], "TRAIN", "group_", c);
    var val := AssignAll(bucket[k..cut], "VALIDATION", "group_", c);
    var test := AssignAll(bucket[cut..], "TEST", "group_", c);
    assert ClassPart(bucket, c, r) == train + val + test;
    AssignAllIsUniform(bucket[..k], "TRAIN", "group_", c);
    AssignAllIsUniform(bucket[k..cut], "VALIDATION", "group_", c);
    AssignAllIsUniform(bucket[cut..], "TEST", "group_", c);
    hide AssignAll, ClassPart, InSplit, InClass, Uniform;
    ThreeSelect(train, val, test, c, x);
    ThreeSelect(train, val, test, c, "TRAIN");
    ThreeSelect(train, val, test, c, "VALIDATION");
    ThreeSelect(train, val, test, c, "TEST");
    ThreeSelect(train, val, test, c, OOD);
  }

  lemma ThreeSelect(train: seq<Assignment>, val: seq<Assignment>, test: seq<Assignment>, c: string, x: string)
    requires Uniform(train, "TRAIN", c) && Uniform(val, "VALIDATION", c) && Uniform(test, "TEST", c)
    ensures InClass(train + val + test, x) == if x == c then train + val + test else []
    ensures InSplit(train + val + test, x)
         == if x == "TRAIN" then train else if x == "VALIDATION" then val else if x == "TEST" then test else []
  {
    hide InSplit, InClass, Uniform;
    SplitAppend(train + val, test, x);
    SplitAppend(train, val, x);
    UniformSelects(train, "TRAIN", c, x);
    UniformSelects(val, "VALIDATION", c, x);
    UniformSelects(test, "TEST", c, x);
  }

  lemma {:induction false} ClassPartsOfClass(
      sessions: seq<Session>, names: seq<string>, r: Ratios, shuffle: Shuffle, c: string)
    requires forall i, j :: 0 <= i < j < |names| ==> names[i] != names[j]
    ensures InClass(ClassParts(sessions, names, r, shuffle), c)
         == if c in names then ClassPart(shuffle(c, Bucket(sessions, c)), c, r) else []
    ensures InSplit(ClassParts(sessions, names, r, shuffle), OOD) == []
    decreases |names|
  {
    hide ClassPart, Bucket;
    if names != [] {
      var rest := ClassParts(sessions, names[1..], r, shuffle);
      var part := ClassPart(shuffle(names[0], Bucket(sessions, names[0])), names[0], r);
      ClassPartSelects(shuffle(names[0], Bucket(sessions, names[0])), names[0], r, c);
      ClassPartsOfClass(sessions, names[1..], r, shuffle, c);
      hide InSplit, InClass;
      SplitAppend(part, rest, c);
      SplitAppend(part, rest, OOD);
      if names[0] == c { assert forall i :: 0 < i < |names| ==> names[i] != c; }
    }
  }

  lemma OodIsNoClass(sessions: seq<Session>)
    ensures OOD !in Classes(sessions)
  {
    assert Upper(OOD) == OOD;
  }

  /**
   * The output class by class: a supervised class gets its part and nothing else; the holdout gets the OOD sessions.
   */
  lemma OutputByClass(sessions: seq<Session>, r: Ratios, shuffle: Shuffle, c: string)
    requires Rearranges(shuffle)
    ensures InSplit(Assigned(sessions, r, shuffle), OOD) == AssignAll(OodOf(sessions), OOD, "group_ood_", OOD)
    ensures c != OOD ==>
      InClass(Assigned(sessions, r, shuffle), c) == ClassPart(shuffle(c, Bucket(sessions, c)), c, r)
  {
    var classes := Classes(sessions);
    var names := Sorted(classes);
    SortedMeaning(classes);
    OodIsNoClass(sessions);
    hide Sorted, ClassParts, OodOf, InSplit, InClass, AssignAll;
    if c !in classes { AbsentClass(sessions, r, shuffle, c); }
    hide Classes, ClassPart, Bucket;
    var held := AssignAll(OodOf(sessions), OOD, "group_ood_", OOD);
    AssignAllIsUniform(OodOf(sessions), OOD, "group_ood_", OOD);
    UniformSelects(held, OOD, OOD, OOD);
    UniformSelects(held, OOD, OOD, c);
    ClassPartsOfClass(sessions, names, r, shuffle, c);
    SplitAppend(held, ClassParts(sessions, names, r, shuffle), OOD);
    SplitAppend(held, ClassParts(sessions, names, r, shuffle), c);
  }

  lemma AbsentClass(sessions: seq<Session>, r: Ratios, shuffle: Shuffle, c: string)
    requires Rearranges(shuffle) && c !in Classes(sessions)
    ensures ClassPart(shuffle(c, Bucket(sessions, c)), c, r) == []
  {
    EmptyBucket(sessions, c);
    SameLength(shuffle, c, []);
  }

  /** The holdout receives exactly the OOD sessions, each as often as it occurs. */
  lemma HoldoutIsTheOodSessions(sessions: seq<Session>, r: Ratios, shuffle: Shuffle)
    requires Rearranges(shuffle)
    ensures Ids(InSplit(Assigned(sessions, r, shuffle), OOD)) == SessionIds(OodOf(sessions))
  {
    OutputByClass(sessions, r, shuffle, OOD);
    IdsOfAll(OodOf(sessions), OOD, "group_ood_", OOD);
  }

  /**
   * Every supervised class receives exactly its sessions, each as often as it occurs, divided over train, validation
   * and test as near to the ratios as whole sessions allow.
   */
  lemma ClassReceivesItsSessions(sessions: seq<Session>, r: Ratios, shuffle: Shuffle, c: string)
    requires Rearranges(shuffle) && ValidRatios(r) && c != OOD
    ensures var n, part := |Bucket(sessions, c)|, InClass(Assigned(sessions, r, shuffle), c);
      var train, val, test := |InSplit(part, "TRAIN")|, |InSplit(part, "VALIDATION")|, |InSplit(part, "TEST")|;
      && multiset(Ids(part)) == multiset(SessionIds(Bucket(sessions, c)))
      && train + val + test == n
      && Abs(train as real - Portion(n, r.train)) <= 0.5 + Shortfall(n, r)
      && Abs(val as real - Portion(n, r.val)) <= 0.5 + Shortfall(n, r)
      && Abs(test as real - Portion(n, r.test)) <= 1.0 + Shortfall(n, r)
  {
    hide *;
    var bucket := Bucket(sessions, c);
    var shuffled := shuffle(c, bucket);
    SameMembersShuffled(shuffle, c, bucket);
    OutputByClass(sessions, r, shuffle, c);
    SameLength(shuffle, c, bucket);
    ClassPartIds(shuffled, c, r);
    SameSessionsSameIds(shuffled, bucket);
    PartSizes(shuffled, c, r);
  }

  lemma SameMembersShuffled(shuffle: Shuffle, c: string, s: seq<Session>)
    requires Rearranges(shuffle)
    ensures multiset(shuffle(c, s)) == multiset(s)
  {}

  lemma PartSizes(bucket: seq<Session>, c: string, r: Ratios)
    requires ValidRatios(r)
    ensures var n, part := |bucket|, ClassPart(bucket, c, r);
      var train, val, test := |InSplit(part, "TRAIN")|, |InSplit(part, "VALIDATION")|, |InSplit(part, "TEST")|;
      && train + val + test == n
      && Abs(train as real - Portion(n, r.train)) <= 0.5 + Shortfall(n, r)
      && Abs(val as real - Portion(n, r.val)) <= 0.5 + Shortfall(n, r)
      && Abs(test as real - Portion(n, r.test)) <= 1.0 + Shortfall(n, r)
  {
    ClassPartSelects(bucket, c, r, c);
    SizesNearPortions(|bucket|, r);
    hide InSplit, ClassPart, TrainSize, TrainValSize, Portion, Shortfall, Abs, ValidRatios;
  }

  ghost predicate Distinct(names: seq<string>) {
    forall i, j :: 0 <= i < j < |names| ==> names[i] != names[j]
  }

  lemma {:induction false} OnceIsDistinct(names: seq<string>)
    ensures Distinct(names) <==> forall x :: multiset(names)[x] <= 1
    decreases |names|
  {
    if names != [] {
      var x, rest := names[0], names[1..];
      assert names == [x] + rest;
      OnceIsDistinct(rest);
      assert multiset(names)[x] == multiset(rest)[x] + 1;
      if Distinct(names) {
        assert Distinct(rest) by { assert forall i :: 0 <= i < |rest| ==> rest[i] == names[i + 1]; }
        assert x !in rest by { assert forall i :: 0 <= i < |rest| ==> rest[i] == names[i + 1]; }
        assert multiset(rest)[x] == 0;
      }
      if forall y :: multiset(names)[y] <= 1 {
        assert forall y :: multiset(rest)[y] <= multiset(names)[y];
        assert multiset(rest)[x] == 0;
        assert x !in rest;
        forall i, j | 0 <= i < j < |names| ensures names[i] != names[j] {
          assert names[j] == rest[j - 1];
          if i > 0 { assert names[i] == rest[i - 1]; }
        }
      }
    }
  }

  /** A partition of sessions with distinct ids and distinct capture digests passes the audit. */
  lemma PartitionIsClean(sessions: seq<Session>, r: Ratios, shuffle: Shuffle, shas: map<string, string>)
    requires Rearranges(shuffle) && Distinct(SessionIds(sessions))
    requires forall a, b :: a in shas && b in shas && a != b ==> shas[a] != shas[b]
    ensures Clean(Assigned(sessions, r, shuffle), shas)
  {
    hide Assigned;
    var out := Assigned(sessions, r, shuffle);
    PartitionConserves(sessions, r, shuffle);
    OnceIsDistinct(SessionIds(sessions));
    OnceIsDistinct(Ids(out));
    assert forall i :: 0 <= i < |out| ==> Ids(out)[i] == out[i].sessionId;
    forall i, j | 0 <= i < |out| && 0 <= j < |out| && out[i].split != out[j].split
      ensures out[i].sessionId != out[j].sessionId
    {
      if i < j { assert Ids(out)[i] != Ids(out)[j]; } else { assert Ids(out)[j] != Ids(out)[i]; }
    }
  }
}

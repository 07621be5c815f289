/** The zero-leakage audit, and why it finds every partition clean. */
module LeakageAudit {
  import opened Splitter

  datatype Leak = SessionLeak(first: string, second: string, ids: set<string>)
    | ShaLeak(first: string, second: string, shas: set<string>)
    | OodInTrain

  /** No session id and no supplied capture digest occurs in two splits. */
  predicate Clean(assignments: seq<Assignment>, shas: map<string, string>) {
    forall i, j :: 0 <= i < |assignments| && 0 <= j < |assignments| && assignments[i].split != assignments[j].split ==>
      && assignments[i].sessionId != assignments[j].sessionId
      && (assignments[i].sessionId in shas && assignments[j].sessionId in shas ==>
           shas[assignments[i].sessionId] != shas[assignments[j].sessionId])
  }

  function Overlap(keys: seq<string>, sets: map<string, set<string>>, a: nat, b: nat): set<string>
    requires a < |keys| && b < |keys| && forall k :: k in keys ==> k in sets
  {
    sets[keys[a]] * sets[keys[b]]
  }

  function LeakAt(keys: seq<string>, sets: map<string, set<string>>, sha: bool, a: nat, b: nat): Leak
    requires a < |keys| && b < |keys| && forall k :: k in keys ==> k in sets
  {
    if sha then ShaLeak(keys[a], keys[b], Overlap(keys, sets, a, b))
    else SessionLeak(keys[a], keys[b], Overlap(keys, sets, a, b))
  }

  /** Every pair of keys in turn: exactly the overlapping pairs are reported, each with its overlap. */
  method FindOverlaps(keys: seq<string>, sets: map<string, set<string>>, sha: bool) returns (leaks: seq<Leak>)
    requires forall k :: k in keys ==> k in sets
    ensures forall a, b :: 0 <= a < b < |keys| && Overlap(keys, sets, a, b) != {} ==>
      LeakAt(keys, sets, sha, a, b) in leaks
    ensures forall l :: l in leaks ==>
      exists a, b :: 0 <= a < b < |keys| && Overlap(keys, sets, a, b) != {} && l == LeakAt(keys, sets, sha, a, b)
  {
    leaks := [];
    for i := 0 to |keys|
      invariant forall a, b :: 0 <= a < i && a < b < |keys| && Overlap(keys, sets, a, b) != {} ==>
        LeakAt(keys, sets, sha, a, b) in leaks
      invariant forall l :: l in leaks ==>
        exists a, b :: 0 <= a < b < |keys| && Overlap(keys, sets, a, b) != {} && l == LeakAt(keys, sets, sha, a, b)
    {
      for j := i + 1 to |keys|
        invariant forall a, b ::
          0 <= a < b < |keys| && (a < i || (a == i && b < j)) && Overlap(keys, sets, a, b) != {} ==>
          LeakAt(keys, sets, sha, a, b) in leaks
        invariant forall l :: l in leaks ==>
          exists a, b :: 0 <= a < b < |keys| && Overlap(keys, sets, a, b) != {} && l == LeakAt(keys, sets, sha, a, b)
      {
        if Overlap(keys, sets, i, j) != {} {
          leaks := leaks + [LeakAt(keys, sets, sha, i, j)];
        }
      }
    }
  }

  // Indexing values by key

  datatype Entry = Entry(key: string, value: string)

  function ValuesOf(entries: seq<Entry>, k: string): set<string> {
    set i | 0 <= i < |entries| && entries[i].key == k :: entries[i].value
  }

  /** The map holds each key's values; `keys` lists its keys once each. */
  ghost predicate Indexed(entries: seq<Entry>, keys: seq<string>, m: map<string, set<string>>) {
    && (forall k :: k in keys <==> k in m)
    && (forall i, j :: 0 <= i < j < |keys| ==> keys[i] != keys[j])
    && (forall k :: k in m ==> m[k] == ValuesOf(entries, k))
    && (forall k :: k !in m ==> ValuesOf(entries, k) == {})
  }

  method Add(keys: seq<string>, m: map<string, set<string>>, e: Entry, ghost entries: seq<Entry>)
    returns (keys': seq<string>, m': map<string, set<string>>)
    requires Indexed(entries, keys, m)
    ensures Indexed(entries + [e], keys', m')
  {
    forall k ensures ValuesOf(entries + [e], k) == ValuesOf(entries, k) + (if e.key == k then {e.value} else {}) {
      ValuesOfSnoc(entries, e, k);
    }
    hide ValuesOf;
    keys' := if e.key in m then keys else keys + [e.key];
    m' := m[e.key := (if e.key in m then m[e.key] else {}) + {e.value}];
  }

  lemma ValuesOfSnoc(entries: seq<Entry>, e: Entry, k: string)
    ensures ValuesOf(entries + [e], k) == ValuesOf(entries, k) + (if e.key == k then {e.value} else {})
  {
    var more := entries + [e];
    assert forall i :: 0 <= i < |entries| ==> more[i] == entries[i];
    assert more[|entries|] == e;
  }

  function IdEntries(assignments: seq<Assignment>): seq<Entry> {
    seq(|assignments|, i requires 0 <= i < |assignments| => Entry(assignments[i].split, assignments[i].sessionId))
  }

  function ShaEntries(assignments: seq<Assignment>, shas: map<string, string>): seq<Entry> {
    if assignments == [] then []
    else
      var n := |assignments| - 1;
      var a := assignments[n];
      ShaEntries(assignments[..n], shas)
      + (if a.sessionId in shas then [Entry(a.split, shas[a.sessionId])] else [])
  }

  method Collect(assignments: seq<Assignment>, shas: map<string, string>)
    returns (keys: seq<string>, ids: map<string, set<string>>, shaKeys: seq<string>, digests: map<string, set<string>>)
    ensures Indexed(IdEntries(assignments), keys, ids)
    ensures Indexed(ShaEntries(assignments, shas), shaKeys, digests)
  {
    keys, ids, shaKeys, digests := [], map[], [], map[];
    hide Indexed;
    assert Indexed([], [], map[]) by { NothingIndexed(); }
    assert IdEntries(assignments[..0]) == [] && ShaEntries(assignments[..0], shas) == [];
    for n := 0 to |assignments|
      invariant Indexed(IdEntries(assignments[..n]), keys, ids)
      invariant Indexed(ShaEntries(assignments[..n], shas), shaKeys, digests)
    {
      var a := assignments[n];
      assert assignments[..n + 1][..n] == assignments[..n] && assignments[..n + 1][n] == a;
      assert IdEntries(assignments[..n + 1]) == IdEntries(assignments[..n]) + [Entry(a.split, a.sessionId)];
      keys, ids := Add(keys, ids, Entry(a.split, a.sessionId), IdEntries(assignments[..n]));
      if a.sessionId in shas {
        shaKeys, digests := Add(shaKeys, digests, Entry(a.split, shas[a.sessionId]),
          ShaEntries(assignments[..n], shas));
      } else {
        assert ShaEntries(assignments[..n + 1], shas) == ShaEntries(assignments[..n], shas);
      }
    }
    assert assignments[..|assignments|] == assignments;
  }

  lemma NothingIndexed()
    ensures Indexed([], [], map[])
  {}

  /** No value stands under two keys. */
  predicate Separate(entries: seq<Entry>) {
    forall i, j :: 0 <= i < |entries| && 0 <= j < |entries| && entries[i].key != entries[j].key ==>
      entries[i].value != entries[j].value
  }

  lemma Apart(a: set<string>, b: set<string>, v: string)
    requires a * b == {} && v in a
    ensures v !in b
  {
    assert v in b ==> v in a * b;
  }

  lemma DisjointMeansSeparate(entries: seq<Entry>, keys: seq<string>, m: map<string, set<string>>)
    requires Indexed(entries, keys, m)
    ensures Separate(entries) <==> forall a, b :: 0 <= a < b < |keys| ==> Overlap(keys, m, a, b) == {}
  {
    if Separate(entries) {
      forall a, b | 0 <= a < b < |keys| ensures Overlap(keys, m, a, b) == {} {
        NoSharedValue(entries, keys[a], keys[b]);
      }
    }
    if forall a, b :: 0 <= a < b < |keys| ==> Overlap(keys, m, a, b) == {} {
      forall i, j | 0 <= i < |entries| && 0 <= j < |entries| && entries[i].key != entries[j].key
        ensures entries[i].value != entries[j].value
      {
        assert entries[i].value in ValuesOf(entries, entries[i].key);
        assert entries[j].value in ValuesOf(entries, entries[j].key);
        var a :| 0 <= a < |keys| && keys[a] == entries[i].key;
        var b :| 0 <= b < |keys| && keys[b] == entries[j].key;
        assert a < b ==> Overlap(keys, m, a, b) == {};
        assert b < a ==> Overlap(keys, m, b, a) == {};
        Apart(m[keys[a]], m[keys[b]], entries[i].value);
      }
    }
  }

  lemma {:induction false} ShaEntriesAre(assignments: seq<Assignment>, shas: map<string, string>)
    ensures forall e :: e in ShaEntries(assignments, shas) <==>
      exists i :: 0 <= i < |assignments| && assignments[i].sessionId in shas
        && e == Entry(assignments[i].split, shas[assignments[i].sessionId])
    decreases |assignments|
  {
    if assignments != [] {
      var n := |assignments| - 1;
      ShaEntriesAre(assignments[..n], shas);
      assert assignments == assignments[..n] + [assignments[n]];
      forall e ensures e in ShaEntries(assignments, shas) <==>
        exists i :: 0 <= i < |assignments| && assignments[i].sessionId in shas
          && e == Entry(assignments[i].split, shas[assignments[i].sessionId])
      {
        if e in ShaEntries(assignments[..n], shas) {
          var i :| 0 <= i < n && assignments[..n][i].sessionId in shas
            && e == Entry(assignments[..n][i].split, shas[assignments[..n][i].sessionId]);
          assert assignments[i] == assignments[..n][i];
        }
      }
    }
  }

  lemma CleanMeansSeparate(assignments: seq<Assignment>, shas: map<string, string>)
    ensures Clean(assignments, shas) <==> Separate(IdEntries(assignments)) && Separate(ShaEntries(assignments, shas))
  {
    var ids, digests := IdEntries(assignments), ShaEntries(assignments, shas);
    ShaEntriesAre(assignments, shas);
    if Clean(assignments, shas) {
      forall i, j | 0 <= i < |digests| && 0 <= j < |digests| && digests[i].key != digests[j].key
        ensures digests[i].value != digests[j].value
      {
        assert digests[i] in digests && digests[j] in digests;
      }
    }
    if Separate(ids) && Separate(digests) {
      forall i, j | 0 <= i < |assignments| && 0 <= j < |assignments| && assignments[i].split != assignments[j].split
        ensures assignments[i].sessionId != assignments[j].sessionId
        ensures assignments[i].sessionId in shas && assignments[j].sessionId in shas ==>
          shas[assignments[i].sessionId] != shas[assignments[j].sessionId]
      {
        assert ids[i].key != ids[j].key;
        if assignments[i].sessionId in shas && assignments[j].sessionId in shas {
          var x, y := Entry(assignments[i].split, shas[assignments[i].sessionId]),
            Entry(assignments[j].split, shas[assignments[j].sessionId]);
          assert x in digests && y in digests;
          var a :| 0 <= a < |digests| && digests[a] == x;
          var b :| 0 <= b < |digests| && digests[b] == y;
        }
      }
    }
  }

  /** The session ids, and the supplied digests, that a split holds. */
  function IdsIn(assignments: seq<Assignment>, split: string): set<string> {
    set i | 0 <= i < |assignments| && assignments[i].split == split :: assignments[i].sessionId
  }

  function DigestsIn(assignments: seq<Assignment>, shas: map<string, string>, split: string): set<string> {
    set i | 0 <= i < |assignments| && assignments[i].split == split && assignments[i].sessionId in shas ::
      shas[assignments[i].sessionId]
  }

  lemma IdsAreValues(assignments: seq<Assignment>, split: string)
    ensures IdsIn(assignments, split) == ValuesOf(IdEntries(assignments), split)
  {
    var entries := IdEntries(assignments);
    assert forall i :: 0 <= i < |assignments| ==> entries[i] == Entry(assignments[i].split, assignments[i].sessionId);
  }

  lemma DigestsAreValues(assignments: seq<Assignment>, shas: map<string, string>, split: string)
    ensures DigestsIn(assignments, shas, split) == ValuesOf(ShaEntries(assignments, shas), split)
  {
    var entries := ShaEntries(assignments, shas);
    ShaEntriesAre(assignments, shas);
    forall v ensures v in DigestsIn(assignments, shas, split) <==> v in ValuesOf(entries, split) {
      if v in DigestsIn(assignments, shas, split) { assert Entry(split, v) in entries; }
      if v in ValuesOf(entries, split) {
        var k :| 0 <= k < |entries| && entries[k].key == split && entries[k].value == v;
        assert entries[k] in entries;
      }
    }
  }

  function LeakOf(sha: bool, x: string, y: string, shared: set<string>): Leak {
    if sha then ShaLeak(x, y, shared) else SessionLeak(x, y, shared)
  }

  ghost predicate TellsOf(l: Leak, entries: seq<Entry>, sha: bool) {
    exists x, y :: x != y && l == LeakOf(sha, x, y, ValuesOf(entries, x) * ValuesOf(entries, y))
  }

  predicate TellsApart(leaks: seq<Leak>, entries: seq<Entry>, sha: bool, x: string, y: string) {
    || LeakOf(sha, x, y, ValuesOf(entries, x) * ValuesOf(entries, y)) in leaks
    || LeakOf(sha, y, x, ValuesOf(entries, y) * ValuesOf(entries, x)) in leaks
  }

  /** Overlaps between indexed splits: each names two splits and what they share, and none is left out. */
  lemma OverlapsTell(entries: seq<Entry>, keys: seq<string>, m: map<string, set<string>>, sha: bool, leaks: seq<Leak>)
    requires Indexed(entries, keys, m)
    requires forall a, b :: 0 <= a < b < |keys| && Overlap(keys, m, a, b) != {} ==> LeakAt(keys, m, sha, a, b) in leaks
    requires forall l :: l in leaks ==>
      exists a, b :: 0 <= a < b < |keys| && Overlap(keys, m, a, b) != {} && l == LeakAt(keys, m, sha, a, b)
    ensures forall l :: l in leaks ==> TellsOf(l, entries, sha)
    ensures forall x, y :: x != y && ValuesOf(entries, x) * ValuesOf(entries, y) != {} ==>
      TellsApart(leaks, entries, sha, x, y)
  {
    hide ValuesOf;
    forall l | l in leaks ensures TellsOf(l, entries, sha) {
      var a, b :| 0 <= a < b < |keys| && Overlap(keys, m, a, b) != {} && l == LeakAt(keys, m, sha, a, b);
      assert keys[a] in m && keys[b] in m;
    }
    forall x, y | x != y && ValuesOf(entries, x) * ValuesOf(entries, y) != {}
      ensures TellsApart(leaks, entries, sha, x, y)
    {
      assert x in keys && y in keys;
      var a :| 0 <= a < |keys| && keys[a] == x;
      var b :| 0 <= b < |keys| && keys[b] == y;
      assert ValuesOf(entries, x) * ValuesOf(entries, y) == ValuesOf(entries, y) * ValuesOf(entries, x);
      if a < b { assert LeakAt(keys, m, sha, a, b) in leaks; } else { assert LeakAt(keys, m, sha, b, a) in leaks; }
    }
  }

  /** Session leaks name two splits and exactly the ids they share; every two splits that share ids are named. */
  ghost predicate TellsIds(leaks: seq<Leak>, assignments: seq<Assignment>) {
    && (forall l :: l in leaks && l.SessionLeak? ==>
         l.first != l.second && l.ids == IdsIn(assignments, l.first) * IdsIn(assignments, l.second))
    && (forall x, y :: x != y && IdsIn(assignments, x) * IdsIn(assignments, y) != {} ==> NamesIds(leaks, x, y))
    && (OodInTrain in leaks <==> IdsIn(assignments, OOD) * IdsIn(assignments, "TRAIN") != {})
  }

  predicate NamesIds(leaks: seq<Leak>, x: string, y: string) {
    exists l :: l in leaks && l.SessionLeak? && ((l.first == x && l.second == y) || (l.first == y && l.second == x))
  }

  /** Likewise for the supplied digests. */
  ghost predicate TellsDigests(leaks: seq<Leak>, assignments: seq<Assignment>, shas: map<string, string>) {
    && (forall l :: l in leaks && l.ShaLeak? ==>
         l.first != l.second
         && l.shas == DigestsIn(assignments, shas, l.first) * DigestsIn(assignments, shas, l.second))
    && (forall x, y :: x != y && DigestsIn(assignments, shas, x) * DigestsIn(assignments, shas, y) != {} ==>
         NamesDigests(leaks, x, y))
  }

  predicate NamesDigests(leaks: seq<Leak>, x: string, y: string) {
    exists l :: l in leaks && l.ShaLeak? && ((l.first == x && l.second == y) || (l.first == y && l.second == x))
  }

  lemma IdsTell(assignments: seq<Assignment>, leaks: seq<Leak>, others: seq<Leak>)
    requires forall l :: l in leaks ==> TellsOf(l, IdEntries(assignments), false)
    requires forall l :: l in others ==> !l.SessionLeak?
    requires OodInTrain in others
      <==> ValuesOf(IdEntries(assignments), OOD) * ValuesOf(IdEntries(assignments), "TRAIN") != {}
    requires forall x, y ::
      x != y && ValuesOf(IdEntries(assignments), x) * ValuesOf(IdEntries(assignments), y) != {} ==>
      TellsApart(leaks, IdEntries(assignments), false, x, y)
    ensures TellsIds(leaks + others, assignments)
  {
    forall x ensures IdsIn(assignments, x) == ValuesOf(IdEntries(assignments), x) { IdsAreValues(assignments, x); }
    hide IdsIn, ValuesOf, IdEntries;
    forall x, y | x != y && IdsIn(assignments, x) * IdsIn(assignments, y) != {} ensures NamesIds(leaks + others, x, y) {
      assert TellsApart(leaks, IdEntries(assignments), false, x, y);
    }
  }

  lemma DigestsTell(
      assignments: seq<Assignment>, shas: map<string, string>, before: seq<Leak>, leaks: seq<Leak>, after: seq<Leak>)
    requires forall l :: l in leaks ==> TellsOf(l, ShaEntries(assignments, shas), true)
    requires forall l :: l in before || l in after ==> !l.ShaLeak?
    requires forall x, y ::
      x != y && ValuesOf(ShaEntries(assignments, shas), x) * ValuesOf(ShaEntries(assignments, shas), y) != {} ==>
      TellsApart(leaks, ShaEntries(assignments, shas), true, x, y)
    ensures TellsDigests(before + leaks + after, assignments, shas)
  {
    forall x ensures DigestsIn(assignments, shas, x) == ValuesOf(ShaEntries(assignments, shas), x) {
      DigestsAreValues(assignments, shas, x);
    }
    hide DigestsIn, ValuesOf, ShaEntries;
    forall x, y | x != y && DigestsIn(assignments, shas, x) * DigestsIn(assignments, shas, y) != {}
      ensures NamesDigests(before + leaks + after, x, y)
    {
      assert TellsApart(leaks, ShaEntries(assignments, shas), true, x, y);
    }
  }

  lemma Kinds(leaks: seq<Leak>, entries: seq<Entry>, sha: bool)
    requires forall l :: l in leaks ==> TellsOf(l, entries, sha)
    ensures forall l :: l in leaks ==> if sha then l.ShaLeak? else l.SessionLeak?
  {}

  /** Passes exactly when no id and no digest crosses splits; else reports every crossing and what crosses. */
  method Audit(assignments: seq<Assignment>, shas: map<string, string>) returns (isClean: bool, leaks: seq<Leak>)
    ensures isClean <==> leaks == []
    ensures isClean <==> Clean(assignments, shas)
    ensures TellsIds(leaks, assignments) && TellsDigests(leaks, assignments, shas)
  {
    hide IdsIn, DigestsIn, ValuesOf, IdEntries, ShaEntries, Clean, Separate, TellsOf, TellsApart, TellsIds,
      TellsDigests;
    var keys, ids, shaKeys, digests := Collect(assignments, shas);
    leaks := FindOverlaps(keys, ids, false);
    var shaLeaks := FindOverlaps(shaKeys, digests, true);
    ghost var idLeaks := leaks;
    OverlapsTell(IdEntries(assignments), keys, ids, false, idLeaks);
    OverlapsTell(ShaEntries(assignments, shas), shaKeys, digests, true, shaLeaks);
    DisjointMeansSeparate(IdEntries(assignments), keys, ids);
    DisjointMeansSeparate(ShaEntries(assignments, shas), shaKeys, digests);
    CleanMeansSeparate(assignments, shas);
    assert leaks == [] <==> Separate(IdEntries(assignments)) by { EmptyWhenNone(leaks, keys, ids, false); }
    assert shaLeaks == [] <==> Separate(ShaEntries(assignments, shas))
      by { EmptyWhenNone(shaLeaks, shaKeys, digests, true); }
    var ood := if OOD in ids then ids[OOD] else {};
    var train := if "TRAIN" in ids then ids["TRAIN"] else {};
    assert ood == ValuesOf(IdEntries(assignments), OOD) && train == ValuesOf(IdEntries(assignments), "TRAIN");
    assert Separate(IdEntries(assignments)) ==> ood * train == {} by {
      if Separate(IdEntries(assignments)) { NoSharedValue(IdEntries(assignments), OOD, "TRAIN"); }
    }
    leaks := leaks + shaLeaks;
    ghost var last: seq<Leak> := if ood * train != {} then [OodInTrain] else [];
    if ood * train != {} { leaks := leaks + [OodInTrain]; }
    Kinds(idLeaks, IdEntries(assignments), false);
    Kinds(shaLeaks, ShaEntries(assignments, shas), true);
    assert leaks == idLeaks + (shaLeaks + last) && leaks == idLeaks + shaLeaks + last;
    IdsTell(assignments, idLeaks, shaLeaks + last);
    DigestsTell(assignments, shas, idLeaks, shaLeaks, last);
    isClean := |leaks| == 0;
  }

  lemma EmptyWhenNone(leaks: seq<Leak>, keys: seq<string>, sets: map<string, set<string>>, sha: bool)
    requires forall k :: k in keys ==> k in sets
    requires forall a, b :: 0 <= a < b < |keys| && Overlap(keys, sets, a, b) != {} ==>
      LeakAt(keys, sets, sha, a, b) in leaks
    requires forall l :: l in leaks ==>
      exists a, b :: 0 <= a < b < |keys| && Overlap(keys, sets, a, b) != {} && l == LeakAt(keys, sets, sha, a, b)
    ensures leaks == [] <==> forall a, b :: 0 <= a < b < |keys| ==> Overlap(keys, sets, a, b) == {}
  {
    if leaks != [] { assert leaks[0] in leaks; }
  }

  lemma NoSharedValue(entries: seq<Entry>, x: string, y: string)
    requires Separate(entries) && x != y
    ensures ValuesOf(entries, x) * ValuesOf(entries, y) == {}
  {
    assert forall v :: v in ValuesOf(entries, x) ==> v !in ValuesOf(entries, y);
  }
}

/** Gateway identities that the store tells apart and the comparison does not. */
module Spellings {
  import opened Wrappers
  import opened Text
  import opened SwanctlIr
  import opened Parser
  import opened Drift
  import opened DriftLaws
  import opened Inventory
  import opened BlankProposals

  /** Two baselines, one digest, two spellings, and a comparison that takes the gateways for one and matches. */
  ghost predicate Doubled(t: Store, i: Id, j: Id, a: string, b: string) {
    && i in t.snapshots && j in t.snapshots && i != j
    && t.snapshots[i].Gateway() == a && t.snapshots[j].Gateway() == b
    && t.snapshots[i].isBaseline && t.snapshots[j].isBaseline
    && t.snapshots[i].digest == t.snapshots[j].digest
    && Compare(t.snapshots[i].ir, t.snapshots[j].ir, a, b).status == Matched
  }

  ghost predicate CanDouble(a: string, b: string, sha: Digester) {
    exists ops, i, j :: Doubled(Inventory.Run(EMPTY_STORE, ops, sha), i, j, a, b)
  }

  function Spelled(identity: string): ImportRequest {
    ImportRequest(identity, ABSENT, "", "", "")
  }

  const APPROVAL := BaselineRequest("", "", 1)

  function Doubling(a: string, b: string): seq<Op> {
    [Import(Spelled(a), 1), Import(Spelled(b), 2), Designate(1, APPROVAL), Designate(2, APPROVAL)]
  }

  lemma FourSteps(t: Store, ops: seq<Op>, sha: Digester)
    requires |ops| == 4
    ensures Inventory.Run(t, ops, sha) == Step(Step(Step(Step(t, ops[0], sha), ops[1], sha), ops[2], sha), ops[3], sha)
  {
    hide Step;
    var u := Step(t, ops[0], sha);
    var v := Step(u, ops[1], sha);
    var w := Step(v, ops[2], sha);
    var x := Step(w, ops[3], sha);
    assert ops[1..][1..] == ops[2..] && ops[2..][1..] == ops[3..] && ops[3..][1..] == [];
    assert Inventory.Run(x, [], sha) == x;
    assert Inventory.Run(w, ops[3..], sha) == x;
    assert Inventory.Run(v, ops[2..], sha) == x;
    assert Inventory.Run(u, ops[1..], sha) == x;
  }

  lemma ImportTwo(a: string, b: string, sha: Digester)
    requires a != b && ParseText(ABSENT, sha).Ok?
    ensures var p := ParseText(ABSENT, sha).value;
      Step(Step(EMPTY_STORE, Import(Spelled(a), 1), sha), Import(Spelled(b), 2), sha)
      == Store(map[1 := NewSnapshot(Spelled(a), 1, p), 2 := NewSnapshot(Spelled(b), 2, p)], [])
  {
    NotBlank();
    hide ParseText, Strip;
    var p := ParseText(ABSENT, sha).value;
    var t := Step(EMPTY_STORE, Import(Spelled(a), 1), sha);
    assert WithDigest(map[], a, p.digest) == {};
    assert t.snapshots == map[1 := NewSnapshot(Spelled(a), 1, p)];
    assert WithDigest(t.snapshots, b, p.digest) == {};
  }

  lemma DesignateTwo(t: Store, a: string, b: string, sha: Digester)
    requires a != b && t.snapshots.Keys == {1, 2}
    requires t.snapshots[1].Gateway() == a && t.snapshots[2].Gateway() == b
    requires Designable(t, 1) && Designable(t, 2)
    ensures var u := Step(Step(t, Designate(1, APPROVAL), sha), Designate(2, APPROVAL), sha);
      && u.snapshots.Keys == {1, 2}
      && u.snapshots[1] == t.snapshots[1].(isBaseline := true, approval := Some(APPROVAL))
      && u.snapshots[2] == t.snapshots[2].(isBaseline := true, approval := Some(APPROVAL))
  {}

  lemma DoublingStore(a: string, b: string, sha: Digester)
    requires a != b && ParseText(ABSENT, sha).Ok? && !(EMPTY_DIGEST_PREFIX <= ParseText(ABSENT, sha).value.digest)
    ensures var p, s := ParseText(ABSENT, sha).value, Inventory.Run(EMPTY_STORE, Doubling(a, b), sha).snapshots;
      && s.Keys == {1, 2}
      && s[1] == NewSnapshot(Spelled(a), 1, p).(isBaseline := true, approval := Some(APPROVAL))
      && s[2] == NewSnapshot(Spelled(b), 2, p).(isBaseline := true, approval := Some(APPROVAL))
  {
    hide ParseText, Step, Inventory.Run;
    var p := ParseText(ABSENT, sha).value;
    FourSteps(EMPTY_STORE, Doubling(a, b), sha);
    ImportTwo(a, b, sha);
    DesignateTwo(Store(map[1 := NewSnapshot(Spelled(a), 1, p), 2 := NewSnapshot(Spelled(b), 2, p)], []), a, b, sha);
  }

  lemma RunDoubles(a: string, b: string, sha: Digester)
    requires a != b && Normalize(a) == Normalize(b)
    requires ParseText(ABSENT, sha).Ok? && !(EMPTY_DIGEST_PREFIX <= ParseText(ABSENT, sha).value.digest)
    ensures Doubled(Inventory.Run(EMPTY_STORE, Doubling(a, b), sha), 1, 2, a, b)
  {
    hide ParseText, Normalize, WellFormed, Compare, Inventory.Run, Canonical;
    var p := ParseText(ABSENT, sha).value;
    ParsedIsWellFormed(ABSENT, sha);
    MatchedMeansCanonicallyEqual(p.ir, p.ir, a, b);
    DoublingStore(a, b, sha);
  }

  lemma DoubledMeans(ops: seq<Op>, sha: Digester, i: Id, j: Id, a: string, b: string)
    requires Doubled(Inventory.Run(EMPTY_STORE, ops, sha), i, j, a, b)
    ensures a != b && Normalize(a) == Normalize(b)
  {
    EmptyIsConsistent(sha);
    RunKeeps(EMPTY_STORE, ops, sha);
    var t := Inventory.Run(EMPTY_STORE, ops, sha);
    hide Inventory.Run, Normalize, WellFormed;
    assert AtMostOne(BaselinesOf(t.snapshots, a));
    assert i in BaselinesOf(t.snapshots, a);
    assert a == b ==> j in BaselinesOf(t.snapshots, a);
  }

  /** Some run gives a gateway two matching baselines if and only if two spellings have one normal form. */
  lemma SpellingsDouble(a: string, b: string, sha: Digester)
    requires ParseText(ABSENT, sha).Ok? && !(EMPTY_DIGEST_PREFIX <= ParseText(ABSENT, sha).value.digest)
    ensures CanDouble(a, b, sha) <==> a != b && Normalize(a) == Normalize(b)
  {
    hide ParseText, Normalize, Doubled, Inventory.Run;
    if CanDouble(a, b, sha) {
      var ops, i, j :| Doubled(Inventory.Run(EMPTY_STORE, ops, sha), i, j, a, b);
      DoubledMeans(ops, sha, i, j, a, b);
    }
    if a != b && Normalize(a) == Normalize(b) { RunDoubles(a, b, sha); }
  }

  lemma UpperCaseAndBlank()
    ensures "GW" != "gw " && Normalize("GW") == Normalize("gw ")
  {
    TrailingBlank("gw");
    assert "gw" + " " == "gw ";
    assert Strip("GW") == "GW";
    assert Lower("GW") == "gw" && Lower("gw") == "gw";
  }

  /** Importing only under normal forms avoids it: the store then tells gateways apart as the comparison does. */
  ghost predicate ImportsNormalized(ops: seq<Op>) {
    forall k :: 0 <= k < |ops| && ops[k].Import? ==>
      Normalize(ops[k].request.gatewayIdentity) == ops[k].request.gatewayIdentity
  }

  ghost predicate Normalized(t: Store) {
    forall i :: i in t.snapshots ==> Normalize(t.snapshots[i].Gateway()) == t.snapshots[i].Gateway()
  }

  lemma NormalizedStep(t: Store, op: Op, sha: Digester)
    requires Normalized(t)
    requires op.Import? ==> Normalize(op.request.gatewayIdentity) == op.request.gatewayIdentity
    ensures Normalized(Step(t, op, sha))
  {
    hide ParseText, Normalize, Compare;
  }

  lemma {:induction false} NormalizedRun(t: Store, ops: seq<Op>, sha: Digester)
    requires ImportsNormalized(ops) && Normalized(t)
    ensures Normalized(Inventory.Run(t, ops, sha))
    decreases |ops|
  {
    hide Normalize, Step, Normalized;
    if ops != [] {
      NormalizedStep(t, ops[0], sha);
      assert forall k :: 0 <= k < |ops[1..]| ==> ops[1..][k] == ops[k + 1];
      NormalizedRun(Step(t, ops[0], sha), ops[1..], sha);
    }
  }

  /** Then what the comparison takes for one gateway has at most one baseline and one snapshot a digest. */
  lemma NormalizedIdentitiesAreUnique(ops: seq<Op>, sha: Digester, i: Id, j: Id)
    requires ImportsNormalized(ops)
    requires var s := Inventory.Run(EMPTY_STORE, ops, sha).snapshots;
      && i in s && j in s && Normalize(s[i].Gateway()) == Normalize(s[j].Gateway())
      && ((s[i].isBaseline && s[j].isBaseline) || s[i].digest == s[j].digest)
    ensures i == j
  {
    EmptyIsConsistent(sha);
    RunKeeps(EMPTY_STORE, ops, sha);
    NormalizedRun(EMPTY_STORE, ops, sha);
    var s := Inventory.Run(EMPTY_STORE, ops, sha).snapshots;
    hide Inventory.Run, Normalize, WellFormed, Compare;
    var g := s[i].Gateway();
    assert s[j].Gateway() == g;
    assert AtMostOne(BaselinesOf(s, g)) && AtMostOne(WithDigest(s, g, s[i].digest));
    if s[i].isBaseline && s[j].isBaseline {
      assert i in BaselinesOf(s, g) && j in BaselinesOf(s, g);
    } else {
      assert i in WithDigest(s, g, s[i].digest) && j in WithDigest(s, g, s[i].digest);
    }
  }
}

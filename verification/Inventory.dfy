/** The inventory of configuration snapshots: import, baseline designation and drift records. */
module Inventory {
  import opened Wrappers
  import opened Text
  import opened SwanctlIr
  import opened TokenMachine
  import opened Parser
  import opened Drift
  import opened DriftLaws

  type Id = nat

  datatype ImportRequest = ImportRequest(
    gatewayIdentity: string, configText: string,
    operatorId: string, authorizationReference: string, collectionMethod: string)

  datatype BaselineRequest = BaselineRequest(operatorId: string, approvalReference: string, baselineVersion: int)

  datatype Snapshot = Snapshot(
    id: Id,
    request: ImportRequest,
    ir: NormalizedIr,
    unsupported: seq<Directive>,
    digest: string,
    isBaseline: bool,
    approval: Option<BaselineRequest>)
  {
    function Gateway(): string {
      request.gatewayIdentity
    }
  }

  datatype DriftRecord = DriftRecord(id: Id, gateway: string, baselineId: Id, observedId: Id, comparison: Comparison)

  datatype Store = Store(snapshots: map<Id, Snapshot>, drifts: seq<DriftRecord>)

  /** `AlreadyTaken` is a primary key that exists, `MultipleResults` a query for at most one row that finds several. */
  datatype ServiceError =
    | BlankText | Unparsable(cause: ParseError) | AlreadyTaken | MultipleResults | EmptyDigest | NotFound

  const EMPTY_DIGEST_PREFIX := "e3b0c442"

  /** The snapshots of a gateway with a given digest, and its baselines. */
  function WithDigest(s: map<Id, Snapshot>, gateway: string, digest: string): set<Id> {
    set i | i in s && s[i].Gateway() == gateway && s[i].digest == digest
  }

  function BaselinesOf(s: map<Id, Snapshot>, gateway: string): set<Id> {
    set i | i in s && s[i].Gateway() == gateway && s[i].isBaseline
  }

  /** At most one element. */
  predicate AtMostOne(ids: set<Id>) {
    forall i, j :: i in ids && j in ids ==> i == j
  }

  ghost predicate SnapshotFaithful(i: Id, s: Snapshot, sha: Digester) {
    && s.id == i
    && WellFormed(s.ir.connections)
    && s.ir.format == "SWANCTL"
    && s.digest == sha(ViewOf(s.ir))
  }

  ghost predicate RecordCurrent(d: DriftRecord, s: map<Id, Snapshot>) {
    && d.baselineId in s && d.observedId in s
    && d.gateway == s[d.baselineId].Gateway()
    && var b, o := s[d.baselineId], s[d.observedId];
       d.comparison == Compare(b.ir, o.ir, b.Gateway(), o.Gateway())
  }

  /** One baseline a gateway, one snapshot a gateway and digest, faithful digests, current drift records. */
  ghost predicate Consistent(t: Store, sha: Digester) {
    && (forall i :: i in t.snapshots ==> SnapshotFaithful(i, t.snapshots[i], sha))
    && (forall g :: AtMostOne(BaselinesOf(t.snapshots, g)))
    && (forall g, d :: AtMostOne(WithDigest(t.snapshots, g, d)))
    && (forall k :: 0 <= k < |t.drifts| ==> RecordCurrent(t.drifts[k], t.snapshots))
  }

  // The three operations on the stored rows

  datatype Op =
    | Import(request: ImportRequest, newId: Id)
    | Designate(id: Id, approval: BaselineRequest)
    | ComputeDrift(baselineId: Id, observedId: Id, recordId: Id)

  function NewSnapshot(request: ImportRequest, newId: Id, parsed: Parsed): Snapshot {
    Snapshot(newId, request, parsed.ir, parsed.unsupported, parsed.digest, false, None)
  }

  function Demoted(s: map<Id, Snapshot>, gateway: string): map<Id, Snapshot> {
    map i | i in s :: if s[i].Gateway() == gateway && s[i].isBaseline then s[i].(isBaseline := false) else s[i]
  }

  function Designated(s: map<Id, Snapshot>, id: Id, approval: BaselineRequest): map<Id, Snapshot>
    requires id in s
  {
    Demoted(s, s[id].Gateway())[id := s[id].(isBaseline := true, approval := Some(approval))]
  }

  predicate Importable(t: Store, request: ImportRequest, newId: Id, sha: Digester) {
    && Strip(request.configText) != ""
    && ParseText(request.configText, sha).Ok?
    && WithDigest(t.snapshots, request.gatewayIdentity, ParseText(request.configText, sha).value.digest) == {}
    && newId !in t.snapshots
  }

  predicate Designable(t: Store, id: Id) {
    id in t.snapshots && !(EMPTY_DIGEST_PREFIX <= t.snapshots[id].digest)
  }

  predicate Comparable(t: Store, baselineId: Id, observedId: Id, recordId: Id) {
    && baselineId in t.snapshots && observedId in t.snapshots
    && forall k :: 0 <= k < |t.drifts| ==> t.drifts[k].id != recordId
  }

  ghost function RecordOf(t: Store, baselineId: Id, observedId: Id, recordId: Id): DriftRecord
    requires baselineId in t.snapshots && observedId in t.snapshots
  {
    var b, o := t.snapshots[baselineId], t.snapshots[observedId];
    DriftRecord(recordId, b.Gateway(), baselineId, observedId, Compare(b.ir, o.ir, b.Gateway(), o.Gateway()))
  }

  /** The store after one call; a call that fails, or imports what is there, leaves it as it was. */
  ghost function Step(t: Store, op: Op, sha: Digester): Store {
    match op
    case Import(request, newId) =>
      if Importable(t, request, newId, sha) then
        t.(snapshots := t.snapshots[newId := NewSnapshot(request, newId, ParseText(request.configText, sha).value)])
      else t
    case Designate(id, approval) =>
      if Designable(t, id) then t.(snapshots := Designated(t.snapshots, id, approval)) else t
    case ComputeDrift(b, o, r) =>
      if Comparable(t, b, o, r) then t.(drifts := t.drifts + [RecordOf(t, b, o, r)]) else t
  }

  ghost function Run(t: Store, ops: seq<Op>, sha: Digester): Store
    decreases |ops|
  {
    if ops == [] then t else Run(Step(t, ops[0], sha), ops[1..], sha)
  }

  const EMPTY_STORE := Store(map[], [])

  // What every operation keeps

  /** A stored snapshot's evidence: everything but its baseline flag and approval. */
  function Evidence(s: Snapshot): Snapshot {
    s.(isBaseline := false, approval := None)
  }

  /** No row disappears, no stored evidence and no drift record changes. */
  ghost predicate Extends(t: Store, u: Store) {
    && (forall i :: i in t.snapshots ==> i in u.snapshots && Evidence(u.snapshots[i]) == Evidence(t.snapshots[i]))
    && t.drifts <= u.drifts
  }

  lemma StepExtends(t: Store, op: Op, sha: Digester)
    ensures Extends(t, Step(t, op, sha))
  {
    hide ParseText, Compare;
  }

  lemma ImportKeeps(t: Store, request: ImportRequest, newId: Id, sha: Digester)
    requires Consistent(t, sha)
    ensures Consistent(Step(t, Import(request, newId), sha), sha)
  {
    hide ParseText, Compare, WellFormed, ViewOf;
    if Importable(t, request, newId, sha) {
      var u := Step(t, Import(request, newId), sha);
      var s := u.snapshots[newId];
      ParsedIsWellFormed(request.configText, sha);
      forall g ensures AtMostOne(BaselinesOf(u.snapshots, g)) {
        assert BaselinesOf(u.snapshots, g) == BaselinesOf(t.snapshots, g);
      }
      forall g, d ensures AtMostOne(WithDigest(u.snapshots, g, d)) {
        if g == request.gatewayIdentity && d == s.digest {
          assert WithDigest(u.snapshots, g, d) <= WithDigest(t.snapshots, g, d) + {newId};
        } else {
          assert WithDigest(u.snapshots, g, d) == WithDigest(t.snapshots, g, d);
        }
      }
    }
  }

  lemma DesignateKeeps(t: Store, id: Id, approval: BaselineRequest, sha: Digester)
    requires Consistent(t, sha)
    ensures Consistent(Step(t, Designate(id, approval), sha), sha)
  {
    hide Compare, WellFormed, ViewOf;
    if Designable(t, id) {
      var u := Step(t, Designate(id, approval), sha);
      var g0 := t.snapshots[id].Gateway();
      forall g ensures AtMostOne(BaselinesOf(u.snapshots, g)) {
        if g == g0 {
          assert BaselinesOf(u.snapshots, g) <= {id};
        } else {
          assert BaselinesOf(u.snapshots, g) == BaselinesOf(t.snapshots, g);
        }
      }
      forall g, d ensures AtMostOne(WithDigest(u.snapshots, g, d)) {
        assert WithDigest(u.snapshots, g, d) == WithDigest(t.snapshots, g, d);
      }
      forall k | 0 <= k < |u.drifts| ensures RecordCurrent(u.drifts[k], u.snapshots) {
        assert RecordCurrent(t.drifts[k], t.snapshots);
      }
    }
  }

  lemma DriftKeeps(t: Store, b: Id, o: Id, r: Id, sha: Digester)
    requires Consistent(t, sha)
    ensures Consistent(Step(t, ComputeDrift(b, o, r), sha), sha)
  {
    hide Compare, WellFormed, ViewOf;
  }

  lemma StepKeeps(t: Store, op: Op, sha: Digester)
    requires Consistent(t, sha)
    ensures Consistent(Step(t, op, sha), sha)
  {
    match op
    case Import(request, newId) => ImportKeeps(t, request, newId, sha);
    case Designate(id, approval) => DesignateKeeps(t, id, approval, sha);
    case ComputeDrift(b, o, r) => DriftKeeps(t, b, o, r, sha);
  }

  /** In every run the rows stay consistent and nothing recorded is lost or altered. */
  lemma {:induction false} RunKeeps(t: Store, ops: seq<Op>, sha: Digester)
    requires Consistent(t, sha)
    ensures Consistent(Run(t, ops, sha), sha)
    ensures Extends(t, Run(t, ops, sha))
    decreases |ops|
  {
    hide Step, Consistent;
    if ops != [] {
      var u := Step(t, ops[0], sha);
      StepKeeps(t, ops[0], sha);
      StepExtends(t, ops[0], sha);
      RunKeeps(u, ops[1..], sha);
      ExtendsTransitive(t, u, Run(u, ops[1..], sha));
    }
  }

  lemma ExtendsTransitive(t: Store, u: Store, v: Store)
    requires Extends(t, u) && Extends(u, v)
    ensures Extends(t, v)
  {}

  lemma EmptyIsConsistent(sha: Digester)
    ensures Consistent(EMPTY_STORE, sha)
  {}

  /** In every reachable store two different snapshots of one gateway drift, unless empty proposal texts hide it. */
  lemma DifferentSnapshotsDrift(ops: seq<Op>, sha: Digester, i: Id, j: Id)
    requires var s := Run(EMPTY_STORE, ops, sha).snapshots;
      && i in s && j in s && i != j
      && s[i].Gateway() == s[j].Gateway()
      && BlanksAgree(s[i].ir.connections, s[j].ir.connections)
    requires Injective(sha)
    ensures var s := Run(EMPTY_STORE, ops, sha).snapshots;
      Compare(s[i].ir, s[j].ir, s[i].Gateway(), s[j].Gateway()).status == DriftDetected
  {
    hide Run, WellFormed, BlanksAgree, AllItems, ViewOf;
    EmptyIsConsistent(sha);
    RunKeeps(EMPTY_STORE, ops, sha);
    var s := Run(EMPTY_STORE, ops, sha).snapshots;
    assert SnapshotFaithful(i, s[i], sha) && SnapshotFaithful(j, s[j], sha);
    var equal := WithDigest(s, s[i].Gateway(), s[i].digest);
    assert AtMostOne(equal) && i in equal;
    assert j in equal <==> s[j].digest == s[i].digest;
    DigestAgreesWithComparison(s[i].ir, s[j].ir, s[i].Gateway(), s[j].Gateway(), sha);
  }

  /** A designation makes that snapshot its gateway's only baseline and leaves every other gateway's alone. */
  lemma DesignationMovesBaseline(t: Store, id: Id, approval: BaselineRequest, sha: Digester, g: string)
    requires Designable(t, id)
    ensures BaselinesOf(Step(t, Designate(id, approval), sha).snapshots, g)
         == if g == t.snapshots[id].Gateway() then {id} else BaselinesOf(t.snapshots, g)
  {}

  /** A new row holds the request and all three parts of the parse, no mark and no approval; nothing else changes. */
  lemma ImportStores(t: Store, request: ImportRequest, newId: Id, sha: Digester)
    requires Importable(t, request, newId, sha)
    ensures var u, p := Step(t, Import(request, newId), sha), ParseText(request.configText, sha).value;
      && u.snapshots.Keys == t.snapshots.Keys + {newId} && u.drifts == t.drifts
      && (forall i :: i in t.snapshots ==> u.snapshots[i] == t.snapshots[i])
      && var s := u.snapshots[newId];
      && s.id == newId && s.request == request && s.Gateway() == request.gatewayIdentity
      && s.ir == p.ir && s.unsupported == p.unsupported && s.digest == p.digest
      && !s.isBaseline && s.approval == None
  {
    hide ParseText;
  }

  /** What a designation writes: mark and approval of one row; the gateway's other rows lose their mark and no more. */
  lemma DesignationWrites(t: Store, id: Id, approval: BaselineRequest, sha: Digester)
    requires Designable(t, id)
    ensures var u := Step(t, Designate(id, approval), sha);
      && u.snapshots.Keys == t.snapshots.Keys && u.drifts == t.drifts
      && u.snapshots[id] == t.snapshots[id].(isBaseline := true, approval := Some(approval))
      && forall i :: i in t.snapshots && i != id ==>
           if t.snapshots[i].Gateway() == t.snapshots[id].Gateway() then
             u.snapshots[i].(isBaseline := true) == t.snapshots[i].(isBaseline := true) && !u.snapshots[i].isBaseline
           else u.snapshots[i] == t.snapshots[i]
  {}

  /** Importing a configuration whose public view is already stored for the gateway changes nothing. */
  lemma ImportIsIdempotent(t: Store, first: ImportRequest, second: ImportRequest, i: Id, j: Id, sha: Digester)
    requires Importable(t, first, i, sha)
    requires first.gatewayIdentity == second.gatewayIdentity
    requires ParseText(second.configText, sha).Ok?
    requires ViewOf(ParseText(first.configText, sha).value.ir) == ViewOf(ParseText(second.configText, sha).value.ir)
    ensures var u := Step(t, Import(first, i), sha);
      Step(u, Import(second, j), sha) == u
  {
    ParsedIsWellFormed(first.configText, sha);
    ParsedIsWellFormed(second.configText, sha);
    hide ParseText, ViewOf;
    var u := Step(t, Import(first, i), sha);
    var d := ParseText(second.configText, sha).value.digest;
    assert i in WithDigest(u.snapshots, first.gatewayIdentity, d);
  }

  // The service object

  class InventoryService {
    const sha: Digester
    var snapshots: map<Id, Snapshot>
    var drifts: seq<DriftRecord>

    ghost function State(): Store
      reads this
    {
      Store(snapshots, drifts)
    }

    ghost predicate Valid()
      reads this
    {
      Consistent(State(), sha)
    }

    constructor (digester: Digester)
      ensures Valid() && State() == EMPTY_STORE && sha == digester
    {
      sha := digester;
      snapshots := map[];
      drifts := [];
    }

    /** Parses, and stores the result unless the gateway already has a snapshot with that digest. */
    method ImportSnapshot(request: ImportRequest, newId: Id) returns (r: Result<Snapshot, ServiceError>)
      requires Valid()
      modifies this`snapshots
      ensures Valid() && State() == Step(old(State()), Import(request, newId), sha)
      ensures r.Ok? ==>
        && r.value.id in snapshots && snapshots[r.value.id] == r.value
        && r.value.Gateway() == request.gatewayIdentity
        && ParseText(request.configText, sha).Ok?
        && r.value.digest == ParseText(request.configText, sha).value.digest
      ensures r.Ok? && r.value.id !in old(snapshots) ==>
        && r.value.id == newId && snapshots == old(snapshots)[newId := r.value]
        && r.value.request == request
        && r.value.ir == ParseText(request.configText, sha).value.ir
        && r.value.unsupported == ParseText(request.configText, sha).value.unsupported
        && !r.value.isBaseline && r.value.approval == None
      ensures r.Ok? && r.value.id in old(snapshots) ==> snapshots == old(snapshots)
      ensures r.Err? ==> State() == old(State()) && r.error != MultipleResults
      ensures r == Err(BlankText) <==> Strip(request.configText) == ""
      ensures r.Err? && r.error.Unparsable? <==>
        Strip(request.configText) != "" && ParseText(request.configText, sha).Err?
    {
      hide Strip, ParseText, Compare, WellFormed;
      ImportKeeps(State(), request, newId, sha);
      if Strip(request.configText) == "" { return Err(BlankText); }
      var parsed := Parse(request.configText, sha);
      if parsed.Err? { return Err(Unparsable(parsed.error)); }
      var existing := WithDigest(snapshots, request.gatewayIdentity, parsed.value.digest);
      assert AtMostOne(existing);
      if existing != {} {
        var i :| i in existing;
        if existing != {i} { return Err(MultipleResults); }
        assert SnapshotFaithful(i, snapshots[i], sha);
        return Ok(snapshots[i]);
      }
      if newId in snapshots { return Err(AlreadyTaken); }
      var snapshot := NewSnapshot(request, newId, parsed.value);
      snapshots := snapshots[newId := snapshot];
      return Ok(snapshot);
    }

    /** Demotes the gateway's baseline and promotes the given snapshot. */
    method DesignateBaseline(id: Id, approval: BaselineRequest) returns (r: Result<Snapshot, ServiceError>)
      requires Valid()
      modifies this`snapshots
      ensures Valid() && State() == Step(old(State()), Designate(id, approval), sha)
      ensures r.Ok? <==> Designable(old(State()), id)
      ensures r.Ok? ==> BaselinesOf(snapshots, r.value.Gateway()) == {id} && snapshots[id] == r.value
      ensures r.Ok? ==> r.value == old(snapshots)[id].(isBaseline := true, approval := Some(approval))
      ensures r == Err(NotFound) <==> id !in old(snapshots)
      ensures r == Err(EmptyDigest) <==>
        id in old(snapshots) && |old(snapshots)[id].digest| >= 8 && old(snapshots)[id].digest[..8] == "e3b0c442"
    {
      DesignateKeeps(State(), id, approval, sha);
      if id !in snapshots { return Err(NotFound); }
      var snapshot := snapshots[id];
      if EMPTY_DIGEST_PREFIX <= snapshot.digest { return Err(EmptyDigest); }
      DesignationMovesBaseline(State(), id, approval, sha, snapshot.Gateway());
      snapshots := Demoted(snapshots, snapshot.Gateway());
      snapshot := snapshot.(isBaseline := true, approval := Some(approval));
      snapshots := snapshots[id := snapshot];
      return Ok(snapshot);
    }

    /** Compares two stored snapshots and records the outcome. */
    method RecordDrift(baselineId: Id, observedId: Id, recordId: Id) returns (r: Result<DriftRecord, ServiceError>)
      requires Valid()
      modifies this`drifts
      ensures Valid() && State() == Step(old(State()), ComputeDrift(baselineId, observedId, recordId), sha)
      ensures r.Ok? <==> Comparable(old(State()), baselineId, observedId, recordId)
      ensures r.Ok? ==> drifts == old(drifts) + [r.value]
      ensures r.Ok? ==>
        && r.value.id == recordId && r.value.baselineId == baselineId && r.value.observedId == observedId
        && r.value.gateway == snapshots[baselineId].Gateway()
      ensures r == Err(NotFound) <==> baselineId !in snapshots || observedId !in snapshots
    {
      hide Compare, WellFormed;
      DriftKeeps(State(), baselineId, observedId, recordId, sha);
      if baselineId !in snapshots { return Err(NotFound); }
      var base := snapshots[baselineId];
      if observedId !in snapshots { return Err(NotFound); }
      var obs := snapshots[observedId];
      var comparison := CompareSnapshots(base.ir, obs.ir, base.Gateway(), obs.Gateway());
      if exists k :: 0 <= k < |drifts| && drifts[k].id == recordId { return Err(AlreadyTaken); }
      var record := DriftRecord(recordId, base.Gateway(), baselineId, observedId, comparison);
      drifts := drifts + [record];
      return Ok(record);
    }

    /** The gateway's baseline as the summary query asks for it; it never finds more than one. */
    method FindBaseline(gateway: string) returns (r: Result<Option<Snapshot>, ServiceError>)
      requires Valid()
      ensures r.Ok?
      ensures r.value.Some? ==>
        && r.value.value.id in snapshots && snapshots[r.value.value.id] == r.value.value
        && BaselinesOf(snapshots, gateway) == {r.value.value.id}
      ensures r.value.None? ==> BaselinesOf(snapshots, gateway) == {}
    {
      hide Compare, WellFormed;
      var found := BaselinesOf(snapshots, gateway);
      assert AtMostOne(found);
      if found == {} { return Ok(None); }
      var i :| i in found;
      if found != {i} { return Err(MultipleResults); }
      assert SnapshotFaithful(i, snapshots[i], sha);
      return Ok(Some(snapshots[i]));
    }
  }
}

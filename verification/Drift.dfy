/** Field-by-field comparison of two stored configurations. */
module Drift {
  import opened Wrappers
  import opened Text
  import opened Proposals
  import opened SwanctlIr
  import opened Parser
  import Names

  /** A compared value; `Absent` stands for Python's None. */
  datatype FieldValue = Absent | Str(s: string) | Num(i: int) | Truth(b: bool) | List(names: seq<string>)

  datatype FieldStatus = MATCHED | CHANGED | MISSING_IN_OBSERVED | NEW_IN_OBSERVED | NOT_COMPARABLE

  datatype DriftItem = DriftItem(path: string, baseline: FieldValue, observed: FieldValue, status: FieldStatus)

  datatype ComparisonStatus = Matched | DriftDetected | Incomparable

  datatype Summary = Summary(
    totalFields: nat, matched: nat, changed: nat, missing: nat, added: nat, notComparable: nat,
    driftDetected: Option<bool>)

  datatype Comparison = Comparison(status: ComparisonStatus, summary: Summary, items: seq<DriftItem>)

  const CONNECTION_FIELDS: seq<string> := ["version", "local_addrs", "remote_addrs", "encap", "rekey_time"]
  const CHILD_FIELDS: seq<string> := ["mode", "local_ts", "remote_ts", "start_action", "rekey_time", "replay_window"]
  const ROLE_FIELDS: seq<string> := ["id", "auth", "certs", "cacerts"]

  function ConnectionValue(c: Connection, field: string): FieldValue {
    if field == "version" then Num(c.version)
    else if field == "local_addrs" then Str(c.localAddrs)
    else if field == "remote_addrs" then Str(c.remoteAddrs)
    else if field == "encap" then Truth(c.encap)
    else if field == "rekey_time" then Str(c.rekeyTime)
    else Absent
  }

  function ChildValue(c: ChildSa, field: string): FieldValue {
    if field == "mode" then Str(c.mode)
    else if field == "local_ts" then Str(c.localTs)
    else if field == "remote_ts" then Str(c.remoteTs)
    else if field == "start_action" then Str(c.startAction)
    else if field == "rekey_time" then Str(c.rekeyTime)
    else if field == "replay_window" then Num(c.replayWindow)
    else Absent
  }

  function RoleValue(role: map<string, string>, key: string): FieldValue {
    if key in role then Str(role[key]) else Absent
  }

  /** The raw proposal text when there is some, else the encryption names; an empty text counts as none. */
  function ProposalValue(raw: Option<string>, proposals: seq<Proposal>): (r: FieldValue)
    ensures !r.Absent?
  {
    if raw.Some? && raw.value != "" then Str(raw.value) else List(Encryptions(proposals))
  }

  function StatusOf(b: FieldValue, o: FieldValue): FieldStatus {
    if b == o then MATCHED
    else if o.Absent? then MISSING_IN_OBSERVED
    else if b.Absent? then NEW_IN_OBSERVED
    else CHANGED
  }

  function ItemFor(path: string, b: FieldValue, o: FieldValue): DriftItem {
    DriftItem(path, b, o, StatusOf(b, o))
  }

  // The comparison as functions of the two sides

  function ChildFieldItems(prefix: string, fields: seq<string>, b: ChildSa, o: ChildSa): seq<DriftItem> {
    if fields == [] then []
    else
      [ItemFor(prefix + "." + fields[0], ChildValue(b, fields[0]), ChildValue(o, fields[0]))]
      + ChildFieldItems(prefix, fields[1..], b, o)
  }

  function EspItem(prefix: string, b: ChildSa, o: ChildSa): DriftItem {
    ItemFor(prefix + ".esp_proposals", ProposalValue(b.rawEspProposals, b.espProposals),
            ProposalValue(o.rawEspProposals, o.espProposals))
  }

  function ChildItems(prefix: string, name: string, b: map<string, ChildSa>, o: map<string, ChildSa>): seq<DriftItem>
  {
    var path := prefix + ".children." + name;
    if name in b && name in o then
      ChildFieldItems(path, CHILD_FIELDS, b[name], o[name]) + [EspItem(path, b[name], o[name])]
    else if name in b then [ItemFor(path, Str("child_sa(" + name + ")"), Absent)]
    else [ItemFor(path, Absent, Str("child_sa(" + name + ")"))]
  }

  function ChildrenItems(prefix: string, names: seq<string>, b: map<string, ChildSa>, o: map<string, ChildSa>)
    : seq<DriftItem>
  {
    if names == [] then [] else ChildItems(prefix, names[0], b, o) + ChildrenItems(prefix, names[1..], b, o)
  }

  /** A key that neither side sets yields nothing. */
  function RoleItem(prefix: string, key: string, b: map<string, string>, o: map<string, string>): seq<DriftItem> {
    if key !in b && key !in o then [] else [ItemFor(prefix + "." + key, RoleValue(b, key), RoleValue(o, key))]
  }

  function RoleItems(prefix: string, keys: seq<string>, b: map<string, string>, o: map<string, string>)
    : seq<DriftItem>
  {
    if keys == [] then [] else RoleItem(prefix, keys[0], b, o) + RoleItems(prefix, keys[1..], b, o)
  }

  function ConnectionFieldItems(prefix: string, fields: seq<string>, b: Connection, o: Connection): seq<DriftItem> {
    if fields == [] then []
    else
      [ItemFor(prefix + "." + fields[0], ConnectionValue(b, fields[0]), ConnectionValue(o, fields[0]))]
      + ConnectionFieldItems(prefix, fields[1..], b, o)
  }

  function ProposalItem(prefix: string, b: Connection, o: Connection): DriftItem {
    ItemFor(prefix + ".proposals", ProposalValue(b.rawProposals, b.proposals),
      ProposalValue(o.rawProposals, o.proposals))
  }

  /** Both sides have the connection: its fields, proposals, roles and children in turn. */
  ghost function PairItems(prefix: string, b: Connection, o: Connection): seq<DriftItem> {
    ConnectionFieldItems(prefix, CONNECTION_FIELDS, b, o)
    + [ProposalItem(prefix, b, o)]
    + RoleItems(prefix + ".local", ROLE_FIELDS, b.local, o.local)
    + RoleItems(prefix + ".remote", ROLE_FIELDS, b.remote, o.remote)
    + ChildrenItems(prefix, Names.Sorted(b.children.Keys + o.children.Keys), b.children, o.children)
  }

  ghost function ConnectionItems(name: string, b: map<string, Connection>, o: map<string, Connection>): seq<DriftItem>
  {
    var path := "connections." + name;
    if name in b && name in o then PairItems(path, b[name], o[name])
    else if name in b then [ItemFor(path, Str("connection(" + name + ")"), Absent)]
    else [ItemFor(path, Absent, Str("connection(" + name + ")"))]
  }

  ghost function ConnectionsItems(names: seq<string>, b: map<string, Connection>, o: map<string, Connection>)
    : seq<DriftItem>
  {
    if names == [] then [] else ConnectionItems(names[0], b, o) + ConnectionsItems(names[1..], b, o)
  }

  const SECRETS_ITEM := DriftItem("secrets", Str(REDACTED), Str(REDACTED), NOT_COMPARABLE)

  ghost function AllItems(b: NormalizedIr, o: NormalizedIr): seq<DriftItem> {
    ConnectionsItems(Names.Sorted(b.connections.Keys + o.connections.Keys), b.connections, o.connections)
    + [SECRETS_ITEM]
  }

  function Count(items: seq<DriftItem>, status: FieldStatus): nat {
    if items == [] then 0 else (if items[0].status == status then 1 else 0) + Count(items[1..], status)
  }

  function Normalize(identity: string): string {
    Lower(Strip(identity))
  }

  function Conclude(items: seq<DriftItem>): Comparison {
    var changed, missing, added :=
      Count(items, CHANGED), Count(items, MISSING_IN_OBSERVED), Count(items, NEW_IN_OBSERVED);
    var drift := changed > 0 || missing > 0 || added > 0;
    Comparison(
      if drift then DriftDetected else Matched,
      Summary(|items|, Count(items, MATCHED), Count(items, CHANGED), Count(items, MISSING_IN_OBSERVED),
              Count(items, NEW_IN_OBSERVED), Count(items, NOT_COMPARABLE), Some(drift)),
      items)
  }

  function Mismatch(bId: string, oId: string): Comparison {
    Comparison(
      Incomparable,
      Summary(0, 0, 0, 0, 0, 1, None),
      [DriftItem("gateway_identity", Str(bId), Str(oId), NOT_COMPARABLE)])
  }

  ghost function Compare(b: NormalizedIr, o: NormalizedIr, bId: string, oId: string): Comparison {
    if Normalize(bId) != Normalize(oId) then Mismatch(bId, oId) else Conclude(AllItems(b, o))
  }

  // The loops

  method CompareChildFields(prefix: string, b: ChildSa, o: ChildSa) returns (items: seq<DriftItem>)
    ensures items == ChildFieldItems(prefix, CHILD_FIELDS, b, o) + [EspItem(prefix, b, o)]
  {
    hide ChildFieldItems, ChildValue, ProposalValue;
    items := [];
    for i := 0 to |CHILD_FIELDS|
      invariant items + ChildFieldItems(prefix, CHILD_FIELDS[i..], b, o) == ChildFieldItems(prefix, CHILD_FIELDS, b, o)
    {
      var field := CHILD_FIELDS[i];
      var bVal, oVal := ChildValue(b, field), ChildValue(o, field);
      ChildFieldStep(prefix, i, b, o);
      ChildValuePresent(b, i);
      ChildValuePresent(o, i);
      items := items + [DriftItem(prefix + "." + field, bVal, oVal, if bVal == oVal then MATCHED else CHANGED)];
    }
    ChildFieldStep(prefix, 0, b, o);
    var bEsp, oEsp := ProposalValue(b.rawEspProposals, b.espProposals),
      ProposalValue(o.rawEspProposals, o.espProposals);
    items := items + [DriftItem(prefix + ".esp_proposals", bEsp, oEsp, if bEsp == oEsp then MATCHED else CHANGED)];
  }

  method CompareChild(prefix: string, name: string, b: map<string, ChildSa>, o: map<string, ChildSa>)
    returns (items: seq<DriftItem>)
    requires name in b || name in o
    ensures items == ChildItems(prefix, name, b, o)
  {
    var path := prefix + ".children." + name;
    if name in b && name !in o {
      items := [DriftItem(path, Str("child_sa(" + name + ")"), Absent, MISSING_IN_OBSERVED)];
    } else if name !in b && name in o {
      items := [DriftItem(path, Absent, Str("child_sa(" + name + ")"), NEW_IN_OBSERVED)];
    } else {
      items := CompareChildFields(path, b[name], o[name]);
    }
  }

  lemma ChildFieldStep(prefix: string, i: nat, b: ChildSa, o: ChildSa)
    requires i < |CHILD_FIELDS|
    ensures ChildFieldItems(prefix, CHILD_FIELDS[i..], b, o)
         == [ItemFor(prefix + "." + CHILD_FIELDS[i], ChildValue(b, CHILD_FIELDS[i]), ChildValue(o, CHILD_FIELDS[i]))]
            + ChildFieldItems(prefix, CHILD_FIELDS[i + 1..], b, o)
    ensures ChildFieldItems(prefix, CHILD_FIELDS[|CHILD_FIELDS|..], b, o) == []
  {
    hide ChildValue, ItemFor;
    assert CHILD_FIELDS[i..][1..] == CHILD_FIELDS[i + 1..];
  }

  lemma FieldStep(prefix: string, i: nat, b: Connection, o: Connection)
    requires i < |CONNECTION_FIELDS|
    ensures ConnectionFieldItems(prefix, CONNECTION_FIELDS[i..], b, o)
         == [ItemFor(prefix + "." + CONNECTION_FIELDS[i], ConnectionValue(b, CONNECTION_FIELDS[i]),
                     ConnectionValue(o, CONNECTION_FIELDS[i]))]
            + ConnectionFieldItems(prefix, CONNECTION_FIELDS[i + 1..], b, o)
    ensures ConnectionFieldItems(prefix, CONNECTION_FIELDS[|CONNECTION_FIELDS|..], b, o) == []
  {
    hide ConnectionValue, ItemFor;
    assert CONNECTION_FIELDS[i..][1..] == CONNECTION_FIELDS[i + 1..];
  }

  lemma ChildValuePresent(c: ChildSa, i: nat)
    requires i < |CHILD_FIELDS|
    ensures !ChildValue(c, CHILD_FIELDS[i]).Absent?
  {
    assert CHILD_FIELDS[i] in {"mode", "local_ts", "remote_ts", "start_action", "rekey_time", "replay_window"};
  }

  lemma ConnectionValuePresent(c: Connection, i: nat)
    requires i < |CONNECTION_FIELDS|
    ensures !ConnectionValue(c, CONNECTION_FIELDS[i]).Absent?
  {
    assert CONNECTION_FIELDS[i] in {"version", "local_addrs", "remote_addrs", "encap", "rekey_time"};
  }

  lemma RoleStep(prefix: string, i: nat, b: map<string, string>, o: map<string, string>)
    requires i < |ROLE_FIELDS|
    ensures RoleItems(prefix, ROLE_FIELDS[i..], b, o)
         == RoleItem(prefix, ROLE_FIELDS[i], b, o) + RoleItems(prefix, ROLE_FIELDS[i + 1..], b, o)
    ensures RoleItems(prefix, ROLE_FIELDS[|ROLE_FIELDS|..], b, o) == []
  {
    assert ROLE_FIELDS[i..][1..] == ROLE_FIELDS[i + 1..];
  }

  method CompareRole(prefix: string, b: map<string, string>, o: map<string, string>) returns (items: seq<DriftItem>)
    ensures items == RoleItems(prefix, ROLE_FIELDS, b, o)
  {
    hide RoleItems;
    items := [];
    for i := 0 to |ROLE_FIELDS|
      invariant items + RoleItems(prefix, ROLE_FIELDS[i..], b, o) == RoleItems(prefix, ROLE_FIELDS, b, o)
    {
      var k := ROLE_FIELDS[i];
      var bVal, oVal := RoleValue(b, k), RoleValue(o, k);
      RoleStep(prefix, i, b, o);
      if bVal.Absent? && oVal.Absent? {
        continue;
      }
      var status;
      if bVal == oVal {
        status := MATCHED;
      } else if !bVal.Absent? && oVal.Absent? {
        status := MISSING_IN_OBSERVED;
      } else if bVal.Absent? && !oVal.Absent? {
        status := NEW_IN_OBSERVED;
      } else {
        status := CHANGED;
      }
      items := items + [DriftItem(prefix + "." + k, bVal, oVal, status)];
    }
    RoleStep(prefix, 0, b, o);
  }

  method CompareFields(prefix: string, b: Connection, o: Connection) returns (items: seq<DriftItem>)
    ensures items == ConnectionFieldItems(prefix, CONNECTION_FIELDS, b, o) + [ProposalItem(prefix, b, o)]
  {
    hide ConnectionFieldItems, ConnectionValue, ProposalValue;
    items := [];
    for i := 0 to |CONNECTION_FIELDS|
      invariant items + ConnectionFieldItems(prefix, CONNECTION_FIELDS[i..], b, o)
             == ConnectionFieldItems(prefix, CONNECTION_FIELDS, b, o)
    {
      var field := CONNECTION_FIELDS[i];
      var bVal, oVal := ConnectionValue(b, field), ConnectionValue(o, field);
      FieldStep(prefix, i, b, o);
      ConnectionValuePresent(b, i);
      ConnectionValuePresent(o, i);
      items := items + [DriftItem(prefix + "." + field, bVal, oVal, if bVal == oVal then MATCHED else CHANGED)];
    }
    FieldStep(prefix, 0, b, o);
    var bProps, oProps := ProposalValue(b.rawProposals, b.proposals), ProposalValue(o.rawProposals, o.proposals);
    items := items + [DriftItem(prefix + ".proposals", bProps, oProps, if bProps == oProps then MATCHED else CHANGED)];
  }

  lemma InSorted(names: set<string>, i: nat)
    requires i < |Names.Sorted(names)|
    ensures Names.Sorted(names)[i] in names
  {
    Names.SortedMeaning(names);
  }

  lemma ChildrenStep(prefix: string, names: seq<string>, i: nat, b: map<string, ChildSa>, o: map<string, ChildSa>)
    requires i < |names|
    ensures ChildrenItems(prefix, names[i..], b, o)
         == ChildItems(prefix, names[i], b, o) + ChildrenItems(prefix, names[i + 1..], b, o)
  {
    assert names[i..][1..] == names[i + 1..];
  }

  method CompareChildren(prefix: string, b: map<string, ChildSa>, o: map<string, ChildSa>)
    returns (items: seq<DriftItem>)
    ensures items == ChildrenItems(prefix, Names.Sorted(b.Keys + o.Keys), b, o)
  {
    hide ChildItems, Names.Sorted;
    var names := Names.Sort(b.Keys + o.Keys);
    items := [];
    assert names[0..] == names;
    for i := 0 to |names|
      invariant items + ChildrenItems(prefix, names[i..], b, o) == ChildrenItems(prefix, names, b, o)
    {
      InSorted(b.Keys + o.Keys, i);
      ChildrenStep(prefix, names, i, b, o);
      var child := CompareChild(prefix, names[i], b, o);
      items := items + child;
    }
  }

  method ComparePair(prefix: string, b: Connection, o: Connection) returns (items: seq<DriftItem>)
    ensures items == PairItems(prefix, b, o)
  {
    items := CompareFields(prefix, b, o);
    var local := CompareRole(prefix + ".local", b.local, o.local);
    var remote := CompareRole(prefix + ".remote", b.remote, o.remote);
    var children := CompareChildren(prefix, b.children, o.children);
    items := items + local + remote + children;
  }

  lemma ConnectionsStep(names: seq<string>, i: nat, b: map<string, Connection>, o: map<string, Connection>)
    requires i < |names|
    ensures ConnectionsItems(names[i..], b, o)
      == ConnectionItems(names[i], b, o) + ConnectionsItems(names[i + 1..], b, o)
  {
    assert names[i..][1..] == names[i + 1..];
  }

  lemma ConnectionsEnd(b: map<string, Connection>, o: map<string, Connection>)
    ensures ConnectionsItems([], b, o) == []
  {}

  method CompareConnections(b: map<string, Connection>, o: map<string, Connection>) returns (items: seq<DriftItem>)
    ensures items == ConnectionsItems(Names.Sorted(b.Keys + o.Keys), b, o)
  {
    hide PairItems, ConnectionsItems, Names.Sorted;
    var names := Names.Sort(b.Keys + o.Keys);
    items := [];
    assert names[0..] == names;
    for i := 0 to |names|
      invariant items + ConnectionsItems(names[i..], b, o) == ConnectionsItems(names, b, o)
    {
      var name := names[i];
      InSorted(b.Keys + o.Keys, i);
      ConnectionsStep(names, i, b, o);
      var found;
      if name in b && name !in o {
        found := [DriftItem("connections." + name, Str("connection(" + name + ")"), Absent, MISSING_IN_OBSERVED)];
      } else if name !in b && name in o {
        found := [DriftItem("connections." + name, Absent, Str("connection(" + name + ")"), NEW_IN_OBSERVED)];
      } else {
        found := ComparePair("connections." + name, b[name], o[name]);
      }
      items := items + found;
    }
    assert names[|names|..] == [] && ConnectionsItems([], b, o) == [] by { ConnectionsEnd(b, o); }
  }

  method CompareSnapshots(b: NormalizedIr, o: NormalizedIr, bId: string, oId: string) returns (r: Comparison)
    ensures r == Compare(b, o, bId, oId)
  {
    if Normalize(bId) != Normalize(oId) {
      return Mismatch(bId, oId);
    }
    var items := CompareConnections(b.connections, o.connections);
    return Conclude(items + [SECRETS_ITEM]);
  }
}

/** What a comparison outcome says about the two configurations, and how it relates to their digests. */
module DriftLaws {
  import opened Wrappers
  import opened Text
  import opened Proposals
  import opened SwanctlIr
  import opened Parser
  import opened Drift
  import opened Forest
  import opened Meaning
  import opened Views
  import Names

  predicate Quiet(items: seq<DriftItem>) {
    forall i :: 0 <= i < |items| ==> items[i].status in {MATCHED, NOT_COMPARABLE}
  }

  lemma {:induction false} CountZero(items: seq<DriftItem>, status: FieldStatus)
    ensures Count(items, status) == 0 <==> forall i :: 0 <= i < |items| ==> items[i].status != status
  {
    if items != [] { CountZero(items[1..], status); }
  }

  /** A comparison reports no drift exactly when no item is changed, missing or new. */
  lemma QuietIsMatched(items: seq<DriftItem>)
    ensures Conclude(items).status == Matched <==> Quiet(items)
  {
    CountZero(items, CHANGED);
    CountZero(items, MISSING_IN_OBSERVED);
    CountZero(items, NEW_IN_OBSERVED);
  }

  lemma {:induction false} CountsPartition(items: seq<DriftItem>)
    ensures Count(items, MATCHED) + Count(items, CHANGED) + Count(items, MISSING_IN_OBSERVED)
          + Count(items, NEW_IN_OBSERVED) + Count(items, NOT_COMPARABLE) == |items|
  {
    if items != [] { CountsPartition(items[1..]); }
  }

  /** The five counts add up to the total exactly when the two snapshots name the same gateway. */
  lemma CountsSumToTotal(b: NormalizedIr, o: NormalizedIr, bId: string, oId: string)
    ensures var s := Compare(b, o, bId, oId).summary;
      s.matched + s.changed + s.missing + s.added + s.notComparable == s.totalFields
      <==> Normalize(bId) == Normalize(oId)
  {
    CountsPartition(AllItems(b, o));
  }

  // Matching means equal up to empty proposal texts

  function WithoutBlank(raw: Option<string>): Option<string> {
    if raw == Some("") then None else raw
  }

  function CanonicalChild(c: ChildSa): ChildSa {
    c.(rawEspProposals := WithoutBlank(c.rawEspProposals))
  }

  function CanonicalChildren(m: map<string, ChildSa>): map<string, ChildSa> {
    map n | n in m :: CanonicalChild(m[n])
  }

  function CanonicalConnection(c: Connection): Connection {
    c.(rawProposals := WithoutBlank(c.rawProposals), children := CanonicalChildren(c.children))
  }

  function Canonical(conns: map<string, Connection>): map<string, Connection> {
    map n | n in conns :: CanonicalConnection(conns[n])
  }

  lemma ProposalsMatch(b: Option<string>, o: Option<string>, bs: seq<Proposal>, os: seq<Proposal>)
    requires bs == if b.Some? then ParseProposalsList(b.value) else []
    requires os == if o.Some? then ParseProposalsList(o.value) else []
    ensures ProposalValue(b, bs) == ProposalValue(o, os) <==> WithoutBlank(b) == WithoutBlank(o)
    ensures WithoutBlank(b) == WithoutBlank(o) ==> bs == os
  {
    hide ParseProposalsList;
    EmptyListHasNoProposals();
  }

  lemma {:induction false} QuietAppend(a: seq<DriftItem>, b: seq<DriftItem>)
    ensures Quiet(a + b) <==> Quiet(a) && Quiet(b)
  {
    if Quiet(a + b) {
      forall i | 0 <= i < |a| ensures a[i].status in {MATCHED, NOT_COMPARABLE} { assert (a + b)[i] == a[i]; }
      forall i | 0 <= i < |b| ensures b[i].status in {MATCHED, NOT_COMPARABLE} { assert (a + b)[|a| + i] == b[i]; }
    }
  }

  lemma QuietOne(path: string, b: FieldValue, o: FieldValue)
    ensures Quiet([ItemFor(path, b, o)]) <==> b == o
  {
    if b != o { assert [ItemFor(path, b, o)][0].status !in {MATCHED, NOT_COMPARABLE}; }
  }

  lemma {:induction false} ChildFieldsQuiet(prefix: string, fields: seq<string>, b: ChildSa, o: ChildSa)
    ensures Quiet(ChildFieldItems(prefix, fields, b, o))
      <==> forall f :: f in fields ==> ChildValue(b, f) == ChildValue(o, f)
    decreases |fields|
  {
    hide ChildValue;
    if fields != [] {
      var f := fields[0];
      ChildFieldsQuiet(prefix, fields[1..], b, o);
      QuietOne(prefix + "." + f, ChildValue(b, f), ChildValue(o, f));
      QuietAppend([ItemFor(prefix + "." + f, ChildValue(b, f), ChildValue(o, f))],
        ChildFieldItems(prefix, fields[1..], b, o));
      assert forall g :: g in fields <==> g == f || g in fields[1..];
    }
  }

  lemma ChildValuesEqual(b: ChildSa, o: ChildSa)
    requires b.name == o.name
    ensures (forall f :: f in CHILD_FIELDS ==> ChildValue(b, f) == ChildValue(o, f))
      <==> b == o.(espProposals := b.espProposals, rawEspProposals := b.rawEspProposals)
  {
    if forall f :: f in CHILD_FIELDS ==> ChildValue(b, f) == ChildValue(o, f) {
      forall i | 0 <= i < |CHILD_FIELDS| ensures ChildValue(b, CHILD_FIELDS[i]) == ChildValue(o, CHILD_FIELDS[i]) {}
      assert CHILD_FIELDS[0] == "mode" && CHILD_FIELDS[1] == "local_ts" && CHILD_FIELDS[2] == "remote_ts";
      assert CHILD_FIELDS[3] == "start_action" && CHILD_FIELDS[4] == "rekey_time" && CHILD_FIELDS[5] == "replay_window";
    }
  }

  lemma ChildQuiet(prefix: string, name: string, b: map<string, ChildSa>, o: map<string, ChildSa>)
    requires name in b ==> ChildWellFormed(name, b[name])
    requires name in o ==> ChildWellFormed(name, o[name])
    requires name in b || name in o
    ensures Quiet(ChildItems(prefix, name, b, o))
      <==> name in b && name in o && CanonicalChild(b[name]) == CanonicalChild(o[name])
  {
    hide ParseProposalsList;
    var path := prefix + ".children." + name;
    if name in b && name in o {
      var x, y := b[name], o[name];
      ChildFieldsQuiet(path, CHILD_FIELDS, x, y);
      ChildValuesEqual(x, y);
      ProposalsMatch(x.rawEspProposals, y.rawEspProposals, x.espProposals, y.espProposals);
      QuietOne(path + ".esp_proposals", ProposalValue(x.rawEspProposals, x.espProposals),
               ProposalValue(y.rawEspProposals, y.espProposals));
      QuietAppend(ChildFieldItems(path, CHILD_FIELDS, x, y), [EspItem(path, x, y)]);
    } else if name in b {
      QuietOne(path, Str("child_sa(" + name + ")"), Absent);
    } else {
      QuietOne(path, Absent, Str("child_sa(" + name + ")"));
    }
  }

  ghost predicate SameChild(n: string, b: map<string, ChildSa>, o: map<string, ChildSa>) {
    n in b && n in o && CanonicalChild(b[n]) == CanonicalChild(o[n])
  }

  lemma NothingIsQuiet()
    ensures Quiet([])
  {}

  lemma SameChildIs(n: string, b: map<string, ChildSa>, o: map<string, ChildSa>)
    ensures SameChild(n, b, o) <==> n in b && n in o && CanonicalChild(b[n]) == CanonicalChild(o[n])
  {}

  lemma {:induction false} ChildrenQuiet(
      prefix: string, names: seq<string>, b: map<string, ChildSa>, o: map<string, ChildSa>)
    requires forall n :: n in b ==> ChildWellFormed(n, b[n])
    requires forall n :: n in o ==> ChildWellFormed(n, o[n])
    requires forall n :: n in names ==> n in b || n in o
    ensures Quiet(ChildrenItems(prefix, names, b, o)) <==> forall n :: n in names ==> SameChild(n, b, o)
    decreases |names|
  {
    hide CanonicalChild, ChildWellFormed, ChildItems, Quiet, SameChild;
    if names == [] {
      assert Quiet(ChildrenItems(prefix, names, b, o)) by { NothingIsQuiet(); }
    } else {
      ChildrenQuiet(prefix, names[1..], b, o);
      ChildQuiet(prefix, names[0], b, o);
      SameChildIs(names[0], b, o);
      QuietAppend(ChildItems(prefix, names[0], b, o), ChildrenItems(prefix, names[1..], b, o));
      assert forall n :: n in names <==> n == names[0] || n in names[1..];
      assert (forall n :: n in names ==> SameChild(n, b, o))
        <==> SameChild(names[0], b, o) && forall n :: n in names[1..] ==> SameChild(n, b, o);
    }
  }

  lemma {:induction false} RoleQuiet(prefix: string, keys: seq<string>, b: map<string, string>, o: map<string, string>)
    ensures Quiet(RoleItems(prefix, keys, b, o)) <==> forall k :: k in keys ==> RoleValue(b, k) == RoleValue(o, k)
    decreases |keys|
  {
    if keys != [] {
      var k := keys[0];
      RoleQuiet(prefix, keys[1..], b, o);
      QuietOne(prefix + "." + k, RoleValue(b, k), RoleValue(o, k));
      QuietAppend(RoleItem(prefix, k, b, o), RoleItems(prefix, keys[1..], b, o));
      assert forall j :: j in keys <==> j == k || j in keys[1..];
    }
  }

  lemma RolesEqual(b: map<string, string>, o: map<string, string>)
    requires b.Keys <= ROLE_KEYS && o.Keys <= ROLE_KEYS
    ensures (forall k :: k in ROLE_FIELDS ==> RoleValue(b, k) == RoleValue(o, k)) <==> b == o
  {
    assert forall k :: k in ROLE_KEYS <==> k in ROLE_FIELDS by {
      assert ROLE_FIELDS[0] == "id" && ROLE_FIELDS[1] == "auth" && ROLE_FIELDS[2] == "certs"
        && ROLE_FIELDS[3] == "cacerts";
    }
    if forall k :: k in ROLE_FIELDS ==> RoleValue(b, k) == RoleValue(o, k) {
      forall k ensures k in b <==> k in o ensures k in b ==> b[k] == o[k] {
        if k in b || k in o { assert k in ROLE_KEYS; assert RoleValue(b, k) == RoleValue(o, k); }
      }
    }
  }

  lemma {:induction false} FieldsQuiet(prefix: string, fields: seq<string>, b: Connection, o: Connection)
    ensures Quiet(ConnectionFieldItems(prefix, fields, b, o))
      <==> forall f :: f in fields ==> ConnectionValue(b, f) == ConnectionValue(o, f)
    decreases |fields|
  {
    hide ConnectionValue;
    if fields != [] {
      var f := fields[0];
      FieldsQuiet(prefix, fields[1..], b, o);
      QuietOne(prefix + "." + f, ConnectionValue(b, f), ConnectionValue(o, f));
      QuietAppend([ItemFor(prefix + "." + f, ConnectionValue(b, f), ConnectionValue(o, f))],
                  ConnectionFieldItems(prefix, fields[1..], b, o));
      assert forall g :: g in fields <==> g == f || g in fields[1..];
    }
  }

  predicate SameScalars(b: Connection, o: Connection) {
    && b.version == o.version && b.localAddrs == o.localAddrs && b.remoteAddrs == o.remoteAddrs
    && b.encap == o.encap && b.rekeyTime == o.rekeyTime
  }

  lemma ConnectionValuesEqual(b: Connection, o: Connection)
    ensures (forall f :: f in CONNECTION_FIELDS ==> ConnectionValue(b, f) == ConnectionValue(o, f))
      <==> SameScalars(b, o)
  {
    if forall f :: f in CONNECTION_FIELDS ==> ConnectionValue(b, f) == ConnectionValue(o, f) {
      forall i | 0 <= i < |CONNECTION_FIELDS|
        ensures ConnectionValue(b, CONNECTION_FIELDS[i]) == ConnectionValue(o, CONNECTION_FIELDS[i]) {}
      assert CONNECTION_FIELDS[0] == "version" && CONNECTION_FIELDS[1] == "local_addrs";
      assert CONNECTION_FIELDS[2] == "remote_addrs" && CONNECTION_FIELDS[3] == "encap"
        && CONNECTION_FIELDS[4] == "rekey_time";
    }
  }

  lemma PairParts(prefix: string, b: Connection, o: Connection)
    ensures Quiet(PairItems(prefix, b, o)) <==>
      && Quiet(ConnectionFieldItems(prefix, CONNECTION_FIELDS, b, o))
      && Quiet([ProposalItem(prefix, b, o)])
      && Quiet(RoleItems(prefix + ".local", ROLE_FIELDS, b.local, o.local))
      && Quiet(RoleItems(prefix + ".remote", ROLE_FIELDS, b.remote, o.remote))
      && Quiet(ChildrenItems(prefix, Names.Sorted(b.children.Keys + o.children.Keys), b.children, o.children))
  {
    hide Quiet, ProposalItem, RoleItems, ChildrenItems, ConnectionFieldItems, Names.Sorted;
    var fields := ConnectionFieldItems(prefix, CONNECTION_FIELDS, b, o);
    var props := [ProposalItem(prefix, b, o)];
    var local := RoleItems(prefix + ".local", ROLE_FIELDS, b.local, o.local);
    var remote := RoleItems(prefix + ".remote", ROLE_FIELDS, b.remote, o.remote);
    var children := ChildrenItems(prefix, Names.Sorted(b.children.Keys + o.children.Keys), b.children, o.children);
    QuietAppend(fields, props);
    QuietAppend(fields + props, local);
    QuietAppend(fields + props + local, remote);
    QuietAppend(fields + props + local + remote, children);
  }

  lemma RoleMatches(prefix: string, b: map<string, string>, o: map<string, string>)
    requires b.Keys <= ROLE_KEYS && o.Keys <= ROLE_KEYS
    ensures Quiet(RoleItems(prefix, ROLE_FIELDS, b, o)) <==> b == o
  {
    RoleQuiet(prefix, ROLE_FIELDS, b, o);
    RolesEqual(b, o);
  }

  lemma FieldsMatch(prefix: string, b: Connection, o: Connection)
    ensures Quiet(ConnectionFieldItems(prefix, CONNECTION_FIELDS, b, o)) <==> SameScalars(b, o)
  {
    FieldsQuiet(prefix, CONNECTION_FIELDS, b, o);
    ConnectionValuesEqual(b, o);
  }

  lemma ChildrenMatch(prefix: string, b: map<string, ChildSa>, o: map<string, ChildSa>)
    requires forall n :: n in b ==> ChildWellFormed(n, b[n])
    requires forall n :: n in o ==> ChildWellFormed(n, o[n])
    ensures Quiet(ChildrenItems(prefix, Names.Sorted(b.Keys + o.Keys), b, o))
      <==> CanonicalChildren(b) == CanonicalChildren(o)
  {
    hide ChildWellFormed;
    Names.SortedMeaning(b.Keys + o.Keys);
    ChildrenQuiet(prefix, Names.Sorted(b.Keys + o.Keys), b, o);
    ChildrenCanonical(b, o);
  }

  lemma ProposalMatches(prefix: string, name: string, b: Connection, o: Connection)
    requires ConnectionWellFormed(name, b) && ConnectionWellFormed(name, o)
    ensures Quiet([ProposalItem(prefix, b, o)]) <==> WithoutBlank(b.rawProposals) == WithoutBlank(o.rawProposals)
    ensures WithoutBlank(b.rawProposals) == WithoutBlank(o.rawProposals) ==> b.proposals == o.proposals
  {
    hide ParseProposalsList;
    ProposalsMatch(b.rawProposals, o.rawProposals, b.proposals, o.proposals);
    QuietOne(prefix + ".proposals", ProposalValue(b.rawProposals, b.proposals),
      ProposalValue(o.rawProposals, o.proposals));
  }

  lemma CanonicalEqual(b: Connection, o: Connection)
    requires b.name == o.name
    ensures CanonicalConnection(b) == CanonicalConnection(o) <==>
      && SameScalars(b, o)
      && WithoutBlank(b.rawProposals) == WithoutBlank(o.rawProposals) && b.proposals == o.proposals
      && b.local == o.local && b.remote == o.remote
      && CanonicalChildren(b.children) == CanonicalChildren(o.children)
  {
    hide CanonicalChildren, WithoutBlank;
  }

  /** Two versions of one connection compare without drift exactly when they are canonically equal. */
  lemma PairQuiet(prefix: string, name: string, b: Connection, o: Connection)
    requires ConnectionWellFormed(name, b) && ConnectionWellFormed(name, o)
    ensures Quiet(PairItems(prefix, b, o)) <==> CanonicalConnection(b) == CanonicalConnection(o)
  {
    hide ParseProposalsList, ProposalValue, RoleItems, ChildrenItems, ConnectionFieldItems, CanonicalChildren, Quiet,
      PairItems, Names.Sorted, ItemFor, ChildWellFormed, ProposalItem, CanonicalConnection, SameScalars, WithoutBlank;
    PairParts(prefix, b, o);
    FieldsMatch(prefix, b, o);
    ProposalMatches(prefix, name, b, o);
    RoleMatches(prefix + ".local", b.local, o.local);
    RoleMatches(prefix + ".remote", b.remote, o.remote);
    ChildrenMatch(prefix, b.children, o.children);
    CanonicalEqual(b, o);
  }

  lemma ChildrenCanonical(b: map<string, ChildSa>, o: map<string, ChildSa>)
    ensures CanonicalChildren(b) == CanonicalChildren(o) <==> forall n :: n in b.Keys + o.Keys ==> SameChild(n, b, o)
  {
    var x, y := CanonicalChildren(b), CanonicalChildren(o);
    if x == y {
      forall n | n in b.Keys + o.Keys ensures SameChild(n, b, o) { assert n in x && n in y; }
    }
    if forall n :: n in b.Keys + o.Keys ==> SameChild(n, b, o) {
      forall n ensures n in x <==> n in y ensures n in x ==> x[n] == y[n] {
        if n in b.Keys + o.Keys { assert SameChild(n, b, o); }
      }
    }
  }

  ghost predicate SameConnection(n: string, b: map<string, Connection>, o: map<string, Connection>) {
    n in b && n in o && CanonicalConnection(b[n]) == CanonicalConnection(o[n])
  }

  lemma ConnectionQuiet(n: string, b: map<string, Connection>, o: map<string, Connection>)
    requires WellFormed(b) && WellFormed(o) && (n in b || n in o)
    ensures Quiet(ConnectionItems(n, b, o)) <==> SameConnection(n, b, o)
  {
    hide CanonicalConnection, ConnectionWellFormed, PairItems;
    var path := "connections." + n;
    if n in b && n in o {
      PairQuiet(path, n, b[n], o[n]);
    } else if n in b {
      QuietOne(path, Str("connection(" + n + ")"), Absent);
    } else {
      QuietOne(path, Absent, Str("connection(" + n + ")"));
    }
  }

  lemma {:induction false} ConnectionsQuiet(names: seq<string>, b: map<string, Connection>, o: map<string, Connection>)
    requires WellFormed(b) && WellFormed(o) && forall n :: n in names ==> n in b || n in o
    ensures Quiet(ConnectionsItems(names, b, o)) <==> forall n :: n in names ==> SameConnection(n, b, o)
    decreases |names|
  {
    hide CanonicalConnection, ConnectionWellFormed, ConnectionItems;
    if names != [] {
      ConnectionsQuiet(names[1..], b, o);
      ConnectionQuiet(names[0], b, o);
      QuietAppend(ConnectionItems(names[0], b, o), ConnectionsItems(names[1..], b, o));
      assert forall n :: n in names <==> n == names[0] || n in names[1..];
      assert (forall n :: n in names ==> SameConnection(n, b, o))
        <==> SameConnection(names[0], b, o) && forall n :: n in names[1..] ==> SameConnection(n, b, o);
    }
  }

  lemma ConnectionsCanonical(b: map<string, Connection>, o: map<string, Connection>)
    ensures Canonical(b) == Canonical(o) <==> forall n :: n in b.Keys + o.Keys ==> SameConnection(n, b, o)
  {
    hide CanonicalConnection;
    var x, y := Canonical(b), Canonical(o);
    if x == y {
      forall n | n in b.Keys + o.Keys ensures SameConnection(n, b, o) { assert n in x && n in y; }
    }
    if forall n :: n in b.Keys + o.Keys ==> SameConnection(n, b, o) {
      forall n ensures n in x <==> n in y ensures n in x ==> x[n] == y[n] {
        if n in b.Keys + o.Keys { assert SameConnection(n, b, o); }
      }
    }
  }

  /** For snapshots of one gateway, MATCHED says: equal connections once empty proposal texts count as absent. */
  lemma MatchedMeansCanonicallyEqual(b: NormalizedIr, o: NormalizedIr, bId: string, oId: string)
    requires WellFormed(b.connections) && WellFormed(o.connections)
    ensures Compare(b, o, bId, oId).status == Matched
      <==> Normalize(bId) == Normalize(oId) && Canonical(b.connections) == Canonical(o.connections)
  {
    hide Canonical, WellFormed, Names.Sorted, Normalize, ConnectionsItems, SameConnection, Count, Quiet;
    var names := Names.Sorted(b.connections.Keys + o.connections.Keys);
    Names.SortedMeaning(b.connections.Keys + o.connections.Keys);
    ConnectionsQuiet(names, b.connections, o.connections);
    ConnectionsCanonical(b.connections, o.connections);
    QuietAppend(ConnectionsItems(names, b.connections, o.connections), [SECRETS_ITEM]);
    SecretsAreQuiet();
    QuietIsMatched(AllItems(b, o));
  }

  lemma SecretsAreQuiet()
    ensures Quiet([SECRETS_ITEM])
  {}

  // The digest is the fast test of the same thing, but for empty proposal texts

  predicate SameBlank(b: Option<string>, o: Option<string>) {
    b == Some("") <==> o == Some("")
  }

  /** Where both sides have an entry, an empty proposal text stands on both sides or on neither. */
  ghost predicate BlanksAgree(b: map<string, Connection>, o: map<string, Connection>) {
    forall n :: n in b && n in o ==>
      && SameBlank(b[n].rawProposals, o[n].rawProposals)
      && forall k :: k in b[n].children && k in o[n].children ==>
           SameBlank(b[n].children[k].rawEspProposals, o[n].children[k].rawEspProposals)
  }

  lemma ChildrenFromCanonical(b: map<string, ChildSa>, o: map<string, ChildSa>)
    requires CanonicalChildren(b) == CanonicalChildren(o)
    requires forall k :: k in b && k in o ==> SameBlank(b[k].rawEspProposals, o[k].rawEspProposals)
    ensures b == o
  {
    var x, y := CanonicalChildren(b), CanonicalChildren(o);
    forall k ensures k in b <==> k in o ensures k in b ==> b[k] == o[k] {
      assert k in x <==> k in b;
      assert k in y <==> k in o;
      if k in b {
        var c, d := b[k], o[k];
        assert CanonicalChild(c) == CanonicalChild(d);
        assert c == CanonicalChild(c).(rawEspProposals := c.rawEspProposals);
        assert d == CanonicalChild(d).(rawEspProposals := d.rawEspProposals);
      }
    }
  }

  lemma ConnectionFromCanonical(b: Connection, o: Connection)
    requires CanonicalConnection(b) == CanonicalConnection(o)
    requires SameBlank(b.rawProposals, o.rawProposals)
    requires b.children == o.children
    ensures b == o
  {
    hide CanonicalChildren;
    assert b == CanonicalConnection(b).(rawProposals := b.rawProposals, children := b.children);
    assert o == CanonicalConnection(o).(rawProposals := o.rawProposals, children := o.children);
  }

  lemma ConnectionsFromCanonical(b: map<string, Connection>, o: map<string, Connection>)
    requires Canonical(b) == Canonical(o) && BlanksAgree(b, o)
    ensures b == o
  {
    hide CanonicalChildren;
    var x, y := Canonical(b), Canonical(o);
    forall n ensures n in b <==> n in o ensures n in b ==> b[n] == o[n] {
      assert n in x <==> n in b;
      assert n in y <==> n in o;
      if n in b {
        assert CanonicalConnection(b[n]) == CanonicalConnection(o[n]);
        ChildrenFromCanonical(b[n].children, o[n].children);
        ConnectionFromCanonical(b[n], o[n]);
      }
    }
  }

  /** Equal digests are exactly a MATCHED comparison whose empty proposal texts agree. */
  lemma DigestAgreesWithComparison(b: NormalizedIr, o: NormalizedIr, bId: string, oId: string, sha: Digester)
    requires WellFormed(b.connections) && WellFormed(o.connections) && b.format == o.format
    requires Normalize(bId) == Normalize(oId) && Injective(sha)
    ensures sha(ViewOf(b)) == sha(ViewOf(o))
      <==> Compare(b, o, bId, oId).status == Matched && BlanksAgree(b.connections, o.connections)
  {
    hide Compare, Canonical, Normalize;
    MatchedMeansCanonicallyEqual(b, o, bId, oId);
    if Canonical(b.connections) == Canonical(o.connections) && BlanksAgree(b.connections, o.connections) {
      ConnectionsFromCanonical(b.connections, o.connections);
    }
  }

  /** The gap is real: an empty `proposals` setting matches an absent one, yet the digests differ. */
  lemma EmptyProposalsGap(id: string, sha: Digester)
    requires Injective(sha)
    ensures var absent := DefaultConnection("gw");
      var empty := absent.(rawProposals := Some(""));
      var b := NormalizedIr("SWANCTL", "6.0.4", map["gw" := absent], map[]);
      var o := NormalizedIr("SWANCTL", "6.0.4", map["gw" := empty], map[]);
      && SetConnection(absent, "proposals", "") == Some(empty)
      && Compare(b, o, id, id).status == Matched
      && sha(ViewOf(b)) != sha(ViewOf(o))
  {
    EmptyListHasNoProposals();
    var absent := DefaultConnection("gw");
    var empty := absent.(rawProposals := Some(""));
    var b := NormalizedIr("SWANCTL", "6.0.4", map["gw" := absent], map[]);
    var o := NormalizedIr("SWANCTL", "6.0.4", map["gw" := empty], map[]);
    assert b.connections["gw"] != o.connections["gw"];
    assert Canonical(b.connections) == Canonical(o.connections);
    MatchedMeansCanonicallyEqual(b, o, id, id);
  }

  /** MATCHED is symmetric and transitive, and reflexive, among well-formed snapshots. */
  lemma MatchedIsEquivalence(a: NormalizedIr, b: NormalizedIr, c: NormalizedIr, x: string, y: string, z: string)
    requires WellFormed(a.connections) && WellFormed(b.connections) && WellFormed(c.connections)
    ensures Compare(a, a, x, x).status == Matched
    ensures Compare(a, b, x, y).status == Matched ==> Compare(b, a, y, x).status == Matched
    ensures Compare(a, b, x, y).status == Matched && Compare(b, c, y, z).status == Matched
      ==> Compare(a, c, x, z).status == Matched
  {
    hide Compare, Canonical, Normalize, WellFormed;
    MatchedMeansCanonicallyEqual(a, a, x, x);
    MatchedMeansCanonicallyEqual(a, b, x, y);
    MatchedMeansCanonicallyEqual(b, a, y, x);
    MatchedMeansCanonicallyEqual(b, c, y, z);
    MatchedMeansCanonicallyEqual(a, c, x, z);
  }

  // Compared values are configured values

  /** What a connection field shows in a comparison: the last value its block sets under that name, or the default. */
  lemma FieldsShowConfiguration(body: Forest, n: string)
    ensures var c := ConnectionOf(body, DefaultConnection(n));
      && ConnectionValue(c, "local_addrs") == Str(LastValue(body, "local_addrs").GetOr("%any"))
      && ConnectionValue(c, "remote_addrs") == Str(LastValue(body, "remote_addrs").GetOr("%any"))
      && ConnectionValue(c, "rekey_time") == Str(LastValue(body, "rekey_time").GetOr("14400s"))
      && ConnectionValue(c, "version") == Num(ParseInt(LastValue(body, "version").GetOr("")).GetOr(2))
      && ConnectionValue(c, "encap") == Truth(SaysYes(LastValue(body, "encap").GetOr("")))
  {
    ConnectionOfFields(body, DefaultConnection(n));
    BlankDefaults();
    hide ParseInt, SaysYes, LastValue;
  }

  lemma ChildFieldsShowConfiguration(body: Forest, n: string)
    ensures var c := ChildOf(body, DefaultChild(n));
      && ChildValue(c, "mode") == Str(LastValue(body, "mode").GetOr("tunnel"))
      && ChildValue(c, "local_ts") == Str(LastValue(body, "local_ts").GetOr("0.0.0.0/0"))
      && ChildValue(c, "remote_ts") == Str(LastValue(body, "remote_ts").GetOr("0.0.0.0/0"))
      && ChildValue(c, "start_action") == Str(LastValue(body, "start_action").GetOr("start"))
      && ChildValue(c, "rekey_time") == Str(LastValue(body, "rekey_time").GetOr("3600s"))
      && ChildValue(c, "replay_window") == Num(ParseInt(LastValue(body, "replay_window").GetOr("")).GetOr(64))
  {
    ChildOfFields(body, DefaultChild(n));
    BlankDefaults();
    hide ParseInt, LastValue;
  }

  lemma BlankDefaults()
    ensures ParseInt("") == None && !SaysYes("")
  {
    assert Strip("") == "";
    assert |Lower("")| == 0;
  }

  // Swapping the two sides

  function SwapStatus(s: FieldStatus): FieldStatus {
    match s
    case MISSING_IN_OBSERVED => NEW_IN_OBSERVED
    case NEW_IN_OBSERVED => MISSING_IN_OBSERVED
    case _ => s
  }

  /** The item seen from the other side. */
  function SwapItem(i: DriftItem): DriftItem {
    DriftItem(i.path, i.observed, i.baseline, SwapStatus(i.status))
  }

  function SwapAll(items: seq<DriftItem>): seq<DriftItem> {
    if items == [] then [] else [SwapItem(items[0])] + SwapAll(items[1..])
  }

  lemma {:induction false} SwapAppend(a: seq<DriftItem>, b: seq<DriftItem>)
    ensures SwapAll(a + b) == SwapAll(a) + SwapAll(b)
  {
    if a == [] {
      assert a + b == b;
    } else {
      assert (a + b)[1..] == a[1..] + b;
      SwapAppend(a[1..], b);
    }
  }

  lemma SwapOne(path: string, b: FieldValue, o: FieldValue)
    ensures SwapAll([ItemFor(path, b, o)]) == [ItemFor(path, o, b)]
  {
    assert [ItemFor(path, b, o)][1..] == [];
  }

  lemma {:induction false} SwapChildFields(prefix: string, fields: seq<string>, b: ChildSa, o: ChildSa)
    ensures SwapAll(ChildFieldItems(prefix, fields, b, o)) == ChildFieldItems(prefix, fields, o, b)
    decreases |fields|
  {
    hide ChildValue, ItemFor;
    if fields != [] {
      var x, y := ChildValue(b, fields[0]), ChildValue(o, fields[0]);
      SwapOne(prefix + "." + fields[0], x, y);
      SwapChildFields(prefix, fields[1..], b, o);
      SwapAppend([ItemFor(prefix + "." + fields[0], x, y)], ChildFieldItems(prefix, fields[1..], b, o));
    }
  }

  lemma {:induction false} SwapFields(prefix: string, fields: seq<string>, b: Connection, o: Connection)
    ensures SwapAll(ConnectionFieldItems(prefix, fields, b, o)) == ConnectionFieldItems(prefix, fields, o, b)
    decreases |fields|
  {
    hide ConnectionValue, ItemFor;
    if fields != [] {
      var x, y := ConnectionValue(b, fields[0]), ConnectionValue(o, fields[0]);
      SwapOne(prefix + "." + fields[0], x, y);
      SwapFields(prefix, fields[1..], b, o);
      SwapAppend([ItemFor(prefix + "." + fields[0], x, y)], ConnectionFieldItems(prefix, fields[1..], b, o));
    }
  }

  lemma {:induction false} SwapRole(prefix: string, keys: seq<string>, b: map<string, string>, o: map<string, string>)
    ensures SwapAll(RoleItems(prefix, keys, b, o)) == RoleItems(prefix, keys, o, b)
    decreases |keys|
  {
    hide RoleValue, ItemFor;
    if keys != [] {
      SwapOne(prefix + "." + keys[0], RoleValue(b, keys[0]), RoleValue(o, keys[0]));
      SwapRole(prefix, keys[1..], b, o);
      SwapAppend(RoleItem(prefix, keys[0], b, o), RoleItems(prefix, keys[1..], b, o));
    }
  }

  lemma SwapChild(prefix: string, n: string, b: map<string, ChildSa>, o: map<string, ChildSa>)
    requires n in b || n in o
    ensures SwapAll(ChildItems(prefix, n, b, o)) == ChildItems(prefix, n, o, b)
  {
    hide ProposalValue, ChildFieldItems, ItemFor, SwapAll;
    var path := prefix + ".children." + n;
    if n in b && n in o {
      SwapChildFields(path, CHILD_FIELDS, b[n], o[n]);
      SwapOne(path + ".esp_proposals", ProposalValue(b[n].rawEspProposals, b[n].espProposals),
              ProposalValue(o[n].rawEspProposals, o[n].espProposals));
      SwapAppend(ChildFieldItems(path, CHILD_FIELDS, b[n], o[n]), [EspItem(path, b[n], o[n])]);
    } else {
      var tag := Str("child_sa(" + n + ")");
      SwapOne(path, if n in b then tag else Absent, if n in b then Absent else tag);
    }
  }

  lemma {:induction false} SwapChildren(
      prefix: string, names: seq<string>, b: map<string, ChildSa>, o: map<string, ChildSa>)
    requires forall n :: n in names ==> n in b || n in o
    ensures SwapAll(ChildrenItems(prefix, names, b, o)) == ChildrenItems(prefix, names, o, b)
    decreases |names|
  {
    hide ChildItems;
    if names != [] {
      SwapChild(prefix, names[0], b, o);
      SwapChildren(prefix, names[1..], b, o);
      SwapAppend(ChildItems(prefix, names[0], b, o), ChildrenItems(prefix, names[1..], b, o));
    }
  }

  lemma SwapPair(prefix: string, b: Connection, o: Connection)
    ensures SwapAll(PairItems(prefix, b, o)) == PairItems(prefix, o, b)
  {
    hide ProposalValue, ConnectionFieldItems, RoleItems, ChildrenItems, ItemFor, SwapAll, Names.Sorted;
    var fields := ConnectionFieldItems(prefix, CONNECTION_FIELDS, b, o);
    var props := [ProposalItem(prefix, b, o)];
    var local := RoleItems(prefix + ".local", ROLE_FIELDS, b.local, o.local);
    var remote := RoleItems(prefix + ".remote", ROLE_FIELDS, b.remote, o.remote);
    var names := Names.Sorted(b.children.Keys + o.children.Keys);
    assert b.children.Keys + o.children.Keys == o.children.Keys + b.children.Keys;
    Names.SortedMeaning(b.children.Keys + o.children.Keys);
    SwapFields(prefix, CONNECTION_FIELDS, b, o);
    SwapOne(prefix + ".proposals", ProposalValue(b.rawProposals, b.proposals),
      ProposalValue(o.rawProposals, o.proposals));
    SwapRole(prefix + ".local", ROLE_FIELDS, b.local, o.local);
    SwapRole(prefix + ".remote", ROLE_FIELDS, b.remote, o.remote);
    SwapChildren(prefix, names, b.children, o.children);
    SwapAppend(fields, props);
    SwapAppend(fields + props, local);
    SwapAppend(fields + props + local, remote);
    SwapAppend(fields + props + local + remote, ChildrenItems(prefix, names, b.children, o.children));
  }

  lemma {:induction false} SwapConnections(names: seq<string>, b: map<string, Connection>, o: map<string, Connection>)
    requires forall n :: n in names ==> n in b || n in o
    ensures SwapAll(ConnectionsItems(names, b, o)) == ConnectionsItems(names, o, b)
    decreases |names|
  {
    hide PairItems, ItemFor;
    if names != [] {
      var n, path, tag := names[0], "connections." + names[0], Str("connection(" + names[0] + ")");
      if n in b && n in o {
        SwapPair(path, b[n], o[n]);
      } else {
        SwapOne(path, if n in b then tag else Absent, if n in b then Absent else tag);
      }
      SwapConnections(names[1..], b, o);
      SwapAppend(ConnectionItems(n, b, o), ConnectionsItems(names[1..], b, o));
    }
  }

  /** The same paths in the same order, each seen from the other side. */
  lemma SwapItems(b: NormalizedIr, o: NormalizedIr)
    ensures AllItems(o, b) == SwapAll(AllItems(b, o))
  {
    hide ConnectionsItems, Names.Sorted;
    var bc, oc := b.connections, o.connections;
    assert bc.Keys + oc.Keys == oc.Keys + bc.Keys;
    Names.SortedMeaning(bc.Keys + oc.Keys);
    SwapConnections(Names.Sorted(bc.Keys + oc.Keys), bc, oc);
    SwapAppend(ConnectionsItems(Names.Sorted(bc.Keys + oc.Keys), bc, oc), [SECRETS_ITEM]);
    SwapOne("secrets", Str(REDACTED), Str(REDACTED));
    assert SwapAll([SECRETS_ITEM]) == [SECRETS_ITEM] by { assert [SECRETS_ITEM][1..] == []; }
  }

  lemma {:induction false} SwapCounts(items: seq<DriftItem>)
    ensures forall s :: Count(SwapAll(items), s) == Count(items, SwapStatus(s))
    ensures |SwapAll(items)| == |items|
    ensures forall i :: 0 <= i < |items| ==> SwapAll(items)[i] == SwapItem(items[i])
  {
    if items != [] {
      SwapCounts(items[1..]);
      assert SwapAll(items)[0] == SwapItem(items[0]) && SwapAll(items)[1..] == SwapAll(items[1..]);
    }
  }

  /** Swapping baseline and observed keeps the verdict and the paths and exchanges missing with new. */
  lemma SwapKeepsVerdict(b: NormalizedIr, o: NormalizedIr, bId: string, oId: string)
    ensures var r, t := Compare(b, o, bId, oId), Compare(o, b, oId, bId);
      && t.status == r.status
      && |t.items| == |r.items|
      && (forall i :: 0 <= i < |r.items| ==> t.items[i] == SwapItem(r.items[i]))
      && t.summary == r.summary.(missing := r.summary.added, added := r.summary.missing)
  {
    hide Count, AllItems, Normalize;
    SwapItems(b, o);
    SwapCounts(AllItems(b, o));
    assert SwapStatus(MATCHED) == MATCHED && SwapStatus(CHANGED) == CHANGED
      && SwapStatus(NOT_COMPARABLE) == NOT_COMPARABLE;
  }
}

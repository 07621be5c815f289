/** What the entries and the summary of a comparison say, side by side. */
module DriftMeaning {
  import opened Wrappers
  import opened Proposals
  import opened SwanctlIr
  import opened Parser
  import opened Drift
  import opened DriftLaws
  import Names

  /** A status says which of the two values is there, and whether they differ. */
  predicate SaysWhatItShows(i: DriftItem) {
    if i.status == NOT_COMPARABLE then i.path == "secrets"
    else
      && (i.status == MISSING_IN_OBSERVED <==> !i.baseline.Absent? && i.observed.Absent?)
      && (i.status == NEW_IN_OBSERVED <==> i.baseline.Absent? && !i.observed.Absent?)
      && (i.status == CHANGED <==> !i.baseline.Absent? && !i.observed.Absent? && i.baseline != i.observed)
      && (i.status == MATCHED <==> i.baseline == i.observed)
  }

  ghost predicate AllSay(items: seq<DriftItem>) {
    forall i :: i in items ==> SaysWhatItShows(i)
  }

  lemma ItemSays(path: string, b: FieldValue, o: FieldValue)
    ensures SaysWhatItShows(ItemFor(path, b, o))
  {}

  lemma {:induction false} ChildFieldsSay(prefix: string, fields: seq<string>, b: ChildSa, o: ChildSa)
    ensures AllSay(ChildFieldItems(prefix, fields, b, o))
  {
    hide ChildValue, SaysWhatItShows;
    if fields != [] {
      ItemSays(prefix + "." + fields[0], ChildValue(b, fields[0]), ChildValue(o, fields[0]));
      ChildFieldsSay(prefix, fields[1..], b, o);
    }
  }

  lemma {:induction false} FieldsSay(prefix: string, fields: seq<string>, b: Connection, o: Connection)
    ensures AllSay(ConnectionFieldItems(prefix, fields, b, o))
  {
    hide ConnectionValue, SaysWhatItShows;
    if fields != [] {
      ItemSays(prefix + "." + fields[0], ConnectionValue(b, fields[0]), ConnectionValue(o, fields[0]));
      FieldsSay(prefix, fields[1..], b, o);
    }
  }

  lemma {:induction false} RolesSay(prefix: string, keys: seq<string>, b: map<string, string>, o: map<string, string>)
    ensures AllSay(RoleItems(prefix, keys, b, o))
  {
    hide RoleValue, SaysWhatItShows;
    if keys != [] {
      ItemSays(prefix + "." + keys[0], RoleValue(b, keys[0]), RoleValue(o, keys[0]));
      RolesSay(prefix, keys[1..], b, o);
    }
  }

  lemma ChildSays(prefix: string, n: string, b: map<string, ChildSa>, o: map<string, ChildSa>)
    ensures AllSay(ChildItems(prefix, n, b, o))
  {
    var path := prefix + ".children." + n;
    if n in b && n in o {
      ChildFieldsSay(path, CHILD_FIELDS, b[n], o[n]);
      ItemSays(path + ".esp_proposals", ProposalValue(b[n].rawEspProposals, b[n].espProposals),
               ProposalValue(o[n].rawEspProposals, o[n].espProposals));
    } else {
      ItemSays(path, Str("child_sa(" + n + ")"), Absent);
      ItemSays(path, Absent, Str("child_sa(" + n + ")"));
    }
    hide SaysWhatItShows, ChildFieldItems, ItemFor;
  }

  lemma {:induction false} ChildrenSay(
      prefix: string, names: seq<string>, b: map<string, ChildSa>, o: map<string, ChildSa>)
    ensures AllSay(ChildrenItems(prefix, names, b, o))
  {
    hide SaysWhatItShows, ChildItems;
    if names != [] {
      ChildSays(prefix, names[0], b, o);
      ChildrenSay(prefix, names[1..], b, o);
    }
  }

  lemma PairSays(prefix: string, b: Connection, o: Connection)
    ensures AllSay(PairItems(prefix, b, o))
  {
    var names := Names.Sorted(b.children.Keys + o.children.Keys);
    FieldsSay(prefix, CONNECTION_FIELDS, b, o);
    ItemSays(prefix + ".proposals", ProposalValue(b.rawProposals, b.proposals),
      ProposalValue(o.rawProposals, o.proposals));
    RolesSay(prefix + ".local", ROLE_FIELDS, b.local, o.local);
    RolesSay(prefix + ".remote", ROLE_FIELDS, b.remote, o.remote);
    ChildrenSay(prefix, names, b.children, o.children);
    hide SaysWhatItShows, ConnectionFieldItems, RoleItems, ChildrenItems, ItemFor, ProposalValue, Names.Sorted;
  }

  lemma ConnectionSays(n: string, b: map<string, Connection>, o: map<string, Connection>)
    ensures AllSay(ConnectionItems(n, b, o))
  {
    if n in b && n in o { PairSays("connections." + n, b[n], o[n]); }
    ItemSays("connections." + n, Str("connection(" + n + ")"), Absent);
    ItemSays("connections." + n, Absent, Str("connection(" + n + ")"));
    hide SaysWhatItShows, PairItems, ItemFor;
  }

  lemma {:induction false} ConnectionsSay(
      names: seq<string>, b: map<string, Connection>, o: map<string, Connection>)
    ensures AllSay(ConnectionsItems(names, b, o))
  {
    hide SaysWhatItShows, ConnectionItems;
    if names != [] {
      ConnectionSays(names[0], b, o);
      ConnectionsSay(names[1..], b, o);
    }
  }

  /** Missing is what only the baseline has, new what only the observed side has, changed what both have differently. */
  lemma EveryItemSays(b: NormalizedIr, o: NormalizedIr, bId: string, oId: string)
    requires Normalize(bId) == Normalize(oId)
    ensures AllSay(Compare(b, o, bId, oId).items)
  {
    ConnectionsSay(Names.Sorted(b.connections.Keys + o.connections.Keys), b.connections, o.connections);
    hide ConnectionsItems, Names.Sorted, Normalize;
  }

  // The summary

  function Having(items: seq<DriftItem>, status: FieldStatus): set<nat> {
    set i: nat | i < |items| && items[i].status == status
  }

  lemma {:induction false} CountSnoc(items: seq<DriftItem>, x: DriftItem, status: FieldStatus)
    ensures Count(items + [x], status) == Count(items, status) + (if x.status == status then 1 else 0)
  {
    if items == [] {
      assert items + [x] == [x] && [x][1..] == [];
    } else {
      assert (items + [x])[1..] == items[1..] + [x];
      CountSnoc(items[1..], x, status);
    }
  }

  lemma {:induction false} CountIsHaving(items: seq<DriftItem>, status: FieldStatus)
    ensures Count(items, status) == |Having(items, status)|
    decreases |items|
  {
    if items != [] {
      var n := |items| - 1;
      assert items == items[..n] + [items[n]];
      CountSnoc(items[..n], items[n], status);
      CountIsHaving(items[..n], status);
      HavingSnoc(items[..n], items[n], status);
      hide Having;
    } else {
      assert Having(items, status) == {};
    }
  }

  lemma HavingSnoc(items: seq<DriftItem>, x: DriftItem, status: FieldStatus)
    ensures |Having(items + [x], status)| == |Having(items, status)| + (if x.status == status then 1 else 0)
  {
    var before, n := Having(items, status), |items|;
    assert Having(items + [x], status) == if x.status == status then before + {n} else before;
  }

  /** The counts are the numbers of entries with each status, and drift is what is changed, missing or new. */
  lemma SummaryCounts(b: NormalizedIr, o: NormalizedIr, bId: string, oId: string)
    requires Normalize(bId) == Normalize(oId)
    ensures var r := Compare(b, o, bId, oId);
      && r.summary.totalFields == |r.items|
      && r.summary.matched == |Having(r.items, MATCHED)| && r.summary.changed == |Having(r.items, CHANGED)|
      && r.summary.missing == |Having(r.items, MISSING_IN_OBSERVED)|
      && r.summary.added == |Having(r.items, NEW_IN_OBSERVED)|
      && r.summary.notComparable == |Having(r.items, NOT_COMPARABLE)|
      && r.summary.driftDetected == Some(r.status == DriftDetected) && r.status != Incomparable
  {
    hide AllItems, Normalize, Having, Count;
    var items := AllItems(b, o);
    CountIsHaving(items, MATCHED);
    CountIsHaving(items, CHANGED);
    CountIsHaving(items, MISSING_IN_OBSERVED);
    CountIsHaving(items, NEW_IN_OBSERVED);
    CountIsHaving(items, NOT_COMPARABLE);
  }

  /** Different gateways are not compared: one entry names both, and whether there is drift stays open. */
  lemma DifferentGateways(b: NormalizedIr, o: NormalizedIr, bId: string, oId: string)
    ensures var r := Compare(b, o, bId, oId);
      && (r.status == Incomparable <==> Normalize(bId) != Normalize(oId))
      && (r.status == Incomparable ==>
           && r.items == [DriftItem("gateway_identity", Str(bId), Str(oId), NOT_COMPARABLE)]
           && r.summary.driftDetected == None && r.summary.totalFields == 0 && r.summary.notComparable == 1)
  {
    hide AllItems, Normalize, Count;
  }

  // Which paths are reported missing or new

  ghost predicate Reports(items: seq<DriftItem>, path: string, status: FieldStatus) {
    exists i :: i in items && i.path == path && i.status == status
  }

  lemma ReportsAppend(a: seq<DriftItem>, b: seq<DriftItem>, path: string)
    ensures Reports(a + b, path, MISSING_IN_OBSERVED)
      <==> Reports(a, path, MISSING_IN_OBSERVED) || Reports(b, path, MISSING_IN_OBSERVED)
  {}

  predicate NoneMissing(items: seq<DriftItem>) {
    forall i :: i in items ==> i.status != MISSING_IN_OBSERVED
  }

  lemma {:induction false} ChildFieldsNotMissing(prefix: string, fields: seq<string>, b: ChildSa, o: ChildSa)
    requires forall f :: f in fields ==> f in CHILD_FIELDS
    ensures NoneMissing(ChildFieldItems(prefix, fields, b, o))
  {
    if fields != [] {
      assert fields[0] in CHILD_FIELDS;
      var k :| 0 <= k < |CHILD_FIELDS| && CHILD_FIELDS[k] == fields[0];
      ChildValuePresent(o, k);
      hide ChildValue;
      ChildFieldsNotMissing(prefix, fields[1..], b, o);
    }
  }

  lemma {:induction false} FieldsNotMissing(prefix: string, fields: seq<string>, b: Connection, o: Connection)
    requires forall f :: f in fields ==> f in CONNECTION_FIELDS
    ensures NoneMissing(ConnectionFieldItems(prefix, fields, b, o))
  {
    if fields != [] {
      assert fields[0] in CONNECTION_FIELDS;
      var k :| 0 <= k < |CONNECTION_FIELDS| && CONNECTION_FIELDS[k] == fields[0];
      ConnectionValuePresent(o, k);
      hide ConnectionValue;
      FieldsNotMissing(prefix, fields[1..], b, o);
    }
  }

  ghost predicate RoleKeyMissing(prefix: string, b: map<string, string>, o: map<string, string>, path: string) {
    exists k :: k in ROLE_FIELDS && k in b && k !in o && path == prefix + "." + k
  }

  lemma {:induction false} RoleReports(
      prefix: string, keys: seq<string>, b: map<string, string>, o: map<string, string>, path: string)
    ensures Reports(RoleItems(prefix, keys, b, o), path, MISSING_IN_OBSERVED)
      <==> exists k :: k in keys && k in b && k !in o && path == prefix + "." + k
  {
    if keys != [] {
      var k, first, rest := keys[0], RoleItem(prefix, keys[0], b, o), RoleItems(prefix, keys[1..], b, o);
      RoleReports(prefix, keys[1..], b, o, path);
      ReportsAppend(first, rest, path);
      assert Reports(first, path, MISSING_IN_OBSERVED) <==> k in b && k !in o && path == prefix + "." + k by {
        if k in b && k !in o { assert ItemFor(prefix + "." + k, Str(b[k]), Absent) in first; }
      }
      assert keys == [k] + keys[1..];
      hide Reports, RoleItem;
    }
  }

  ghost predicate ChildMissing(prefix: string, b: map<string, ChildSa>, o: map<string, ChildSa>, path: string) {
    exists c :: c in b && c !in o && path == prefix + ".children." + c
  }

  lemma ChildReports(prefix: string, c: string, b: map<string, ChildSa>, o: map<string, ChildSa>, path: string)
    requires c in b || c in o
    ensures Reports(ChildItems(prefix, c, b, o), path, MISSING_IN_OBSERVED)
      <==> c in b && c !in o && path == prefix + ".children." + c
  {
    var at := prefix + ".children." + c;
    if c in b && c in o {
      ChildFieldsNotMissing(at, CHILD_FIELDS, b[c], o[c]);
      hide ChildFieldItems, ProposalValue;
      assert NoneMissing(ChildItems(prefix, c, b, o));
    } else if c in b {
      assert ItemFor(at, Str("child_sa(" + c + ")"), Absent) in ChildItems(prefix, c, b, o);
    }
  }

  lemma {:induction false} ChildrenReport(
      prefix: string, names: seq<string>, b: map<string, ChildSa>, o: map<string, ChildSa>, path: string)
    requires forall c :: c in names ==> c in b || c in o
    ensures Reports(ChildrenItems(prefix, names, b, o), path, MISSING_IN_OBSERVED)
      <==> exists c :: c in names && c in b && c !in o && path == prefix + ".children." + c
  {
    if names != [] {
      var c, rest := names[0], ChildrenItems(prefix, names[1..], b, o);
      ChildReports(prefix, c, b, o, path);
      ChildrenReport(prefix, names[1..], b, o, path);
      ReportsAppend(ChildItems(prefix, c, b, o), rest, path);
      assert names == [c] + names[1..];
      hide Reports, ChildItems;
    }
  }

  /** Inside a connection that both sides have, only keys of roles and whole children can be missing. */
  ghost predicate PartMissing(prefix: string, b: Connection, o: Connection, path: string) {
    || RoleKeyMissing(prefix + ".local", b.local, o.local, path)
    || RoleKeyMissing(prefix + ".remote", b.remote, o.remote, path)
    || ChildMissing(prefix, b.children, o.children, path)
  }

  lemma PairReports(prefix: string, b: Connection, o: Connection, path: string)
    ensures Reports(PairItems(prefix, b, o), path, MISSING_IN_OBSERVED) <==> PartMissing(prefix, b, o, path)
  {
    var names := Names.Sorted(b.children.Keys + o.children.Keys);
    Names.SortedMeaning(b.children.Keys + o.children.Keys);
    FieldsNotMissing(prefix, CONNECTION_FIELDS, b, o);
    hide RoleKeyMissing, ChildMissing, Names.Sorted;
    RoleReports(prefix + ".local", ROLE_FIELDS, b.local, o.local, path);
    RoleReports(prefix + ".remote", ROLE_FIELDS, b.remote, o.remote, path);
    ChildrenReport(prefix, names, b.children, o.children, path);
    var fields, proposal := ConnectionFieldItems(prefix, CONNECTION_FIELDS, b, o), [ProposalItem(prefix, b, o)];
    var local, remote := RoleItems(prefix + ".local", ROLE_FIELDS, b.local, o.local),
      RoleItems(prefix + ".remote", ROLE_FIELDS, b.remote, o.remote);
    var children := ChildrenItems(prefix, names, b.children, o.children);
    ProposalNotMissing(prefix, b, o);
    assert !Reports(fields, path, MISSING_IN_OBSERVED) && !Reports(proposal, path, MISSING_IN_OBSERVED);
    hide ConnectionFieldItems, RoleItems, ChildrenItems, ProposalItem, Names.Sorted, Reports;
    ReportsFive(fields, proposal, local, remote, children, path);
  }

  lemma ProposalNotMissing(prefix: string, b: Connection, o: Connection)
    ensures NoneMissing([ProposalItem(prefix, b, o)])
  {}

  lemma ReportsFive(
      a: seq<DriftItem>, b: seq<DriftItem>, c: seq<DriftItem>, d: seq<DriftItem>, e: seq<DriftItem>, path: string)
    requires !Reports(a, path, MISSING_IN_OBSERVED) && !Reports(b, path, MISSING_IN_OBSERVED)
    ensures Reports(a + b + c + d + e, path, MISSING_IN_OBSERVED)
      <==> || Reports(c, path, MISSING_IN_OBSERVED) || Reports(d, path, MISSING_IN_OBSERVED)
           || Reports(e, path, MISSING_IN_OBSERVED)
  {
    ReportsAppend(a, b, path);
    ReportsAppend(a + b, c, path);
    ReportsAppend(a + b + c, d, path);
    ReportsAppend(a + b + c + d, e, path);
    hide Reports;
  }

  ghost predicate MissingAt(n: string, b: map<string, Connection>, o: map<string, Connection>, path: string) {
    && n in b
    && if n in o then PartMissing("connections." + n, b[n], o[n], path) else path == "connections." + n
  }

  lemma ConnectionReports(n: string, b: map<string, Connection>, o: map<string, Connection>, path: string)
    requires n in b || n in o
    ensures Reports(ConnectionItems(n, b, o), path, MISSING_IN_OBSERVED) <==> MissingAt(n, b, o, path)
  {
    if n in b && n in o {
      PairReports("connections." + n, b[n], o[n], path);
      hide PairItems, PartMissing;
    } else if n in b {
      assert ItemFor("connections." + n, Str("connection(" + n + ")"), Absent) in ConnectionItems(n, b, o);
    }
  }

  lemma {:induction false} ConnectionsReport(
      names: seq<string>, b: map<string, Connection>, o: map<string, Connection>, path: string)
    requires forall n :: n in names ==> n in b || n in o
    ensures Reports(ConnectionsItems(names, b, o), path, MISSING_IN_OBSERVED)
      <==> exists n :: n in names && MissingAt(n, b, o, path)
  {
    if names != [] {
      ConnectionReports(names[0], b, o, path);
      ConnectionsReport(names[1..], b, o, path);
      ReportsAppend(ConnectionItems(names[0], b, o), ConnectionsItems(names[1..], b, o), path);
      assert names == [names[0]] + names[1..];
      hide Reports, ConnectionItems, MissingAt;
    }
  }

  /** A path is reported missing exactly for a connection, a child or a role key that only the baseline has. */
  lemma MissingPaths(b: NormalizedIr, o: NormalizedIr, bId: string, oId: string, path: string)
    requires Normalize(bId) == Normalize(oId)
    ensures Reports(Compare(b, o, bId, oId).items, path, MISSING_IN_OBSERVED)
      <==> exists n :: MissingAt(n, b.connections, o.connections, path)
  {
    var names := Names.Sorted(b.connections.Keys + o.connections.Keys);
    Names.SortedMeaning(b.connections.Keys + o.connections.Keys);
    ConnectionsReport(names, b.connections, o.connections, path);
    ReportsAppend(ConnectionsItems(names, b.connections, o.connections), [SECRETS_ITEM], path);
    assert !Reports([SECRETS_ITEM], path, MISSING_IN_OBSERVED);
    hide ConnectionsItems, Names.Sorted, Normalize, Reports;
    forall n | MissingAt(n, b.connections, o.connections, path) ensures n in names {
      hide PartMissing;
    }
    hide MissingAt;
  }

  /** A path is reported new exactly where it would be missing with the sides exchanged. */
  lemma NewPaths(b: NormalizedIr, o: NormalizedIr, bId: string, oId: string, path: string)
    requires Normalize(bId) == Normalize(oId)
    ensures Reports(Compare(b, o, bId, oId).items, path, NEW_IN_OBSERVED)
      <==> exists n :: MissingAt(n, o.connections, b.connections, path)
  {
    MissingPaths(o, b, oId, bId, path);
    SwapKeepsVerdict(b, o, bId, oId);
    hide Compare, MissingAt, Normalize, Reports;
    SwapReports(Compare(b, o, bId, oId).items, Compare(o, b, oId, bId).items, path);
  }

  lemma SwapReports(r: seq<DriftItem>, t: seq<DriftItem>, path: string)
    requires |t| == |r| && forall i :: 0 <= i < |r| ==> t[i] == SwapItem(r[i])
    ensures Reports(r, path, NEW_IN_OBSERVED) <==> Reports(t, path, MISSING_IN_OBSERVED)
  {
    if Reports(r, path, NEW_IN_OBSERVED) {
      var i :| i in r && i.path == path && i.status == NEW_IN_OBSERVED;
      var k :| 0 <= k < |r| && r[k] == i;
      assert t[k] in t;
    }
    if Reports(t, path, MISSING_IN_OBSERVED) {
      var i :| i in t && i.path == path && i.status == MISSING_IN_OBSERVED;
      var k :| 0 <= k < |t| && t[k] == i;
      assert r[k] in r;
    }
  }

  lemma Dotted(a: string, b: string, n: string)
    requires '.' !in n && b != "" && b[0] == '.'
    ensures "connections." + n != "connections." + a + b
  {
    var s := "connections.";
    var x, y := s + n, s + a + b;
    var k := |s| + |a|;
    assert y[k] == '.';
    if |x| == |y| { assert x[k] == n[|a|] && n[|a|] in n; }
  }

  /** So a connection without a dot in its name is reported missing, or new, exactly when one side alone has it. */
  lemma ConnectionMissingOrNew(b: NormalizedIr, o: NormalizedIr, bId: string, oId: string, n: string)
    requires Normalize(bId) == Normalize(oId) && '.' !in n
    ensures Reports(Compare(b, o, bId, oId).items, "connections." + n, MISSING_IN_OBSERVED)
      <==> n in b.connections && n !in o.connections
    ensures Reports(Compare(b, o, bId, oId).items, "connections." + n, NEW_IN_OBSERVED)
      <==> n in o.connections && n !in b.connections
  {
    MissingPaths(b, o, bId, oId, "connections." + n);
    NewPaths(b, o, bId, oId, "connections." + n);
    OnlyItself(b.connections, o.connections, n);
    OnlyItself(o.connections, b.connections, n);
    hide Compare, Normalize, Reports, MissingAt;
  }

  lemma OnlyItself(b: map<string, Connection>, o: map<string, Connection>, n: string)
    requires '.' !in n
    ensures (exists m :: MissingAt(m, b, o, "connections." + n)) <==> n in b && n !in o
  {
    var path := "connections." + n;
    forall m | MissingAt(m, b, o, path) ensures m == n && n in b && n !in o {
      if m in o {
        PartIsDotted(m, b[m], o[m], n);
      } else {
        assert path[|"connections."|..] == n && ("connections." + m)[|"connections."|..] == m;
      }
    }
    if n in b && n !in o { assert MissingAt(n, b, o, path); }
  }

  lemma PartIsDotted(m: string, b: Connection, o: Connection, n: string)
    requires '.' !in n
    ensures !PartMissing("connections." + m, b, o, "connections." + n)
  {
    var prefix, path := "connections." + m, "connections." + n;
    if RoleKeyMissing(prefix + ".local", b.local, o.local, path) {
      var k :| k in ROLE_FIELDS && path == prefix + ".local" + "." + k;
      assert path == prefix + (".local" + "." + k) && (".local" + "." + k)[0] == '.';
      Dotted(m, ".local" + "." + k, n);
    }
    if RoleKeyMissing(prefix + ".remote", b.remote, o.remote, path) {
      var k :| k in ROLE_FIELDS && path == prefix + ".remote" + "." + k;
      assert path == prefix + (".remote" + "." + k) && (".remote" + "." + k)[0] == '.';
      Dotted(m, ".remote" + "." + k, n);
    }
    if ChildMissing(prefix, b.children, o.children, path) {
      var c :| path == prefix + ".children." + c;
      assert path == prefix + (".children." + c) && (".children." + c)[0] == '.';
      Dotted(m, ".children." + c, n);
    }
  }

  /** With dots a path can stand for something else: a missing role key reads like a missing connection. */
  lemma DottedPathsCanMislead(id: string)
    ensures var gw := DefaultConnection("gw");
      var b := NormalizedIr("SWANCTL", "6.0.4", map["gw" := gw.(local := map["id" := "x"])], map[]);
      var o := NormalizedIr("SWANCTL", "6.0.4", map["gw" := gw], map[]);
      && "gw.local.id" !in b.connections
      && Reports(Compare(b, o, id, id).items, "connections." + "gw.local.id", MISSING_IN_OBSERVED)
  {
    var gw := DefaultConnection("gw");
    var b := NormalizedIr("SWANCTL", "6.0.4", map["gw" := gw.(local := map["id" := "x"])], map[]);
    var o := NormalizedIr("SWANCTL", "6.0.4", map["gw" := gw], map[]);
    var path := "connections." + "gw.local.id";
    MissingPaths(b, o, id, id, path);
    assert path == "connections." + "gw" + ".local" + "." + "id";
    assert "id" in ROLE_FIELDS by { assert ROLE_FIELDS[0] == "id"; }
    assert RoleKeyMissing("connections." + "gw" + ".local", b.connections["gw"].local, gw.local, path);
    assert MissingAt("gw", b.connections, o.connections, path);
  }

  // Which values are compared

  lemma {:induction false} FieldIsCompared(prefix: string, fields: seq<string>, b: Connection, o: Connection, f: string)
    requires f in fields
    ensures ItemFor(prefix + "." + f, ConnectionValue(b, f), ConnectionValue(o, f))
      in ConnectionFieldItems(prefix, fields, b, o)
  {
    hide ConnectionValue, ItemFor;
    if fields[0] != f { FieldIsCompared(prefix, fields[1..], b, o, f); }
  }

  lemma {:induction false} ChildFieldIsCompared(prefix: string, fields: seq<string>, b: ChildSa, o: ChildSa, f: string)
    requires f in fields
    ensures ItemFor(prefix + "." + f, ChildValue(b, f), ChildValue(o, f)) in ChildFieldItems(prefix, fields, b, o)
  {
    hide ChildValue, ItemFor;
    if fields[0] != f { ChildFieldIsCompared(prefix, fields[1..], b, o, f); }
  }

  lemma {:induction false} RoleKeyIsCompared(
      prefix: string, keys: seq<string>, b: map<string, string>, o: map<string, string>, k: string)
    requires k in keys && (k in b || k in o)
    ensures ItemFor(prefix + "." + k, RoleValue(b, k), RoleValue(o, k)) in RoleItems(prefix, keys, b, o)
  {
    hide RoleValue, ItemFor;
    if keys[0] != k { RoleKeyIsCompared(prefix, keys[1..], b, o, k); }
  }

  lemma {:induction false} ChildIsCompared(
      prefix: string, names: seq<string>, b: map<string, ChildSa>, o: map<string, ChildSa>, c: string)
    requires c in names
    ensures forall i :: i in ChildItems(prefix, c, b, o) ==> i in ChildrenItems(prefix, names, b, o)
  {
    hide ChildItems;
    if names[0] != c { ChildIsCompared(prefix, names[1..], b, o, c); }
  }

  lemma {:induction false} ConnectionIsCompared(
      names: seq<string>, b: map<string, Connection>, o: map<string, Connection>, n: string)
    requires n in names
    ensures forall i :: i in ConnectionItems(n, b, o) ==> i in ConnectionsItems(names, b, o)
  {
    hide ConnectionItems;
    if names[0] != n { ConnectionIsCompared(names[1..], b, o, n); }
  }

  /** The raw text if there is some, else the encryption names of the parsed list. */
  predicate ShowsProposals(v: FieldValue, raw: Option<string>, proposals: seq<Proposal>) {
    if raw.Some? && raw.value != "" then v == Str(raw.value)
    else
      && v.List? && |v.names| == |proposals|
      && forall i :: 0 <= i < |proposals| ==> v.names[i] == proposals[i].encryption
  }

  /** Every field, proposal list and set role key of a connection that both sides have is an entry with both values. */
  lemma ConnectionFieldsAreCompared(b: NormalizedIr, o: NormalizedIr, bId: string, oId: string, n: string)
    requires Normalize(bId) == Normalize(oId) && n in b.connections && n in o.connections
    ensures var items, at := Compare(b, o, bId, oId).items, "connections." + n;
      var x, y := b.connections[n], o.connections[n];
      && (forall f :: f in CONNECTION_FIELDS ==>
           ItemFor(at + "." + f, ConnectionValue(x, f), ConnectionValue(y, f)) in items)
      && (forall k :: k in ROLE_FIELDS && (k in x.local || k in y.local) ==>
           ItemFor(at + ".local" + "." + k, RoleValue(x.local, k), RoleValue(y.local, k)) in items)
      && (forall k :: k in ROLE_FIELDS && (k in x.remote || k in y.remote) ==>
           ItemFor(at + ".remote" + "." + k, RoleValue(x.remote, k), RoleValue(y.remote, k)) in items)
      && exists v, w :: ShowsProposals(v, x.rawProposals, x.proposals) && ShowsProposals(w, y.rawProposals, y.proposals)
           && ItemFor(at + ".proposals", v, w) in items
  {
    var x, y, at := b.connections[n], o.connections[n], "connections." + n;
    InItems(b, o, bId, oId, n);
    hide Compare, Normalize;
    forall f | f in CONNECTION_FIELDS
      ensures ItemFor(at + "." + f, ConnectionValue(x, f), ConnectionValue(y, f)) in PairItems(at, x, y)
    {
      FieldIsCompared(at, CONNECTION_FIELDS, x, y, f);
    }
    forall k | k in ROLE_FIELDS && (k in x.local || k in y.local)
      ensures ItemFor(at + ".local" + "." + k, RoleValue(x.local, k), RoleValue(y.local, k)) in PairItems(at, x, y)
    {
      RoleKeyIsCompared(at + ".local", ROLE_FIELDS, x.local, y.local, k);
    }
    forall k | k in ROLE_FIELDS && (k in x.remote || k in y.remote)
      ensures ItemFor(at + ".remote" + "." + k, RoleValue(x.remote, k), RoleValue(y.remote, k)) in PairItems(at, x, y)
    {
      RoleKeyIsCompared(at + ".remote", ROLE_FIELDS, x.remote, y.remote, k);
    }
    var v, w := ProposalValue(x.rawProposals, x.proposals), ProposalValue(y.rawProposals, y.proposals);
    assert ShowsProposals(v, x.rawProposals, x.proposals) && ShowsProposals(w, y.rawProposals, y.proposals);
    assert ItemFor(at + ".proposals", v, w) in PairItems(at, x, y);
    hide PairItems, ItemFor, ConnectionValue, RoleValue, ShowsProposals;
  }

  /** Likewise every field of a child that both sides have. */
  lemma ChildFieldsAreCompared(b: NormalizedIr, o: NormalizedIr, bId: string, oId: string, n: string, c: string)
    requires Normalize(bId) == Normalize(oId) && n in b.connections && n in o.connections
    requires c in b.connections[n].children && c in o.connections[n].children
    ensures var items, at := Compare(b, o, bId, oId).items, "connections." + n + ".children." + c;
      var x, y := b.connections[n].children[c], o.connections[n].children[c];
      && (forall f :: f in CHILD_FIELDS ==> ItemFor(at + "." + f, ChildValue(x, f), ChildValue(y, f)) in items)
      && exists v, w ::
           && ShowsProposals(v, x.rawEspProposals, x.espProposals)
           && ShowsProposals(w, y.rawEspProposals, y.espProposals)
           && ItemFor(at + ".esp_proposals", v, w) in items
  {
    InItems(b, o, bId, oId, n);
    hide Compare, Normalize;
    var p, q, prefix := b.connections[n], o.connections[n], "connections." + n;
    var x, y, at := p.children[c], q.children[c], prefix + ".children." + c;
    var names := Names.Sorted(p.children.Keys + q.children.Keys);
    Names.SortedMeaning(p.children.Keys + q.children.Keys);
    ChildIsCompared(prefix, names, p.children, q.children, c);
    forall f | f in CHILD_FIELDS
      ensures ItemFor(at + "." + f, ChildValue(x, f), ChildValue(y, f)) in ChildItems(prefix, c, p.children, q.children)
    {
      ChildFieldIsCompared(at, CHILD_FIELDS, x, y, f);
    }
    var v, w := ProposalValue(x.rawEspProposals, x.espProposals), ProposalValue(y.rawEspProposals, y.espProposals);
    assert ShowsProposals(v, x.rawEspProposals, x.espProposals) && ShowsProposals(w, y.rawEspProposals, y.espProposals);
    assert ItemFor(at + ".esp_proposals", v, w) in ChildItems(prefix, c, p.children, q.children);
    assert forall i :: i in ChildItems(prefix, c, p.children, q.children) ==> i in PairItems(prefix, p, q);
    hide PairItems, ChildItems, ItemFor, ChildValue, ShowsProposals;
  }

  lemma InItems(b: NormalizedIr, o: NormalizedIr, bId: string, oId: string, n: string)
    requires Normalize(bId) == Normalize(oId) && n in b.connections && n in o.connections
    ensures forall i :: i in PairItems("connections." + n, b.connections[n], o.connections[n]) ==>
      i in Compare(b, o, bId, oId).items
  {
    var names := Names.Sorted(b.connections.Keys + o.connections.Keys);
    Names.SortedMeaning(b.connections.Keys + o.connections.Keys);
    ConnectionIsCompared(names, b.connections, o.connections, n);
    hide PairItems, ConnectionsItems, Names.Sorted, Normalize;
  }
}

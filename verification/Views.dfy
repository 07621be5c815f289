/** What the public view of a configuration depends on, and what it does not depend on. */
module Views {
  import opened Wrappers
  import opened Text
  import opened Proposals
  import opened SwanctlIr
  import opened Context
  import opened Forest
  import opened Meaning

  // The stored connections are well formed

  lemma {:induction false} ChildOfWellFormed(f: Forest, c: ChildSa)
    requires ChildWellFormed(c.name, c)
    ensures ChildWellFormed(c.name, ChildOf(f, c))
  {
    hide KeyOf, ValueOf, ParseProposalsList;
    match f
    case Empty =>
    case Assign(t, rest) => ChildOfWellFormed(rest, SetChild(c, KeyOf(t), ValueOf(t)).GetOr(c));
    case Block(_, _, rest) => ChildOfWellFormed(rest, c);
  }

  lemma {:induction false} ChildrenOfWellFormed(f: Forest, m: map<string, ChildSa>)
    requires forall n :: n in m ==> ChildWellFormed(n, m[n])
    ensures forall n :: n in ChildrenOf(f, m) ==> ChildWellFormed(n, ChildrenOf(f, m)[n])
  {
    hide Strip, ChildOf;
    match f
    case Empty =>
    case Assign(_, rest) => ChildrenOfWellFormed(rest, m);
    case Block(h, body, rest) =>
      ChildOfWellFormed(body, DefaultChild(Strip(h)));
      ChildrenOfWellFormed(rest, m[Strip(h) := ChildOf(body, DefaultChild(Strip(h)))]);
  }

  lemma {:induction false} RoleOfKeys(f: Forest, m: map<string, string>)
    requires m.Keys <= ROLE_KEYS
    ensures RoleOf(f, m).Keys <= ROLE_KEYS
  {
    hide KeyOf, ValueOf;
    match f
    case Empty =>
    case Assign(t, rest) => RoleOfKeys(rest, if KeyOf(t) in ROLE_KEYS then m[KeyOf(t) := ValueOf(t)] else m);
    case Block(_, _, rest) => RoleOfKeys(rest, m);
  }

  lemma {:induction false} ConnectionOfWellFormed(f: Forest, c: Connection)
    requires ConnectionWellFormed(c.name, c)
    ensures ConnectionWellFormed(c.name, ConnectionOf(f, c))
  {
    hide KeyOf, ValueOf, Strip, ParseProposalsList, ChildWellFormed;
    match f
    case Empty =>
    case Assign(t, rest) => ConnectionOfWellFormed(rest, SetConnection(c, KeyOf(t), ValueOf(t)).GetOr(c));
    case Block(h, body, rest) =>
      RoleOfKeys(body, c.local);
      RoleOfKeys(body, c.remote);
      ChildrenOfWellFormed(body, c.children);
      ConnectionOfWellFormed(rest, SubBlock(Strip(h), body, c));
  }

  lemma {:induction false} ConnectionsOfWellFormed(f: Forest, m: map<string, Connection>)
    requires WellFormed(m)
    ensures WellFormed(ConnectionsOf(f, m))
  {
    hide Strip, ConnectionOf, ConnectionWellFormed;
    match f
    case Empty =>
    case Assign(_, rest) => ConnectionsOfWellFormed(rest, m);
    case Block(h, body, rest) =>
      DefaultWellFormed(Strip(h));
      ConnectionOfWellFormed(body, DefaultConnection(Strip(h)));
      ConnectionsOfWellFormed(rest, m[Strip(h) := ConnectionOf(body, DefaultConnection(Strip(h)))]);
  }

  lemma DefaultWellFormed(n: string)
    ensures ConnectionWellFormed(n, DefaultConnection(n))
  {}

  lemma {:induction false} TopConnectionsWellFormed(f: Forest, m: map<string, Connection>)
    requires WellFormed(m)
    ensures WellFormed(TopConnections(f, m))
  {
    match f
    case Empty =>
    case Assign(_, rest) => TopConnectionsWellFormed(rest, m);
    case Block(h, body, rest) =>
      ConnectionsOfWellFormed(body, m);
      TopConnectionsWellFormed(rest, if Strip(h) == "connections" then ConnectionsOf(body, m) else m);
  }

  // What a block's meaning depends on

  function Append(f: Forest, g: Forest): Forest {
    match f
    case Empty => g
    case Assign(t, rest) => Assign(t, Append(rest, g))
    case Block(h, body, rest) => Block(h, body, Append(rest, g))
  }

  /** The contents of all blocks called `name`, one after the other. */
  function Inside(f: Forest, name: string): Forest {
    match f
    case Empty => Empty
    case Assign(_, rest) => Inside(rest, name)
    case Block(h, body, rest) => if Strip(h) == name then Append(body, Inside(rest, name)) else Inside(rest, name)
  }

  function LastValue(f: Forest, k: string): Option<string> {
    match f
    case Empty => None
    case Assign(t, rest) =>
      if LastValue(rest, k).None? && KeyOf(t) == k then Some(ValueOf(t)) else LastValue(rest, k)
    case Block(_, _, rest) => LastValue(rest, k)
  }

  function LastBlock(f: Forest, name: string): Option<Forest> {
    match f
    case Empty => None
    case Assign(_, rest) => LastBlock(rest, name)
    case Block(h, body, rest) =>
      if LastBlock(rest, name).None? && Strip(h) == name then Some(body) else LastBlock(rest, name)
  }

  ghost predicate SameValues(f: Forest, g: Forest, keys: set<string>) {
    forall k :: k in keys ==> LastValue(f, k) == LastValue(g, k)
  }

  ghost predicate SameChildBlocks(f: Forest, g: Forest) {
    forall n :: match (LastBlock(f, n), LastBlock(g, n))
      case (Some(a), Some(b)) => SameValues(a, b, CHILD_KEYS)
      case (a, b) => a == b
  }

  ghost predicate SameConnectionBody(f: Forest, g: Forest) {
    && SameValues(f, g, CONNECTION_KEYS)
    && SameValues(Inside(f, "local"), Inside(g, "local"), ROLE_KEYS)
    && SameValues(Inside(f, "remote"), Inside(g, "remote"), ROLE_KEYS)
    && SameChildBlocks(Inside(f, "children"), Inside(g, "children"))
  }

  ghost predicate SameConnectionBlocks(f: Forest, g: Forest) {
    forall n :: match (LastBlock(f, n), LastBlock(g, n))
      case (Some(a), Some(b)) => SameConnectionBody(a, b)
      case (a, b) => a == b
  }

  /** The same last values and last blocks, wherever they stand and whatever else surrounds them. */
  ghost predicate SameConfiguration(f: Forest, g: Forest) {
    SameConnectionBlocks(Inside(f, "connections"), Inside(g, "connections"))
  }

  /** A child's fields, read off the last values of its block. */
  function ChildFields(f: Forest, c: ChildSa): ChildSa {
    c.(mode := LastValue(f, "mode").GetOr(c.mode),
       localTs := LastValue(f, "local_ts").GetOr(c.localTs),
       remoteTs := LastValue(f, "remote_ts").GetOr(c.remoteTs),
       espProposals := match LastValue(f, "esp_proposals")
         case Some(v) => ParseProposalsList(v)
         case None => c.espProposals,
       rawEspProposals := match LastValue(f, "esp_proposals")
         case Some(v) => Some(v)
         case None => c.rawEspProposals,
       startAction := LastValue(f, "start_action").GetOr(c.startAction),
       rekeyTime := LastValue(f, "rekey_time").GetOr(c.rekeyTime),
       replayWindow := match LastValue(f, "replay_window")
         case Some(v) => ParseInt(v).GetOr(64)
         case None => c.replayWindow)
  }

  lemma {:induction false} ChildOfFields(f: Forest, c: ChildSa)
    ensures ChildOf(f, c) == ChildFields(f, c)
  {
    hide KeyOf, ValueOf, ParseProposalsList, ParseInt;
    match f
    case Empty =>
    case Assign(t, rest) => ChildOfFields(rest, SetChild(c, KeyOf(t), ValueOf(t)).GetOr(c));
    case Block(_, _, rest) => ChildOfFields(rest, c);
  }

  function ScalarFields(f: Forest, c: Connection): Connection {
    c.(version := match LastValue(f, "version")
         case Some(v) => ParseInt(v).GetOr(2)
         case None => c.version,
       localAddrs := LastValue(f, "local_addrs").GetOr(c.localAddrs),
       remoteAddrs := LastValue(f, "remote_addrs").GetOr(c.remoteAddrs),
       proposals := match LastValue(f, "proposals")
         case Some(v) => ParseProposalsList(v)
         case None => c.proposals,
       rawProposals := match LastValue(f, "proposals")
         case Some(v) => Some(v)
         case None => c.rawProposals,
       encap := match LastValue(f, "encap")
         case Some(v) => SaysYes(v)
         case None => c.encap,
       rekeyTime := LastValue(f, "rekey_time").GetOr(c.rekeyTime))
  }

  /** A connection's fields, read off the last values and the blocks inside it. */
  function ConnectionFields(f: Forest, c: Connection): Connection {
    ScalarFields(f, c).(
       local := RoleOf(Inside(f, "local"), c.local),
       remote := RoleOf(Inside(f, "remote"), c.remote),
       children := ChildrenOf(Inside(f, "children"), c.children))
  }

  lemma {:induction false} AppendMeans(f: Forest, g: Forest)
    ensures forall m :: RoleOf(Append(f, g), m) == RoleOf(g, RoleOf(f, m))
    ensures forall m :: ChildrenOf(Append(f, g), m) == ChildrenOf(g, ChildrenOf(f, m))
    ensures forall m :: ConnectionsOf(Append(f, g), m) == ConnectionsOf(g, ConnectionsOf(f, m))
  {
    hide KeyOf, ValueOf, Strip, ChildOf, ConnectionOf;
    match f
    case Empty =>
    case Assign(_, rest) => AppendMeans(rest, g);
    case Block(_, _, rest) => AppendMeans(rest, g);
  }

  lemma EmptyFields(c: Connection)
    ensures ConnectionFields(Empty, c) == c
  {}

  lemma InsideOfBlock(h: string, body: Forest, rest: Forest, n: string)
    ensures forall m ::
      RoleOf(Inside(Block(h, body, rest), n), m)
        == RoleOf(Inside(rest, n), if Strip(h) == n then RoleOf(body, m) else m)
    ensures forall m ::
      ChildrenOf(Inside(Block(h, body, rest), n), m)
      == ChildrenOf(Inside(rest, n), if Strip(h) == n then ChildrenOf(body, m) else m)
  {
    hide Strip, RoleOf, ChildrenOf;
    AppendMeans(body, Inside(rest, n));
  }

  lemma BlocksOfBlock(h: string, body: Forest, rest: Forest, c: Connection)
    ensures var f, d := Block(h, body, rest), SubBlock(Strip(h), body, c);
      && RoleOf(Inside(rest, "local"), d.local) == RoleOf(Inside(f, "local"), c.local)
      && RoleOf(Inside(rest, "remote"), d.remote) == RoleOf(Inside(f, "remote"), c.remote)
      && ChildrenOf(Inside(rest, "children"), d.children) == ChildrenOf(Inside(f, "children"), c.children)
  {
    hide Strip, RoleOf, ChildrenOf, Inside;
    InsideOfBlock(h, body, rest, "local");
    InsideOfBlock(h, body, rest, "remote");
    InsideOfBlock(h, body, rest, "children");
  }

  lemma ScalarsOfBlock(h: string, body: Forest, rest: Forest, c: Connection)
    ensures var f, d := Block(h, body, rest), SubBlock(Strip(h), body, c);
      ScalarFields(rest, d) == ScalarFields(f, c).(local := d.local, remote := d.remote, children := d.children)
  {
    hide KeyOf, ValueOf, Strip, ParseProposalsList, ParseInt, SaysYes, RoleOf, ChildrenOf;
    assert forall k :: LastValue(Block(h, body, rest), k) == LastValue(rest, k);
    hide LastValue;
    var name, d := Strip(h), SubBlock(Strip(h), body, c);
    assert d == c.(local := d.local, remote := d.remote, children := d.children);
    hide SubBlock;
  }

  lemma FieldsOfBlock(h: string, body: Forest, rest: Forest, c: Connection)
    ensures ConnectionFields(rest, SubBlock(Strip(h), body, c)) == ConnectionFields(Block(h, body, rest), c)
  {
    hide Strip, RoleOf, ChildrenOf, Inside, SubBlock, ScalarFields;
    BlocksOfBlock(h, body, rest, c);
    ScalarsOfBlock(h, body, rest, c);
  }

  lemma SetConnectionFields(c: Connection, k: string, v: string)
    ensures var d := SetConnection(c, k, v).GetOr(c);
      && d.name == c.name && d.local == c.local && d.remote == c.remote && d.children == c.children
      && d.version == (if k == "version" then ParseInt(v).GetOr(2) else c.version)
      && d.localAddrs == (if k == "local_addrs" then v else c.localAddrs)
      && d.remoteAddrs == (if k == "remote_addrs" then v else c.remoteAddrs)
      && d.proposals == (if k == "proposals" then ParseProposalsList(v) else c.proposals)
      && d.rawProposals == (if k == "proposals" then Some(v) else c.rawProposals)
      && d.encap == (if k == "encap" then SaysYes(v) else c.encap)
      && d.rekeyTime == (if k == "rekey_time" then v else c.rekeyTime)
  {
    hide ParseProposalsList, ParseInt, SaysYes;
  }

  lemma ScalarsOfAssign(t: string, rest: Forest, c: Connection)
    ensures ScalarFields(rest, SetConnection(c, KeyOf(t), ValueOf(t)).GetOr(c)) == ScalarFields(Assign(t, rest), c)
  {
    hide KeyOf, ValueOf, ParseProposalsList, ParseInt, SaysYes, SetConnection;
    SetConnectionFields(c, KeyOf(t), ValueOf(t));
  }

  lemma {:induction false} ConnectionOfFields(f: Forest, c: Connection)
    ensures ConnectionOf(f, c) == ConnectionFields(f, c)
  {
    hide KeyOf, ValueOf, Strip, SubBlock, SetConnection, ScalarFields;
    match f
    case Empty => EmptyFields(c);
    case Assign(t, rest) =>
      ScalarsOfAssign(t, rest, c);
      ConnectionOfFields(rest, SetConnection(c, KeyOf(t), ValueOf(t)).GetOr(c));
    case Block(h, body, rest) =>
      FieldsOfBlock(h, body, rest, c);
      ConnectionOfFields(rest, SubBlock(Strip(h), body, c));
  }

  lemma {:induction false} RoleOfLast(f: Forest, m: map<string, string>, k: string)
    ensures k in RoleOf(f, m) <==> k in m || (k in ROLE_KEYS && LastValue(f, k).Some?)
    ensures k in RoleOf(f, m) ==>
      RoleOf(f, m)[k] == if k in ROLE_KEYS && LastValue(f, k).Some? then LastValue(f, k).value else m[k]
  {
    hide KeyOf, ValueOf;
    match f
    case Empty =>
    case Assign(t, rest) =>
      RoleOfLast(rest, if KeyOf(t) in ROLE_KEYS then m[KeyOf(t) := ValueOf(t)] else m, k);
    case Block(_, _, rest) => RoleOfLast(rest, m, k);
  }

  lemma {:induction false} ChildrenOfLast(f: Forest, m: map<string, ChildSa>, n: string)
    ensures n in ChildrenOf(f, m) <==> n in m || LastBlock(f, n).Some?
    ensures n in ChildrenOf(f, m) ==>
      ChildrenOf(f, m)[n] == match LastBlock(f, n) case Some(b) => ChildOf(b, DefaultChild(n)) case None => m[n]
  {
    hide Strip, ChildOf;
    match f
    case Empty =>
    case Assign(_, rest) => ChildrenOfLast(rest, m, n);
    case Block(h, body, rest) => ChildrenOfLast(rest, m[Strip(h) := ChildOf(body, DefaultChild(Strip(h)))], n);
  }

  lemma {:induction false} ConnectionsOfLast(f: Forest, m: map<string, Connection>, n: string)
    ensures n in ConnectionsOf(f, m) <==> n in m || LastBlock(f, n).Some?
    ensures n in ConnectionsOf(f, m) ==>
      ConnectionsOf(f, m)[n] == match LastBlock(f, n)
        case Some(b) => ConnectionOf(b, DefaultConnection(n))
        case None => m[n]
  {
    hide Strip, ConnectionOf;
    match f
    case Empty =>
    case Assign(_, rest) => ConnectionsOfLast(rest, m, n);
    case Block(h, body, rest) =>
      ConnectionsOfLast(rest, m[Strip(h) := ConnectionOf(body, DefaultConnection(Strip(h)))], n);
  }

  lemma {:induction false} TopIsInside(f: Forest, m: map<string, Connection>)
    ensures TopConnections(f, m) == ConnectionsOf(Inside(f, "connections"), m)
  {
    hide ConnectionsOf, Strip;
    match f
    case Empty => assert ConnectionsOf(Empty, m) == m by { NoConnections(m); }
    case Assign(_, rest) => TopIsInside(rest, m);
    case Block(h, body, rest) =>
      AppendMeans(body, Inside(rest, "connections"));
      TopIsInside(rest, if Strip(h) == "connections" then ConnectionsOf(body, m) else m);
  }

  lemma NoConnections(m: map<string, Connection>)
    ensures ConnectionsOf(Empty, m) == m
  {}

  lemma SameRoles(f: Forest, g: Forest)
    requires SameValues(f, g, ROLE_KEYS)
    ensures RoleOf(f, map[]) == RoleOf(g, map[])
  {
    forall k ensures k in RoleOf(f, map[]) <==> k in RoleOf(g, map[])
      ensures k in RoleOf(f, map[]) ==> RoleOf(f, map[])[k] == RoleOf(g, map[])[k]
    {
      RoleOfLast(f, map[], k);
      RoleOfLast(g, map[], k);
    }
  }

  lemma SameChildren(f: Forest, g: Forest)
    requires SameChildBlocks(f, g)
    ensures ChildrenOf(f, map[]) == ChildrenOf(g, map[])
  {
    forall n ensures n in ChildrenOf(f, map[]) <==> n in ChildrenOf(g, map[])
      ensures n in ChildrenOf(f, map[]) ==> ChildrenOf(f, map[])[n] == ChildrenOf(g, map[])[n]
    {
      ChildrenOfLast(f, map[], n);
      ChildrenOfLast(g, map[], n);
      if LastBlock(f, n).Some? {
        ChildOfFields(LastBlock(f, n).value, DefaultChild(n));
        ChildOfFields(LastBlock(g, n).value, DefaultChild(n));
      }
    }
  }

  lemma SameConnection(f: Forest, g: Forest, n: string)
    requires SameConnectionBody(f, g)
    ensures ConnectionOf(f, DefaultConnection(n)) == ConnectionOf(g, DefaultConnection(n))
  {
    ConnectionOfFields(f, DefaultConnection(n));
    ConnectionOfFields(g, DefaultConnection(n));
    SameRoles(Inside(f, "local"), Inside(g, "local"));
    SameRoles(Inside(f, "remote"), Inside(g, "remote"));
    SameChildren(Inside(f, "children"), Inside(g, "children"));
  }

  /** Two documents with the same last values and blocks have the same connections, so the same public view. */
  lemma ViewDependsOnLastOnly(f: Forest, g: Forest)
    requires SameConfiguration(f, g)
    ensures Means(f).connections == Means(g).connections
  {
    var a, b := Inside(f, "connections"), Inside(g, "connections");
    TopIsInside(f, map[]);
    TopIsInside(g, map[]);
    forall n ensures n in ConnectionsOf(a, map[]) <==> n in ConnectionsOf(b, map[])
      ensures n in ConnectionsOf(a, map[]) ==> ConnectionsOf(a, map[])[n] == ConnectionsOf(b, map[])[n]
    {
      ConnectionsOfLast(a, map[], n);
      ConnectionsOfLast(b, map[], n);
      if LastBlock(a, n).Some? {
        SameConnection(LastBlock(a, n).value, LastBlock(b, n).value, n);
      }
    }
  }

  // What a secret holds

  /** The last value of a key in document order, nested blocks included. */
  function LastInside(f: Forest, k: string): Option<string> {
    match f
    case Empty => None
    case Assign(t, rest) =>
      if LastInside(rest, k).None? && KeyOf(t) == k then Some(ValueOf(t)) else LastInside(rest, k)
    case Block(_, body, rest) => if LastInside(rest, k).None? then LastInside(body, k) else LastInside(rest, k)
  }

  /** A secret keeps every key that is set anywhere in it: withheld if it is secret-named, else with its last value. */
  lemma {:induction false} SecretOfLast(f: Forest, s: Secret, k: string)
    requires k != "is_redacted"
    ensures k in SecretOf(f, s) <==> k in s || LastInside(f, k).Some?
    ensures k in SecretOf(f, s) ==>
      SecretOf(f, s)[k] == match LastInside(f, k)
        case Some(v) => if IsSecretKey(k) then Text(REDACTED) else Text(v)
        case None => s[k]
    decreases f
  {
    hide KeyOf, ValueOf, IsSecretKey;
    match f
    case Empty =>
    case Assign(t, rest) => SecretOfLast(rest, SetSecret(s, KeyOf(t), ValueOf(t)), k);
    case Block(_, body, rest) =>
      SecretOfLast(body, s, k);
      SecretOfLast(rest, SecretOf(body, s), k);
  }

  /** The flag is up from the first secret-named key on, unless a setting of its own name comes later. */
  lemma {:induction false} SecretFlag(f: Forest, s: Secret)
    requires LastInside(f, "is_redacted").None?
    ensures "is_redacted" in SecretOf(f, s)
      <==> "is_redacted" in s || exists k :: IsSecretKey(k) && LastInside(f, k).Some?
    ensures (exists k :: IsSecretKey(k) && LastInside(f, k).Some?) ==> SecretOf(f, s)["is_redacted"] == Flag(true)
    ensures !(exists k :: IsSecretKey(k) && LastInside(f, k).Some?) && "is_redacted" in s ==>
      SecretOf(f, s)["is_redacted"] == s["is_redacted"]
    decreases f
  {
    hide KeyOf, ValueOf, IsSecretKey;
    match f
    case Empty =>
    case Assign(t, rest) =>
      SecretFlag(rest, SetSecret(s, KeyOf(t), ValueOf(t)));
      if IsSecretKey(KeyOf(t)) { assert LastInside(f, KeyOf(t)).Some?; }
      forall k | IsSecretKey(k) && LastInside(rest, k).Some? ensures LastInside(f, k).Some? {}
    case Block(_, body, rest) =>
      SecretFlag(body, s);
      SecretFlag(rest, SecretOf(body, s));
      forall k | IsSecretKey(k) && (LastInside(rest, k).Some? || LastInside(body, k).Some?)
        ensures LastInside(f, k).Some? {}
  }

  /** A secret that is opened again starts over: its last block counts. */
  lemma {:induction false} SecretsOfLast(f: Forest, m: map<string, Secret>, n: string)
    ensures n in SecretsOf(f, m) <==> n in m || LastBlock(f, n).Some?
    ensures n in SecretsOf(f, m) ==>
      SecretsOf(f, m)[n] == match LastBlock(f, n)
        case Some(b) => SecretOf(b, DefaultSecret(n))
        case None => m[n]
  {
    hide Strip, SecretOf;
    match f
    case Empty =>
    case Assign(_, rest) => SecretsOfLast(rest, m, n);
    case Block(h, body, rest) => SecretsOfLast(rest, m[Strip(h) := SecretOf(body, DefaultSecret(Strip(h)))], n);
  }

  lemma {:induction false} AppendSecrets(f: Forest, g: Forest, m: map<string, Secret>)
    ensures SecretsOf(Append(f, g), m) == SecretsOf(g, SecretsOf(f, m))
  {
    hide Strip, SecretOf;
    match f
    case Empty =>
    case Assign(_, rest) => AppendSecrets(rest, g, m);
    case Block(h, body, rest) => AppendSecrets(rest, g, m[Strip(h) := SecretOf(body, DefaultSecret(Strip(h)))]);
  }

  lemma {:induction false} TopSecretsInside(f: Forest, m: map<string, Secret>)
    ensures TopSecrets(f, m) == SecretsOf(Inside(f, "secrets"), m)
  {
    hide Strip;
    match f
    case Empty =>
    case Assign(_, rest) => TopSecretsInside(rest, m);
    case Block(h, body, rest) =>
      if Strip(h) == "secrets" { AppendSecrets(body, Inside(rest, "secrets"), m); }
      hide SecretsOf;
      TopSecretsInside(rest, if Strip(h) == "secrets" then SecretsOf(body, m) else m);
  }

  /** A new secret carries its block's name as identifier and as type. */
  lemma SecretStartsNamed(n: string)
    ensures DefaultSecret(n).Keys == {"secret_id", "secret_type"}
    ensures DefaultSecret(n)["secret_id"] == Text(n) && DefaultSecret(n)["secret_type"] == Text(n)
  {}
}

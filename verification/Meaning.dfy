/** What a block forest means, by recursion on its structure: no stack, no context variables. */
module Meaning {
  import opened Text
  import opened SwanctlIr
  import opened Context
  import opened Forest

  /** The connections declared at top level; a later block of the same name replaces an earlier one. */
  function TopConnections(f: Forest, m: map<string, Connection>): map<string, Connection> {
    match f
    case Empty => m
    case Assign(_, rest) => TopConnections(rest, m)
    case Block(h, body, rest) =>
      TopConnections(rest, if Strip(h) == "connections" then ConnectionsOf(body, m) else m)
  }

  function ConnectionsOf(f: Forest, m: map<string, Connection>): map<string, Connection> {
    match f
    case Empty => m
    case Assign(_, rest) => ConnectionsOf(rest, m)
    case Block(h, body, rest) =>
      ConnectionsOf(rest, m[Strip(h) := ConnectionOf(body, DefaultConnection(Strip(h)))])
  }

  function ConnectionOf(f: Forest, c: Connection): (r: Connection)
    ensures r.name == c.name
  {
    match f
    case Empty => c
    case Assign(t, rest) => ConnectionOf(rest, SetConnection(c, KeyOf(t), ValueOf(t)).GetOr(c))
    case Block(h, body, rest) => ConnectionOf(rest, SubBlock(Strip(h), body, c))
  }

  /** A `local`, `remote` or `children` block inside a connection; any other block leaves it alone. */
  function SubBlock(name: string, body: Forest, c: Connection): (r: Connection)
    ensures r.name == c.name
  {
    if name == "local" then c.(local := RoleOf(body, c.local))
    else if name == "remote" then c.(remote := RoleOf(body, c.remote))
    else if name == "children" then c.(children := ChildrenOf(body, c.children))
    else c
  }

  function RoleOf(f: Forest, m: map<string, string>): map<string, string> {
    match f
    case Empty => m
    case Assign(t, rest) => RoleOf(rest, if KeyOf(t) in ROLE_KEYS then m[KeyOf(t) := ValueOf(t)] else m)
    case Block(_, _, rest) => RoleOf(rest, m)
  }

  function ChildrenOf(f: Forest, m: map<string, ChildSa>): map<string, ChildSa> {
    match f
    case Empty => m
    case Assign(_, rest) => ChildrenOf(rest, m)
    case Block(h, body, rest) => ChildrenOf(rest, m[Strip(h) := ChildOf(body, DefaultChild(Strip(h)))])
  }

  function ChildOf(f: Forest, c: ChildSa): (r: ChildSa)
    ensures r.name == c.name
  {
    match f
    case Empty => c
    case Assign(t, rest) => ChildOf(rest, SetChild(c, KeyOf(t), ValueOf(t)).GetOr(c))
    case Block(_, _, rest) => ChildOf(rest, c)
  }

  function TopSecrets(f: Forest, m: map<string, Secret>): map<string, Secret> {
    match f
    case Empty => m
    case Assign(_, rest) => TopSecrets(rest, m)
    case Block(h, body, rest) => TopSecrets(rest, if Strip(h) == "secrets" then SecretsOf(body, m) else m)
  }

  function SecretsOf(f: Forest, m: map<string, Secret>): map<string, Secret> {
    match f
    case Empty => m
    case Assign(_, rest) => SecretsOf(rest, m)
    case Block(h, body, rest) => SecretsOf(rest, m[Strip(h) := SecretOf(body, DefaultSecret(Strip(h)))])
  }

  /** Assignments in nested blocks belong to the enclosing secret. */
  function SecretOf(f: Forest, s: Secret): Secret {
    match f
    case Empty => s
    case Assign(t, rest) => SecretOf(rest, SetSecret(s, KeyOf(t), ValueOf(t)))
    case Block(_, body, rest) => SecretOf(rest, SecretOf(body, s))
  }

  /** Is key `k` directly under `path` one the normalized structure has a place for? */
  predicate Modelled(path: seq<string>, k: string) {
    || UnderSecret(path)
    || (UnderConnection(path) && |path| == 2 && k in CONNECTION_KEYS)
    || (UnderConnection(path) && |path| == 3 && path[2] in {"local", "remote"} && k in ROLE_KEYS)
    || (UnderChild(path) && |path| == 4 && k in CHILD_KEYS)
  }

  function Reported(path: seq<string>, k: string, v: string): Directive {
    Directive(JoinDots(path) + "." + k, if path == ["secrets"] && IsSecretKey(k) then REDACTED else v)
  }

  /** The directives without a place, in document order. */
  function UnsupportedOf(f: Forest, path: seq<string>): seq<Directive> {
    match f
    case Empty => []
    case Assign(t, rest) =>
      (if Modelled(path, KeyOf(t)) then [] else [Reported(path, KeyOf(t), ValueOf(t))]) + UnsupportedOf(rest, path)
    case Block(h, body, rest) => UnsupportedOf(body, path + [Strip(h)]) + UnsupportedOf(rest, path)
  }

  function Means(f: Forest): Document {
    Document(TopConnections(f, map[]), TopSecrets(f, map[]), UnsupportedOf(f, []))
  }

  // The walk computes the meaning: first the unsupported directives under any path, then the connections
  // and secrets, one lemma for each kind of enclosing block.

  lemma AssignReports(path: seq<string>, k: string, v: string, doc: Document)
    requires Located(path, doc)
    ensures AssignAt(path, k, v, doc).unsupported
         == doc.unsupported + (if Modelled(path, k) then [] else [Reported(path, k, v)])
  {
    hide SetConnection, SetChild, SetSecret, IsSecretKey, JoinDots;
  }

  lemma {:induction false} WalkUnsupported(f: Forest, path: seq<string>, doc: Document)
    requires Located(path, doc)
    ensures Walk(f, path, doc).unsupported == doc.unsupported + UnsupportedOf(f, path)
    decreases f
  {
    hide AssignAt, EnterAt, KeyOf, ValueOf, Strip, Modelled, Reported, Located;
    match f
    case Empty =>
    case Assign(t, rest) =>
      AssignReports(path, KeyOf(t), ValueOf(t), doc);
      WalkUnsupported(rest, path, AssignAt(path, KeyOf(t), ValueOf(t), doc));
    case Block(h, body, rest) =>
      var inner, entered := path + [Strip(h)], EnterAt(path, Strip(h), doc);
      EnterReportsNothing(path, Strip(h), doc);
      WalkUnsupported(body, inner, entered);
      LocatedOutside(path, Strip(h), Walk(body, inner, entered));
      WalkUnsupported(rest, path, Walk(body, inner, entered));
  }

  lemma EnterReportsNothing(path: seq<string>, name: string, doc: Document)
    requires Located(path, doc)
    ensures EnterAt(path, name, doc).unsupported == doc.unsupported
  {}

  /** Paths under which neither a block nor a key changes a connection or a secret. */
  predicate Inert(path: seq<string>) {
    && path != [] && path != ["connections"]
    && path[0] != "secrets"
    && (path[0] == "connections" ==>
         || (|path| == 3 && path[2] !in {"local", "remote", "children"})
         || (|path| == 4 && path[2] != "children")
         || |path| > 4)
  }

  /** The two maps of a document are the given ones. */
  predicate Holds(doc: Document, connections: map<string, Connection>, secrets: map<string, Secret>) {
    doc.connections == connections && doc.secrets == secrets
  }

  lemma Overwrite<V>(m: map<string, V>, n: string, first: V, second: V)
    ensures m[n := first][n := second] == m[n := second]
  {}

  lemma {:induction false} WalkInert(f: Forest, path: seq<string>, doc: Document)
    requires Located(path, doc) && Inert(path)
    ensures Holds(Walk(f, path, doc), doc.connections, doc.secrets)
    decreases f
  {
    hide KeyOf, ValueOf, Strip, JoinDots;
    match f
    case Empty =>
    case Assign(t, rest) => WalkInert(rest, path, AssignAt(path, KeyOf(t), ValueOf(t), doc));
    case Block(h, body, rest) =>
      var entered := EnterAt(path, Strip(h), doc);
      WalkInert(body, path + [Strip(h)], entered);
      WalkInert(rest, path, Walk(body, path + [Strip(h)], entered));
  }

  lemma {:induction false} WalkSecret(f: Forest, path: seq<string>, doc: Document)
    requires Located(path, doc) && UnderSecret(path)
    ensures Holds(Walk(f, path, doc), doc.connections, doc.secrets[path[1] := SecretOf(f, doc.secrets[path[1]])])
    decreases f
  {
    hide KeyOf, ValueOf, Strip, JoinDots, SetSecret;
    match f
    case Empty =>
    case Assign(t, rest) => WalkSecret(rest, path, AssignAt(path, KeyOf(t), ValueOf(t), doc));
    case Block(h, body, rest) =>
      var entered := EnterAt(path, Strip(h), doc);
      WalkSecret(body, path + [Strip(h)], entered);
      WalkSecret(rest, path, Walk(body, path + [Strip(h)], entered));
  }

  lemma AssignRole(n: string, role: string, k: string, v: string, doc: Document)
    requires role in {"local", "remote"} && Located(["connections", n, role], doc)
    ensures Holds(AssignAt(["connections", n, role], k, v, doc),
                  if k in ROLE_KEYS then doc.connections[n := SetRole(doc.connections[n], role, k, v)]
                  else doc.connections,
                  doc.secrets)
  {
    hide JoinDots, SetConnection, SetChild, SetSecret, IsSecretKey;
  }

  lemma {:induction false} WalkRole(f: Forest, n: string, role: string, doc: Document)
    requires role in {"local", "remote"} && Located(["connections", n, role], doc)
    ensures Holds(Walk(f, ["connections", n, role], doc),
                  doc.connections[n := SubBlock(role, f, doc.connections[n])], doc.secrets)
    decreases f
  {
    hide KeyOf, ValueOf, Strip, AssignAt;
    var path := ["connections", n, role];
    match f
    case Empty => assert SubBlock(role, f, doc.connections[n]) == doc.connections[n];
    case Assign(t, rest) =>
      AssignRole(n, role, KeyOf(t), ValueOf(t), doc);
      WalkRole(rest, n, role, AssignAt(path, KeyOf(t), ValueOf(t), doc));
    case Block(h, body, rest) =>
      WalkInert(body, path + [Strip(h)], EnterAt(path, Strip(h), doc));
      WalkRole(rest, n, role, Walk(body, path + [Strip(h)], EnterAt(path, Strip(h), doc)));
  }

  function WithChild(c: Connection, child: ChildSa): Connection {
    c.(children := c.children[child.name := child])
  }

  lemma OverwriteChild(m: map<string, Connection>, n: string, c: Connection, first: ChildSa, second: ChildSa)
    requires first.name == second.name
    ensures m[n := WithChild(c, first)][n := WithChild(WithChild(c, first), second)] == m[n := WithChild(c, second)]
  {
    Overwrite(c.children, first.name, first, second);
    Overwrite(m, n, WithChild(c, first), WithChild(c, second));
  }

  lemma {:induction false} WalkChild(f: Forest, n: string, k: string, doc: Document)
    requires Located(["connections", n, "children", k], doc)
    ensures Holds(Walk(f, ["connections", n, "children", k], doc),
                  doc.connections[n := WithChild(doc.connections[n], ChildOf(f, doc.connections[n].children[k]))],
                  doc.secrets)
    decreases f
  {
    hide KeyOf, ValueOf, Strip, JoinDots, SetChild;
    var path := ["connections", n, "children", k];
    var c := doc.connections[n];
    match f
    case Empty => assert WithChild(c, c.children[k]) == c;
    case Assign(t, rest) =>
      var next := AssignAt(path, KeyOf(t), ValueOf(t), doc);
      WalkChild(rest, n, k, next);
      var first := next.connections[n].children[k];
      if KeyOf(t) in CHILD_KEYS {
        OverwriteChild(doc.connections, n, c, first, ChildOf(rest, first));
      }
    case Block(h, body, rest) =>
      WalkInert(body, path + [Strip(h)], EnterAt(path, Strip(h), doc));
      WalkChild(rest, n, k, Walk(body, path + [Strip(h)], EnterAt(path, Strip(h), doc)));
  }

  lemma {:induction false} WalkChildren(f: Forest, n: string, doc: Document)
    requires Located(["connections", n], doc)
    ensures Holds(Walk(f, ["connections", n, "children"], doc),
                  doc.connections[n := SubBlock("children", f, doc.connections[n])], doc.secrets)
    decreases f
  {
    hide KeyOf, ValueOf, Strip, JoinDots, ChildOf;
    var path := ["connections", n, "children"];
    var c := doc.connections[n];
    match f
    case Empty => assert SubBlock("children", f, c) == c;
    case Assign(t, rest) => WalkChildren(rest, n, AssignAt(path, KeyOf(t), ValueOf(t), doc));
    case Block(h, body, rest) =>
      var k := Strip(h);
      var entered := EnterAt(path, k, doc);
      assert path + [k] == ["connections", n, "children", k];
      WalkChild(body, n, k, entered);
      OverwriteChild(doc.connections, n, c, DefaultChild(k), ChildOf(body, DefaultChild(k)));
      var next := Walk(body, path + [k], entered);
      WalkChildren(rest, n, next);
      Overwrite(doc.connections, n, next.connections[n], SubBlock("children", rest, next.connections[n]));
  }

  lemma {:induction false} WalkConnection(f: Forest, n: string, doc: Document)
    requires Located(["connections", n], doc)
    ensures Holds(Walk(f, ["connections", n], doc),
                  doc.connections[n := ConnectionOf(f, doc.connections[n])], doc.secrets)
    decreases f
  {
    hide KeyOf, ValueOf, Strip, JoinDots, SetConnection, SubBlock;
    var path := ["connections", n];
    match f
    case Empty =>
    case Assign(t, rest) => WalkConnection(rest, n, AssignAt(path, KeyOf(t), ValueOf(t), doc));
    case Block(h, body, rest) =>
      WalkSubBlock(body, n, Strip(h), doc);
      WalkConnection(rest, n, Walk(body, path + [Strip(h)], EnterAt(path, Strip(h), doc)));
  }

  lemma WalkSubBlock(body: Forest, n: string, name: string, doc: Document)
    requires Located(["connections", n], doc)
    ensures Holds(Walk(body, ["connections", n] + [name], EnterAt(["connections", n], name, doc)),
                  doc.connections[n := SubBlock(name, body, doc.connections[n])], doc.secrets)
  {
    assert ["connections", n] + [name] == ["connections", n, name];
    if name in {"local", "remote"} {
      WalkRole(body, n, name, doc);
    } else if name == "children" {
      WalkChildren(body, n, doc);
    } else {
      WalkInert(body, ["connections", n, name], doc);
    }
  }

  lemma {:induction false} WalkConnections(f: Forest, doc: Document)
    requires Located(["connections"], doc)
    ensures Holds(Walk(f, ["connections"], doc), ConnectionsOf(f, doc.connections), doc.secrets)
    decreases f
  {
    hide KeyOf, ValueOf, Strip, JoinDots, ConnectionOf;
    var path := ["connections"];
    match f
    case Empty =>
    case Assign(t, rest) => WalkConnections(rest, AssignAt(path, KeyOf(t), ValueOf(t), doc));
    case Block(h, body, rest) =>
      var n := Strip(h);
      var entered := EnterAt(path, n, doc);
      assert path + [n] == ["connections", n];
      WalkConnection(body, n, entered);
      Overwrite(doc.connections, n, DefaultConnection(n), ConnectionOf(body, DefaultConnection(n)));
      WalkConnections(rest, Walk(body, path + [n], entered));
  }

  lemma {:induction false} WalkSecrets(f: Forest, doc: Document)
    requires Located(["secrets"], doc)
    ensures Holds(Walk(f, ["secrets"], doc), doc.connections, SecretsOf(f, doc.secrets))
    decreases f
  {
    hide KeyOf, ValueOf, Strip, JoinDots, SecretOf, IsSecretKey;
    var path := ["secrets"];
    match f
    case Empty =>
    case Assign(t, rest) => WalkSecrets(rest, AssignAt(path, KeyOf(t), ValueOf(t), doc));
    case Block(h, body, rest) =>
      var n := Strip(h);
      var entered := EnterAt(path, n, doc);
      assert path + [n] == ["secrets", n];
      WalkSecret(body, ["secrets", n], entered);
      Overwrite(doc.secrets, n, DefaultSecret(n), SecretOf(body, DefaultSecret(n)));
      WalkSecrets(rest, Walk(body, path + [n], entered));
  }

  lemma {:induction false} WalkTop(f: Forest, doc: Document)
    ensures Holds(Walk(f, [], doc), TopConnections(f, doc.connections), TopSecrets(f, doc.secrets))
    decreases f
  {
    hide KeyOf, ValueOf, Strip, JoinDots, ConnectionsOf, SecretsOf;
    match f
    case Empty =>
    case Assign(t, rest) => WalkTop(rest, AssignAt([], KeyOf(t), ValueOf(t), doc));
    case Block(h, body, rest) =>
      var name := Strip(h);
      assert [] + [name] == [name];
      if name == "connections" {
        WalkConnections(body, doc);
      } else if name == "secrets" {
        WalkSecrets(body, doc);
      } else {
        WalkInert(body, [name], doc);
      }
      WalkTop(rest, Walk(body, [name], doc));
  }

  /** The machine's context-driven walk over a whole forest computes its meaning. */
  lemma WalkMeans(f: Forest)
    ensures Walk(f, [], EMPTY_DOCUMENT) == Means(f)
  {
    WalkUnsupported(f, [], EMPTY_DOCUMENT);
    WalkTop(f, EMPTY_DOCUMENT);
  }
}

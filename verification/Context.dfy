/** What opening a block or assigning a key does, told by the path of enclosing block names alone. */
module Context {
  import opened Text
  import opened SwanctlIr

  const EMPTY_DOCUMENT := Document(map[], map[], [])

  /** The left of the first `=` without surrounding whitespace. */
  function KeyOf(token: string): string {
    Strip(token[..IndexOf(token, '=')])
  }

  predicate DoubleQuote(c: char) {
    c == '\"'
  }

  predicate SingleQuote(c: char) {
    c == '\''
  }

  /** The right of the first `=` without surrounding whitespace, then double quotes, then single quotes. */
  function ValueOf(token: string): string {
    var i := IndexOf(token, '=');
    if i == |token| then "" else
      TrimBy(TrimBy(Strip(token[i + 1..]), DoubleQuote), SingleQuote)
  }

  predicate UnderConnection(path: seq<string>) {
    |path| >= 2 && path[0] == "connections"
  }

  predicate UnderChild(path: seq<string>) {
    |path| >= 4 && path[0] == "connections" && path[2] == "children"
  }

  predicate UnderSecret(path: seq<string>) {
    |path| >= 2 && path[0] == "secrets"
  }

  /** Every enclosing connection, child and secret has its entry under its own name. */
  predicate Located(path: seq<string>, doc: Document) {
    && (UnderConnection(path) ==> path[1] in doc.connections && doc.connections[path[1]].name == path[1])
    && (UnderChild(path) ==>
         path[3] in doc.connections[path[1]].children && doc.connections[path[1]].children[path[3]].name == path[3])
    && (UnderSecret(path) ==> path[1] in doc.secrets)
  }

  function Note(doc: Document, path: seq<string>, k: string, v: string): Document {
    doc.(unsupported := doc.unsupported + [Directive(JoinDots(path) + "." + k, v)])
  }

  function PutConnection(doc: Document, c: Connection): Document {
    doc.(connections := doc.connections[c.name := c])
  }

  function PutChild(doc: Document, n: string, c: ChildSa): Document
    requires n in doc.connections
  {
    var conn := doc.connections[n];
    doc.(connections := doc.connections[n := conn.(children := conn.children[c.name := c])])
  }

  function SetRole(c: Connection, role: string, k: string, v: string): Connection {
    if role == "local" then c.(local := c.local[k := v]) else c.(remote := c.remote[k := v])
  }

  /** Opening block `name`: a connection, child or secret that is opened (again) starts from its defaults. */
  function EnterAt(path: seq<string>, name: string, doc: Document): (r: Document)
    requires Located(path, doc)
    ensures Located(path + [name], r)
  {
    if |path| == 1 && path[0] == "connections" then
      PutConnection(doc, DefaultConnection(name))
    else if |path| == 3 && path[0] == "connections" && path[2] == "children" then
      PutChild(doc, path[1], DefaultChild(name))
    else if |path| == 1 && path[0] == "secrets" then
      doc.(secrets := doc.secrets[name := DefaultSecret(name)])
    else
      doc
  }

  function AssignAt(path: seq<string>, k: string, v: string, doc: Document): (r: Document)
    requires Located(path, doc)
    ensures Located(path, r)
  {
    if path != [] && path[0] == "connections" then
      if |path| == 2 then
        match SetConnection(doc.connections[path[1]], k, v)
        case Some(c) => PutConnection(doc, c)
        case None => Note(doc, path, k, v)
      else if |path| == 3 && path[2] in {"local", "remote"} && k in ROLE_KEYS then
        PutConnection(doc, SetRole(doc.connections[path[1]], path[2], k, v))
      else if |path| == 4 && path[2] == "children" then
        match SetChild(doc.connections[path[1]].children[path[3]], k, v)
        case Some(c) => PutChild(doc, path[1], c)
        case None => Note(doc, path, k, v)
      else
        Note(doc, path, k, v)
    else if path != [] && path[0] == "secrets" then
      if |path| >= 2 then
        doc.(secrets := doc.secrets[path[1] := SetSecret(doc.secrets[path[1]], k, v)])
      else
        Note(doc, path, k, if IsSecretKey(k) then REDACTED else v)
    else
      Note(doc, path, k, v)
  }

  lemma LocatedOutside(path: seq<string>, name: string, doc: Document)
    requires Located(path + [name], doc)
    ensures Located(path, doc)
  {}
}

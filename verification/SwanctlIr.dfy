/** The normalized configuration the parser builds: connections, their children, redacted secrets. */
module SwanctlIr {
  import opened Wrappers
  import opened Text
  import opened Proposals

  datatype ChildSa = ChildSa(
    name: string,
    mode: string,
    localTs: string,
    remoteTs: string,
    espProposals: seq<Proposal>,
    rawEspProposals: Option<string>,
    startAction: string,
    rekeyTime: string,
    replayWindow: int)

  datatype Connection = Connection(
    name: string,
    version: int,
    localAddrs: string,
    remoteAddrs: string,
    proposals: seq<Proposal>,
    rawProposals: Option<string>,
    encap: bool,
    rekeyTime: string,
    local: map<string, string>,
    remote: map<string, string>,
    children: map<string, ChildSa>)

  datatype SecretValue = Text(text: string) | Flag(flag: bool)

  type Secret = map<string, SecretValue>

  datatype Directive = Directive(path: string, value: string)

  /** The parser's result: `unsupported` lists the directives that were not modelled, in document order. */
  datatype Document = Document(
    connections: map<string, Connection>,
    secrets: map<string, Secret>,
    unsupported: seq<Directive>)

  const REDACTED := "[REDACTED_SECRET]"

  const ROLE_KEYS: set<string> := {"id", "auth", "certs", "cacerts"}

  const CONNECTION_KEYS: set<string> :=
    {"version", "local_addrs", "remote_addrs", "proposals", "encap", "rekey_time"}

  const CHILD_KEYS: set<string> :=
    {"mode", "local_ts", "remote_ts", "esp_proposals", "start_action", "rekey_time", "replay_window"}

  const SECRET_KEY_NAMES: set<string> :=
    {"secret", "password", "key", "rsa_key", "ecdsa_key", "private_key", "pkcs12", "file"}

  predicate IsSecretKey(k: string) {
    Lower(k) in SECRET_KEY_NAMES
  }

  function DefaultConnection(name: string): Connection {
    Connection(name, 2, "%any", "%any", [], None, false, "14400s", map[], map[], map[])
  }

  function DefaultChild(name: string): ChildSa {
    ChildSa(name, "tunnel", "0.0.0.0/0", "0.0.0.0/0", [], None, "start", "3600s", 64)
  }

  function DefaultSecret(name: string): Secret {
    map["secret_id" := Text(name), "secret_type" := Text(name)]
  }

  predicate SaysYes(v: string) {
    Lower(v) in {"yes", "true", "1"}
  }

  /** A connection attribute takes effect; `None` when the key is not modelled. */
  function SetConnection(c: Connection, k: string, v: string): (r: Option<Connection>)
    ensures r.Some? <==> k in CONNECTION_KEYS
    ensures r.Some? ==> r.value.name == c.name && r.value.children == c.children
    ensures r.Some? ==> r.value.local == c.local && r.value.remote == c.remote
  {
    if k == "version" then Some(c.(version := ParseInt(v).GetOr(2)))
    else if k == "local_addrs" then Some(c.(localAddrs := v))
    else if k == "remote_addrs" then Some(c.(remoteAddrs := v))
    else if k == "proposals" then Some(c.(proposals := ParseProposalsList(v), rawProposals := Some(v)))
    else if k == "encap" then Some(c.(encap := SaysYes(v)))
    else if k == "rekey_time" then Some(c.(rekeyTime := v))
    else None
  }

  function SetChild(c: ChildSa, k: string, v: string): (r: Option<ChildSa>)
    ensures r.Some? <==> k in CHILD_KEYS
    ensures r.Some? ==> r.value.name == c.name
  {
    if k == "mode" then Some(c.(mode := v))
    else if k == "local_ts" then Some(c.(localTs := v))
    else if k == "remote_ts" then Some(c.(remoteTs := v))
    else if k == "esp_proposals" then Some(c.(espProposals := ParseProposalsList(v), rawEspProposals := Some(v)))
    else if k == "start_action" then Some(c.(startAction := v))
    else if k == "rekey_time" then Some(c.(rekeyTime := v))
    else if k == "replay_window" then Some(c.(replayWindow := ParseInt(v).GetOr(64)))
    else None
  }

  function SetSecret(s: Secret, k: string, v: string): Secret {
    if IsSecretKey(k) then s[k := Text(REDACTED)]["is_redacted" := Flag(true)]
    else s[k := Text(v)]
  }

  /** What the parser guarantees about every connection it stores under `name`. */
  predicate ChildWellFormed(name: string, c: ChildSa) {
    && c.name == name
    && c.espProposals == (if c.rawEspProposals.Some? then ParseProposalsList(c.rawEspProposals.value) else [])
  }

  predicate ConnectionWellFormed(name: string, c: Connection) {
    && c.name == name
    && c.proposals == (if c.rawProposals.Some? then ParseProposalsList(c.rawProposals.value) else [])
    && c.local.Keys <= ROLE_KEYS && c.remote.Keys <= ROLE_KEYS
    && forall n :: n in c.children ==> ChildWellFormed(n, c.children[n])
  }

  predicate WellFormed(conns: map<string, Connection>) {
    forall n :: n in conns ==> ConnectionWellFormed(n, conns[n])
  }
}

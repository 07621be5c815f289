/** The single pass over the token stream, once as a specification and once as the loop that performs it. */
module TokenMachine {
  import opened Wrappers
  import opened Text
  import opened SwanctlIr
  import opened Context

  const MAX_NESTING_DEPTH: nat := 8

  datatype ParseError =
    | EmptyText | TextTooLong | TooManyLines | LineTooLong
    | InvalidBlockName | NestingTooDeep | UnexpectedClose | InvalidSyntax | UnclosedBlocks

  /** A token opens a block when the next one is `{`, whatever the token itself is. */
  predicate OpensBlock(tokens: seq<string>) {
    |tokens| >= 2 && tokens[1] == "{"
  }

  predicate ValidName(name: string) {
    name != "" && '=' !in name
  }

  /** The pass with nothing but the stack of open block names for a context. */
  function Run(tokens: seq<string>, path: seq<string>, doc: Document): Result<Document, ParseError>
    requires Located(path, doc)
    decreases |tokens|
  {
    if tokens == [] then
      if path == [] then Ok(doc) else Err(UnclosedBlocks)
    else if OpensBlock(tokens) then
      var name := Strip(tokens[0]);
      if !ValidName(name) then Err(InvalidBlockName)
      else if |path| + 1 > MAX_NESTING_DEPTH then Err(NestingTooDeep)
      else Run(tokens[2..], path + [name], EnterAt(path, name, doc))
    else if tokens[0] == "}" then
      if path == [] then Err(UnexpectedClose)
      else
        assert path == path[..|path| - 1] + [path[|path| - 1]];
        LocatedOutside(path[..|path| - 1], path[|path| - 1], doc);
        Run(tokens[1..], path[..|path| - 1], doc)
    else if '=' in tokens[0] then
      Run(tokens[1..], path, AssignAt(path, KeyOf(tokens[0]), ValueOf(tokens[0]), doc))
    else
      Err(InvalidSyntax)
  }

  /** The name of the open connection, child or secret that `path` lies in, if any. */
  function OpenConnection(path: seq<string>): Option<string> {
    if UnderConnection(path) then Some(path[1]) else None
  }

  function OpenChild(path: seq<string>): Option<string> {
    if UnderChild(path) then Some(path[3]) else None
  }

  function OpenSecret(path: seq<string>): Option<string> {
    if UnderSecret(path) then Some(path[1]) else None
  }

  /** The key-value branch: which entry is written is decided from the context variables. */
  method Assign(
      k: string, v: string, blockStack: seq<string>,
      currentConn: Option<string>, currentChild: Option<string>, currentSecret: Option<string>,
      connections0: map<string, Connection>, secrets0: map<string, Secret>, unsupported0: seq<Directive>)
    returns (connections: map<string, Connection>, secrets: map<string, Secret>, unsupported: seq<Directive>)
    requires currentConn == OpenConnection(blockStack)
    requires currentChild == OpenChild(blockStack)
    requires currentSecret == OpenSecret(blockStack)
    requires Located(blockStack, Document(connections0, secrets0, unsupported0))
    ensures Document(connections, secrets, unsupported)
         == AssignAt(blockStack, k, v, Document(connections0, secrets0, unsupported0))
  {
    hide SetConnection, SetChild, SetSecret, IsSecretKey, JoinDots;
    connections, secrets, unsupported := connections0, secrets0, unsupported0;
    var here := JoinDots(blockStack) + "." + k;
    if blockStack != [] && blockStack[0] == "connections" {
      if |blockStack| == 2 && currentConn.Some? {
        match SetConnection(connections[currentConn.value], k, v)
        case Some(c) => connections := connections[currentConn.value := c];
        case None => unsupported := unsupported + [Directive(here, v)];
      } else if |blockStack| == 3 && currentConn.Some? && blockStack[2] in {"local", "remote"} {
        if k in ROLE_KEYS {
          connections := connections[currentConn.value :=
            SetRole(connections[currentConn.value], blockStack[2], k, v)];
        } else {
          unsupported := unsupported + [Directive(here, v)];
        }
      } else if |blockStack| == 4 && currentConn.Some? && currentChild.Some? && blockStack[2] == "children" {
        var conn := connections[currentConn.value];
        match SetChild(conn.children[currentChild.value], k, v)
        case Some(c) =>
          connections := connections[currentConn.value :=
            conn.(children := conn.children[currentChild.value := c])];
        case None => unsupported := unsupported + [Directive(here, v)];
      } else {
        unsupported := unsupported + [Directive(here, v)];
      }
    } else if blockStack != [] && blockStack[0] == "secrets" {
      if currentSecret.Some? {
        secrets := secrets[currentSecret.value := SetSecret(secrets[currentSecret.value], k, v)];
      } else {
        unsupported := unsupported + [Directive(here, if IsSecretKey(k) then REDACTED else v)];
      }
    } else {
      unsupported := unsupported + [Directive(here, v)];
    }
  }

  /** The parser's loop, with its block stack, depth counter and three context variables. */
  method Process(tokens: seq<string>) returns (r: Result<Document, ParseError>)
    ensures r == Run(tokens, [], EMPTY_DOCUMENT)
  {
    hide AssignAt, KeyOf, ValueOf, Strip;
    var connections: map<string, Connection> := map[];
    var secrets: map<string, Secret> := map[];
    var unsupported: seq<Directive> := [];
    var blockStack: seq<string> := [];
    var depth := 0;
    var currentConn: Option<string> := None;
    var currentChild: Option<string> := None;
    var currentSecret: Option<string> := None;
    var idx := 0;
    while idx < |tokens|
      invariant 0 <= idx <= |tokens|
      invariant depth == |blockStack| <= MAX_NESTING_DEPTH
      invariant currentConn == OpenConnection(blockStack)
      invariant currentChild == OpenChild(blockStack)
      invariant currentSecret == OpenSecret(blockStack)
      invariant Located(blockStack, Document(connections, secrets, unsupported))
      invariant Run(tokens[idx..], blockStack, Document(connections, secrets, unsupported))
             == Run(tokens, [], EMPTY_DOCUMENT)
    {
      ghost var before := Document(connections, secrets, unsupported);
      ghost var path := blockStack;
      var token := tokens[idx];
      if idx + 1 < |tokens| && tokens[idx + 1] == "{" {
        var name := Strip(token);
        if !ValidName(name) { return Err(InvalidBlockName); }
        depth := depth + 1;
        if depth > MAX_NESTING_DEPTH { return Err(NestingTooDeep); }
        blockStack := blockStack + [name];
        if |blockStack| == 2 && blockStack[0] == "connections" {
          currentConn := Some(name);
          connections := connections[name := DefaultConnection(name)];
        } else if |blockStack| == 4 && blockStack[0] == "connections" && blockStack[2] == "children" {
          currentChild := Some(name);
          if currentConn.Some? && currentConn.value in connections {
            var conn := connections[currentConn.value];
            connections := connections[currentConn.value :=
              conn.(children := conn.children[name := DefaultChild(name)])];
          }
        } else if |blockStack| == 2 && blockStack[0] == "secrets" {
          currentSecret := Some(name);
          secrets := secrets[name := DefaultSecret(name)];
        }
        assert tokens[idx..][2..] == tokens[idx + 2..];
        assert Document(connections, secrets, unsupported) == EnterAt(path, name, before);
        idx := idx + 2;
      } else if token == "}" {
        if blockStack == [] { return Err(UnexpectedClose); }
        var closing := blockStack[|blockStack| - 1];
        blockStack := blockStack[..|blockStack| - 1];
        depth := depth - 1;
        assert path == blockStack + [closing];
        if currentConn == Some(closing) && |blockStack| == 1 {
          currentConn := None;
        } else if currentChild == Some(closing) && |blockStack| == 3 {
          currentChild := None;
        } else if currentSecret == Some(closing) && |blockStack| == 1 {
          currentSecret := None;
        }
        LocatedOutside(blockStack, closing, before);
        assert tokens[idx..][1..] == tokens[idx + 1..];
        idx := idx + 1;
      } else if '=' in token {
        connections, secrets, unsupported :=
          Assign(KeyOf(token), ValueOf(token), blockStack, currentConn, currentChild, currentSecret,
                 connections, secrets, unsupported);
        assert tokens[idx..][1..] == tokens[idx + 1..];
        idx := idx + 1;
      } else {
        return Err(InvalidSyntax);
      }
    }
    if blockStack != [] { return Err(UnclosedBlocks); }
    return Ok(Document(connections, secrets, unsupported));
  }
}

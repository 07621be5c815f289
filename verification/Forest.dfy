/** Block forests: the nested structure that an accepted token stream flattens. */
module Forest {
  import opened Text
  import opened SwanctlIr
  import opened Context
  import opened TokenMachine

  datatype Forest =
    | Empty
    | Assign(text: string, rest: Forest)
    | Block(header: string, body: Forest, rest: Forest)

  function Flatten(f: Forest): seq<string> {
    match f
    case Empty => []
    case Assign(t, rest) => [t] + Flatten(rest)
    case Block(h, body, rest) => [h, "{"] + Flatten(body) + ["}"] + Flatten(rest)
  }

  /** Valid block names, assignments for the other items, and no block below level 8. */
  predicate Acceptable(f: Forest, depth: nat) {
    match f
    case Empty => true
    case Assign(t, rest) => '=' in t && Acceptable(rest, depth)
    case Block(h, body, rest) =>
      && ValidName(Strip(h))
      && depth + 1 <= MAX_NESTING_DEPTH
      && Acceptable(body, depth + 1)
      && Acceptable(rest, depth)
  }

  predicate StartsWithBrace(f: Forest) {
    f.Block? && f.header == "{"
  }

  /** No item is directly followed by a block that is itself called `{`: such an item would be read as its name. */
  predicate Readable(f: Forest) {
    match f
    case Empty => true
    case Assign(_, rest) => !StartsWithBrace(rest) && Readable(rest)
    case Block(_, body, rest) => !StartsWithBrace(rest) && Readable(body) && Readable(rest)
  }

  /** The items of a forest in document order, each acting on the document under its path. */
  function Walk(f: Forest, path: seq<string>, doc: Document): (r: Document)
    requires Located(path, doc)
    ensures Located(path, r)
  {
    match f
    case Empty => doc
    case Assign(t, rest) => Walk(rest, path, AssignAt(path, KeyOf(t), ValueOf(t), doc))
    case Block(h, body, rest) =>
      var name := Strip(h);
      var inside := Walk(body, path + [name], EnterAt(path, name, doc));
      LocatedOutside(path, name, inside);
      Walk(rest, path, inside)
  }

  /** One step of the machine at the head of each kind of item, and at the brace that closes a block. */
  lemma RunBlock(h: string, tokens: seq<string>, path: seq<string>, doc: Document)
    requires Located(path, doc) && ValidName(Strip(h)) && |path| + 1 <= MAX_NESTING_DEPTH
    ensures Run([h, "{"] + tokens, path, doc) == Run(tokens, path + [Strip(h)], EnterAt(path, Strip(h), doc))
  {
    hide EnterAt, Strip;
    assert ([h, "{"] + tokens)[2..] == tokens;
  }

  lemma RunAssign(t: string, tokens: seq<string>, path: seq<string>, doc: Document)
    requires Located(path, doc) && '=' in t && (tokens == [] || tokens[0] != "{")
    ensures Run([t] + tokens, path, doc) == Run(tokens, path, AssignAt(path, KeyOf(t), ValueOf(t), doc))
  {
    hide AssignAt, KeyOf, ValueOf;
    assert ([t] + tokens)[1..] == tokens;
  }

  lemma RunClose(name: string, tokens: seq<string>, path: seq<string>, doc: Document)
    requires Located(path + [name], doc) && (tokens == [] || tokens[0] != "{")
    ensures Located(path, doc)
    ensures Run(["}"] + tokens, path + [name], doc) == Run(tokens, path, doc)
  {
    LocatedOutside(path, name, doc);
    assert (["}"] + tokens)[1..] == tokens && (path + [name])[..|path|] == path;
  }

  lemma FlattenHead(f: Forest, after: seq<string>)
    requires !StartsWithBrace(f) && (f.Assign? ==> '=' in f.text)
    requires after == [] || after[0] != "{"
    ensures Flatten(f) + after == [] || (Flatten(f) + after)[0] != "{"
  {
    assert f == Empty ==> Flatten(f) + after == after;
  }

  lemma FlattenBlock(h: string, body: Forest, rest: Forest, after: seq<string>)
    ensures Flatten(Block(h, body, rest)) + after == [h, "{"] + (Flatten(body) + (["}"] + (Flatten(rest) + after)))
  {}

  lemma FlattenAssign(t: string, rest: Forest, after: seq<string>)
    ensures Flatten(Assign(t, rest)) + after == [t] + (Flatten(rest) + after)
  {}

  /** The machine that meets a flattened forest does what the walk does, whatever follows. */
  lemma {:induction false} RunWalks(f: Forest, path: seq<string>, doc: Document, after: seq<string>)
    requires Located(path, doc) && Acceptable(f, |path|) && Readable(f)
    requires after == [] || after[0] != "{"
    ensures Run(Flatten(f) + after, path, doc) == Run(after, path, Walk(f, path, doc))
    decreases f
  {
    hide Run, AssignAt, EnterAt, KeyOf, ValueOf, Located;
    match f
    case Empty =>
      assert Flatten(f) + after == after;
    case Assign(t, rest) =>
      FlattenHead(rest, after);
      RunAssign(t, Flatten(rest) + after, path, doc);
      RunWalks(rest, path, AssignAt(path, KeyOf(t), ValueOf(t), doc), after);
      FlattenAssign(t, rest, after);
    case Block(h, body, rest) =>
      var name := Strip(h);
      var entered := EnterAt(path, name, doc);
      var inside := Walk(body, path + [name], entered);
      var tail := Flatten(rest) + after;
      FlattenHead(rest, after);
      RunBlock(h, Flatten(body) + (["}"] + tail), path, doc);
      RunWalks(body, path + [name], entered, ["}"] + tail);
      RunClose(name, tail, path, inside);
      RunWalks(rest, path, inside, after);
      FlattenBlock(h, body, rest, after);
  }

  /** What acceptance says about the first token. */
  lemma AcceptedHead(tokens: seq<string>, path: seq<string>, doc: Document)
    requires Located(path, doc) && Run(tokens, path, doc).Ok?
    ensures tokens == [] ==> path == []
    ensures OpensBlock(tokens) ==>
      && ValidName(Strip(tokens[0])) && |path| + 1 <= MAX_NESTING_DEPTH
      && Run(tokens[2..], path + [Strip(tokens[0])], EnterAt(path, Strip(tokens[0]), doc)).Ok?
    ensures tokens != [] && !OpensBlock(tokens) && tokens[0] == "}" ==> path != []
    ensures tokens != [] && !OpensBlock(tokens) && tokens[0] != "}" ==>
      '=' in tokens[0] && Run(tokens[1..], path, AssignAt(path, KeyOf(tokens[0]), ValueOf(tokens[0]), doc)).Ok?
  {
    hide AssignAt, EnterAt, KeyOf, ValueOf;
  }

  /**
   * An accepted stream is a flattened forest up to the brace that closes the innermost open block, or up to its end.
   */
  lemma {:induction false} AcceptedReads(tokens: seq<string>, path: seq<string>, doc: Document)
    returns (f: Forest, after: seq<string>)
    requires Located(path, doc) && Run(tokens, path, doc).Ok?
    ensures Acceptable(f, |path|) && Readable(f)
    ensures StartsWithBrace(f) ==> tokens != [] && tokens[0] == "{"
    ensures path == [] ==> tokens == Flatten(f)
    ensures path != [] ==> tokens == Flatten(f) + (["}"] + after) && (after == [] || after[0] != "{")
    decreases |tokens|
  {
    hide Run, AssignAt, EnterAt, KeyOf, ValueOf, Located;
    AcceptedHead(tokens, path, doc);
    if tokens == [] {
      f, after := Empty, [];
    } else if OpensBlock(tokens) {
      f, after := AcceptedBlock(tokens, path, doc);
    } else if tokens[0] == "}" {
      f, after := Empty, tokens[1..];
      assert tokens == ["}"] + after == Flatten(f) + (["}"] + after);
    } else {
      var t := tokens[0];
      var rest;
      rest, after := AcceptedReads(tokens[1..], path, AssignAt(path, KeyOf(t), ValueOf(t), doc));
      f := Assign(t, rest);
      assert tokens == [t] + tokens[1..];
    }
  }

  lemma {:induction false} AcceptedBlock(tokens: seq<string>, path: seq<string>, doc: Document)
    returns (f: Forest, after: seq<string>)
    requires Located(path, doc) && Run(tokens, path, doc).Ok? && OpensBlock(tokens)
    ensures Acceptable(f, |path|) && Readable(f)
    ensures StartsWithBrace(f) ==> tokens[0] == "{"
    ensures path == [] ==> tokens == Flatten(f)
    ensures path != [] ==> tokens == Flatten(f) + (["}"] + after) && (after == [] || after[0] != "{")
    decreases |tokens|, 0
  {
    hide Run, AssignAt, EnterAt, KeyOf, ValueOf, Located;
    AcceptedHead(tokens, path, doc);
    var name := Strip(tokens[0]);
    var entered := EnterAt(path, name, doc);
    var body, outer := AcceptedReads(tokens[2..], path + [name], entered);
    RunWalks(body, path + [name], entered, ["}"] + outer);
    RunClose(name, outer, path, Walk(body, path + [name], entered));
    var rest;
    rest, after := AcceptedReads(outer, path, Walk(body, path + [name], entered));
    f := Block(tokens[0], body, rest);
    assert tokens == [tokens[0], "{"] + (Flatten(body) + (["}"] + outer));
    if path == [] {
      FlattenBlock(tokens[0], body, rest, []);
      assert Flatten(f) + [] == Flatten(f) && Flatten(rest) + [] == outer;
    } else {
      FlattenBlock(tokens[0], body, rest, ["}"] + after);
    }
  }
}

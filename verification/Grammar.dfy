/** The accepted token streams are exactly the flattened forests, each stream reads one way only. */
module Grammar {
  import opened Wrappers
  import opened Text
  import opened Context
  import opened TokenMachine
  import opened Forest
  import opened Meaning

  /** `f` is a reading of the stream as nested blocks. */
  predicate Reads(tokens: seq<string>, f: Forest) {
    Acceptable(f, 0) && Readable(f) && Flatten(f) == tokens
  }

  lemma ReadingIsAccepted(tokens: seq<string>, f: Forest)
    requires Reads(tokens, f)
    ensures Run(tokens, [], EMPTY_DOCUMENT) == Ok(Means(f))
  {
    RunWalks(f, [], EMPTY_DOCUMENT, []);
    WalkMeans(f);
    assert tokens + [] == tokens;
  }

  lemma AcceptedHasReading(tokens: seq<string>) returns (f: Forest)
    requires Run(tokens, [], EMPTY_DOCUMENT).Ok?
    ensures Reads(tokens, f)
  {
    var after;
    f, after := AcceptedReads(tokens, [], EMPTY_DOCUMENT);
  }

  /**
   * For every token stream: accepted exactly when it has a reading, and then the outcome is what that reading means.
   */
  lemma AcceptsExactly(tokens: seq<string>)
    ensures Run(tokens, [], EMPTY_DOCUMENT).Ok? <==> exists f :: Reads(tokens, f)
    ensures forall f :: Reads(tokens, f) ==> Run(tokens, [], EMPTY_DOCUMENT) == Ok(Means(f))
  {
    forall f | Reads(tokens, f) ensures Run(tokens, [], EMPTY_DOCUMENT) == Ok(Means(f)) {
      ReadingIsAccepted(tokens, f);
    }
    if Run(tokens, [], EMPTY_DOCUMENT).Ok? {
      var f := AcceptedHasReading(tokens);
    }
  }

  /** What may come after the items of a block: nothing, or its closing brace. */
  predicate Closes(tokens: seq<string>) {
    tokens == [] || (tokens[0] == "}" && !OpensBlock(tokens))
  }

  lemma {:induction false} FlattenInjective(f: Forest, g: Forest, a: seq<string>, b: seq<string>, depth: nat)
    requires Acceptable(f, depth) && Acceptable(g, depth) && Readable(f) && Readable(g)
    requires Closes(a) && Closes(b)
    requires Flatten(f) + a == Flatten(g) + b
    ensures f == g && a == b
    decreases f
  {
    hide Strip;
    HeadKind(f, a, depth);
    HeadKind(g, b, depth);
    match f
    case Empty =>
      assert Flatten(f) + a == a && (g == Empty ==> Flatten(g) + b == b);
    case Assign(t, rest) =>
      FlattenAssign(t, rest, a);
      FlattenAssign(g.text, g.rest, b);
      SameTail([t], Flatten(rest) + a, [g.text], Flatten(g.rest) + b);
      FlattenInjective(rest, g.rest, a, b, depth);
    case Block(h, body, rest) =>
      FlattenBlock(h, body, rest, a);
      FlattenBlock(g.header, g.body, g.rest, b);
      var x, y := Flatten(rest) + a, Flatten(g.rest) + b;
      SameTail([h, "{"], Flatten(body) + (["}"] + x), [g.header, "{"], Flatten(g.body) + (["}"] + y));
      FlattenHead(rest, a);
      FlattenHead(g.rest, b);
      FlattenInjective(body, g.body, ["}"] + x, ["}"] + y, depth + 1);
      SameTail(["}"], x, ["}"], y);
      FlattenInjective(rest, g.rest, a, b, depth);
  }

  lemma SameTail(a: seq<string>, x: seq<string>, b: seq<string>, y: seq<string>)
    requires |a| == |b| && a + x == b + y
    ensures a == b && x == y
  {
    assert a == (a + x)[..|a|] && b == (b + y)[..|b|];
    assert x == (a + x)[|a|..] && y == (b + y)[|b|..];
  }

  /** The first two tokens tell what kind of forest comes. */
  lemma HeadKind(f: Forest, a: seq<string>, depth: nat)
    requires Acceptable(f, depth) && Readable(f) && Closes(a)
    ensures var tokens := Flatten(f) + a;
      && (f.Block? <==> OpensBlock(tokens))
      && (f.Assign? ==> '=' in tokens[0])
      && (f.Empty? ==> tokens == a)
  {
    match f
    case Empty => assert Flatten(f) + a == a;
    case Assign(t, rest) =>
      FlattenAssign(t, rest, a);
      FlattenHead(rest, a);
    case Block(h, body, rest) => FlattenBlock(h, body, rest, a);
  }

  /** No stream has two readings. */
  lemma ReadingIsUnique(tokens: seq<string>, f: Forest, g: Forest)
    requires Reads(tokens, f) && Reads(tokens, g)
    ensures f == g
  {
    assert Flatten(f) + [] == tokens && Flatten(g) + [] == tokens;
    FlattenInjective(f, g, [], [], 0);
  }
}

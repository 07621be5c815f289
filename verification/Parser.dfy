/** The whole parse: bounds, lines, tokens, the single pass, and the digest of the public view. */
module Parser {
  import opened Wrappers
  import opened Text
  import opened SwanctlIr
  import opened Context
  import opened TokenMachine
  import opened Forest
  import opened Meaning
  import opened Grammar
  import opened Views
  import opened Invariance
  import opened Rearrangement
  import Tokenizer

  const MAX_CONTENT_LENGTH: nat := 1_000_000
  const MAX_LINES: nat := 10_000
  const MAX_LINE_LENGTH: nat := 4_096

  datatype NormalizedIr = NormalizedIr(
    format: string,
    version: string,
    connections: map<string, Connection>,
    secrets: map<string, Secret>)

  datatype PublicView = PublicView(format: string, connections: map<string, Connection>)

  /** The digest of a public view; the serialization with sorted keys and SHA-256 are one given function. */
  type Digester = PublicView -> string

  ghost predicate Injective(sha: Digester) {
    forall a, b :: sha(a) == sha(b) ==> a == b
  }

  datatype Parsed = Parsed(ir: NormalizedIr, unsupported: seq<Directive>, digest: string)

  function ViewOf(ir: NormalizedIr): PublicView {
    PublicView(ir.format, ir.connections)
  }

  function Assemble(doc: Document, sha: Digester): Parsed {
    var ir := NormalizedIr("SWANCTL", "6.0.4", doc.connections, doc.secrets);
    Parsed(ir, doc.unsupported, sha(ViewOf(ir)))
  }

  /** The bound the text breaks, if any. */
  function BoundError(text: string): Option<ParseError> {
    if text == "" then Some(EmptyText)
    else if |text| > MAX_CONTENT_LENGTH then Some(TextTooLong)
    else if |SplitLines(text)| > MAX_LINES then Some(TooManyLines)
    else if exists i :: 0 <= i < |SplitLines(text)| && |SplitLines(text)[i]| > MAX_LINE_LENGTH then Some(LineTooLong)
    else None
  }

  function TokensOf(text: string): seq<string> {
    Tokenizer.Tokens(SplitLines(text))
  }

  function ParseText(text: string, sha: Digester): Result<Parsed, ParseError> {
    match BoundError(text)
    case Some(e) => Err(e)
    case None =>
      match Run(TokensOf(text), [], EMPTY_DOCUMENT)
      case Ok(doc) => Ok(Assemble(doc, sha))
      case Err(e) => Err(e)
  }

  method Parse(text: string, sha: Digester) returns (r: Result<Parsed, ParseError>)
    ensures r == ParseText(text, sha)
    ensures r.Ok? <==>
      && text != "" && |text| <= 1_000_000 && |SplitLines(text)| <= 10_000
      && (forall i :: 0 <= i < |SplitLines(text)| ==> |SplitLines(text)[i]| <= 4_096)
      && exists f :: Reads(TokensOf(text), f)
    ensures forall f :: Reads(TokensOf(text), f) && r.Ok? ==> r.value == Assemble(Means(f), sha)
    ensures r.Ok? ==> WellFormed(r.value.ir.connections)
  {
    hide Means, Reads, SplitLines, Run, Tokenizer.LineTokens, WellFormed;
    AcceptsExactly(TokensOf(text));
    if text == "" { return Err(EmptyText); }
    if |text| > MAX_CONTENT_LENGTH { return Err(TextTooLong); }
    var lines := SplitLines(text);
    if |lines| > MAX_LINES { return Err(TooManyLines); }
    var tokens := [];
    for i := 0 to |lines|
      invariant forall j :: 0 <= j < i ==> |lines[j]| <= MAX_LINE_LENGTH
      invariant tokens + Tokenizer.Tokens(lines[i..]) == TokensOf(text)
    {
      if |lines[i]| > MAX_LINE_LENGTH { return Err(LineTooLong); }
      var lineTokens := Tokenizer.TokenizeLine(lines[i]);
      assert lines[i..][1..] == lines[i + 1..];
      tokens := tokens + lineTokens;
    }
    assert lines[|lines|..] == [] && tokens + [] == tokens;
    assert tokens == TokensOf(text) && BoundError(text).None?;
    var doc := Process(tokens);
    if doc.Ok? {
      AcceptedIsWellFormed(tokens);
      return Ok(Assemble(doc.value, sha));
    }
    return Err(doc.error);
  }

  /** All parts of a result come from the reading, and the digest from its connections. */
  lemma ParsedParts(text: string, f: Forest, sha: Digester)
    requires BoundError(text).None? && Reads(TokensOf(text), f)
    ensures ParseText(text, sha).Ok?
    ensures var p := ParseText(text, sha).value;
      && p.ir.format == "SWANCTL" && p.ir.version == "6.0.4"
      && p.ir.connections == TopConnections(f, map[]) && p.ir.secrets == TopSecrets(f, map[])
      && p.unsupported == UnsupportedOf(f, []) && p.digest == sha(PublicView("SWANCTL", TopConnections(f, map[])))
  {
    ReadingIsAccepted(TokensOf(text), f);
    hide TopConnections, TopSecrets, UnsupportedOf, BoundError, TokensOf, Run, Reads;
  }

  lemma AcceptedIsWellFormed(tokens: seq<string>)
    requires Run(tokens, [], EMPTY_DOCUMENT).Ok?
    ensures WellFormed(Run(tokens, [], EMPTY_DOCUMENT).value.connections)
  {
    var f := AcceptedHasReading(tokens);
    ReadingIsAccepted(tokens, f);
    TopConnectionsWellFormed(f, map[]);
  }

  lemma ParsedIsWellFormed(text: string, sha: Digester)
    requires ParseText(text, sha).Ok?
    ensures WellFormed(ParseText(text, sha).value.ir.connections)
    ensures ParseText(text, sha).value.digest == sha(ViewOf(ParseText(text, sha).value.ir))
    ensures ParseText(text, sha).value.ir.format == "SWANCTL"
  {
    AcceptedIsWellFormed(TokensOf(text));
  }

  /** Rearranged settings and other secrets give the same digest; so does any other layout of the same tokens. */
  lemma SameConfigurationSameDigest(text: string, other: string, f: Forest, g: Forest, sha: Digester)
    requires Reads(TokensOf(text), f) && Reads(TokensOf(other), g)
    requires BoundError(text).None? && BoundError(other).None?
    requires SameConfiguration(f, g)
    ensures ParseText(text, sha).Ok? && ParseText(other, sha).Ok?
    ensures ParseText(text, sha).value.digest == ParseText(other, sha).value.digest
  {
    ReadingIsAccepted(TokensOf(text), f);
    ReadingIsAccepted(TokensOf(other), g);
    ViewDependsOnLastOnly(f, g);
  }

  /** Moving settings and blocks past others of different keys and names, anywhere, keeps acceptance and digest. */
  lemma RearrangingKeepsDigest(text: string, other: string, f: Forest, g: Forest, sha: Digester)
    requires Reads(TokensOf(text), f) && Rearranged(f, g)
    requires TokensOf(other) == Flatten(g) && Readable(g)
    requires BoundError(text).None? && BoundError(other).None?
    ensures ParseText(text, sha).Ok? && ParseText(other, sha).Ok?
    ensures ParseText(text, sha).value.digest == ParseText(other, sha).value.digest
  {
    RearrangingKeepsReading(TokensOf(text), f, g);
    ReadingIsAccepted(TokensOf(text), f);
    ReadingIsAccepted(TokensOf(other), g);
    RearrangingKeepsConnections(f, g);
  }

  /** Two texts that differ only in secret values within `secrets` blocks have equal results, digest included. */
  lemma SecretsDoNotReachResult(text: string, other: string, f: Forest, g: Forest, sha: Digester)
    requires Reads(TokensOf(text), f) && TokensOf(other) == Flatten(g) && Variant(f, g)
    requires BoundError(text).None? && BoundError(other).None?
    ensures ParseText(text, sha) == ParseText(other, sha)
  {
    SecretsDoNotLeak(TokensOf(text), f, g);
  }
}

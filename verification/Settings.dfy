/** What the assignments of a configuration text say, from the characters of a line to the parse result. */
module Settings {
  import opened Text
  import opened SwanctlIr
  import opened Context
  import opened TokenMachine
  import opened Forest
  import opened Meaning
  import opened Grammar
  import opened Tokenizer
  import opened TokenizerLaws
  import opened Parser

  // Keys and values

  predicate IsKey(k: string) {
    k != "" && '=' !in k && KeptEnds(k, IsSpace)
  }

  predicate UnquotedEnds(v: string) {
    KeptEnds(v, DoubleQuote) && KeptEnds(v, SingleQuote)
  }

  lemma SignIsFirst(k: string, a: string, rest: string)
    requires IsKey(k) && Dropped(a, IsSpace)
    ensures var token := k + a + "=" + rest;
      IndexOf(token, '=') == |k| + |a| && '=' in token && token[..|k| + |a|] == k + a && token[|k| + |a| + 1..] == rest
  {
    var token, i := k + a + "=" + rest, |k| + |a|;
    assert token[i] == '=';
    forall j | 0 <= j < i ensures token[j] != '=' {
      if j < |k| {
        assert token[j] == k[j] && k[j] in k;
      } else {
        assert token[j] == a[j - |k|] && IsSpace(a[j - |k|]);
      }
    }
    assert token[..i] == k + a && token[i + 1..] == rest;
  }

  lemma ReadsAs(k: string, a: string, rest: string)
    requires IsKey(k) && Dropped(a, IsSpace)
    ensures var token := k + a + "=" + rest;
      && '=' in token && KeyOf(token) == k
      && ValueOf(token) == TrimBy(TrimBy(Strip(rest), DoubleQuote), SingleQuote)
  {
    SignIsFirst(k, a, rest);
    TrimAround("", k, a, IsSpace);
    assert "" + k + a == k + a;
    hide IndexOf, TrimBy;
  }

  /** A key and a value with any blanks around the sign are read as that key and that value. */
  lemma SettingReads(k: string, a: string, b: string, v: string, c: string)
    requires IsKey(k) && Dropped(a, IsSpace) && Dropped(b, IsSpace) && Dropped(c, IsSpace)
    requires KeptEnds(v, IsSpace) && UnquotedEnds(v)
    ensures var token := k + a + "=" + (b + v + c);
      '=' in token && KeyOf(token) == k && ValueOf(token) == v
  {
    ReadsAs(k, a, b + v + c);
    TrimAround(b, v, c, IsSpace);
    TrimKept(v, DoubleQuote);
    TrimKept(v, SingleQuote);
    hide KeyOf, ValueOf, TrimBy;
  }

  /** Quotes around a value are taken off, and keep the blanks inside them. */
  lemma QuotedSettingReads(k: string, a: string, b: string, v: string, c: string)
    requires IsKey(k) && Dropped(a, IsSpace) && Dropped(b, IsSpace) && Dropped(c, IsSpace) && UnquotedEnds(v)
    ensures var token := k + a + "=" + (b + ("\"" + v + "\"") + c);
      '=' in token && KeyOf(token) == k && ValueOf(token) == v
    ensures var token := k + a + "=" + (b + ("'" + v + "'") + c);
      '=' in token && KeyOf(token) == k && ValueOf(token) == v
  {
    ReadsAs(k, a, b + ("\"" + v + "\"") + c);
    ReadsAs(k, a, b + ("'" + v + "'") + c);
    TrimAround(b, "\"" + v + "\"", c, IsSpace);
    TrimAround(b, "'" + v + "'", c, IsSpace);
    TrimAround("\"", v, "\"", DoubleQuote);
    TrimKept("'" + v + "'", DoubleQuote);
    TrimAround("'", v, "'", SingleQuote);
    TrimKept(v, SingleQuote);
    hide KeyOf, ValueOf, TrimBy;
  }

  // Words with a meaning

  /** Exactly yes, true and 1 switch on, in any letter case. */
  lemma YesMeans(v: string)
    ensures SaysYes(v) <==> SpelledLike(v, "yes") || SpelledLike(v, "true") || SpelledLike(v, "1")
  {
    LowerSpells(v, "yes");
    LowerSpells(v, "true");
    LowerSpells(v, "1");
    hide Lower, SpelledLike;
  }

  predicate NamesSecret(k: string) {
    || SpelledLike(k, "secret") || SpelledLike(k, "password") || SpelledLike(k, "key") || SpelledLike(k, "rsa_key")
    || SpelledLike(k, "ecdsa_key") || SpelledLike(k, "private_key") || SpelledLike(k, "pkcs12")
    || SpelledLike(k, "file")
  }

  /** Exactly eight names, in any letter case, are treated as secret. */
  lemma SecretKeyMeans(k: string)
    ensures IsSecretKey(k) <==> NamesSecret(k)
  {
    LowerSpells(k, "secret");
    LowerSpells(k, "password");
    LowerSpells(k, "key");
    LowerSpells(k, "rsa_key");
    LowerSpells(k, "ecdsa_key");
    LowerSpells(k, "private_key");
    LowerSpells(k, "pkcs12");
    LowerSpells(k, "file");
    hide Lower, SpelledLike;
  }

  // Quotes and comments

  lemma {:induction false} InsideQuotes(q: char, v: string, stops: set<char>)
    requires (q == '\"' || q == '\'') && q !in v
    ensures Scan(Inside(q), v) == Inside(q) && NoBare(Inside(q), v, stops)
    decreases |v|
  {
    if v != "" {
      assert v[0] in v;
      InsideQuotes(q, v[1..], stops);
    }
  }

  lemma {:induction false} NoQuotes(s: string)
    requires '\"' !in s && '\'' !in s
    ensures Scan(Outside, s) == Outside
    decreases |s|
  {
    if s != "" {
      assert s[0] in s;
      NoQuotes(s[1..]);
    }
  }

  lemma QuotedIsBare(q: char, v: string)
    requires (q == '\"' || q == '\'') && q !in v
    ensures Scan(Outside, [q] + v + [q]) == Outside && NoBare(Outside, [q] + v + [q], STOPS)
  {
    InsideQuotes(q, v, STOPS);
    var s := [q] + (v + [q]);
    assert s == [q] + v + [q] && s[0] == q && s[1..] == v + [q];
    ScanAppend(Inside(q), v, [q]);
    NoBareAppend(Inside(q), v, [q], STOPS);
    assert [q][1..] == "";
  }

  /** Between quotes braces, comment signs and the other quote are ordinary characters: the setting stays one token. */
  lemma QuotesProtect(k: string, q: char, v: string)
    requires IsKey(k) && (q == '\"' || q == '\'') && q !in v
    requires forall c :: c in k ==> c !in STOPS && c != '\"' && c != '\''
    ensures LineTokens(k + "=" + ([q] + v + [q])) == [k + "=" + ([q] + v + [q])]
  {
    var left, quoted := k + "=", [q] + v + [q];
    var token := left + quoted;
    PlainIsBare(left);
    NoQuotes(left);
    QuotedIsBare(q, v);
    NoBareAppend(Outside, left, quoted, STOPS);
    assert token[0] == k[0] && token[|token| - 1] == q;
    TrimKept(token, IsSpace);
    hide TrimBy, NoBare, Scan;
    TokenIsFixed(token);
  }

  /** What follows a comment sign outside quotes is not read. */
  lemma CommentsAreDropped(s: string, comment: string)
    requires Scan(Outside, s) == Outside && NoBare(Outside, s, {'#'})
    ensures LineTokens(s + "#" + comment) == LineTokens(s)
  {
    var line := s + ("#" + comment);
    assert line == s + "#" + comment;
    CommentStartAppend(Outside, s, "#" + comment);
    assert s + "" == s;
    CommentStartAppend(Outside, s, "");
    assert line[..|s|] == s && s[..|s|] == s;
    hide CommentStart, Pieces, TrimBy;
  }

  // From the text to the connection

  lemma {:induction false} PlainIsBare(s: string)
    requires forall c :: c in s ==> c !in STOPS && c != '\"' && c != '\''
    ensures NoBare(Outside, s, STOPS)
    decreases |s|
  {
    if s != "" {
      assert s[0] in s;
      PlainIsBare(s[1..]);
    }
  }

  lemma WordIsToken(s: string)
    requires s != "" && !IsSpace(s[0]) && !IsSpace(s[|s| - 1])
    requires forall c :: c in s ==> c !in STOPS && c != '\"' && c != '\''
    ensures IsToken(s) && Strip(s) == s
  {
    PlainIsBare(s);
  }

  /** Lines of one token each, within the bounds, are read as these tokens. */
  lemma LinesAreTokens(lines: seq<string>)
    requires 0 < |lines| <= 200
    requires forall line :: line in lines ==> IsToken(line) && Unbroken(line) && |line| <= MAX_LINE_LENGTH
    ensures TokensOf(JoinLines(lines)) == lines && BoundError(JoinLines(lines)).None?
  {
    hide IsToken, Unbroken, Tokens;
    JoinedLinesSplit(lines);
    JoinedLength(lines);
    TokensAreFixed(lines);
    assert forall i :: 0 <= i < |lines| ==> lines[i] in lines;
  }

  function LinesAround(n: string, inner: seq<string>): seq<string> {
    ["connections", "{", n, "{"] + inner + ["}", "}"]
  }

  function WithBody(n: string, body: Forest): Forest {
    Block("connections", Block(n, body, Empty), Empty)
  }

  predicate LineToken(s: string) {
    IsToken(s) && Unbroken(s) && |s| <= MAX_LINE_LENGTH
  }

  lemma LetterWord(s: string)
    requires 0 < |s| <= 90 && forall i :: 0 <= i < |s| ==> 'a' <= s[i] <= 'z'
    ensures LineToken(s) && Strip(s) == s && ValidName(s)
  {
    WordIsToken(s);
  }

  lemma BracesAreLines()
    ensures LineToken("{") && LineToken("}")
  {}

  lemma WordsOfDocument()
    ensures LineToken("connections") && LineToken("{") && LineToken("}")
    ensures Strip("connections") == "connections" && ValidName("connections")
  {
    hide LineToken, TrimBy, ValidName;
    LetterWord("connections");
    BracesAreLines();
  }

  lemma AroundFlattens(n: string, inner: seq<string>, body: Forest)
    requires Flatten(body) == inner && Acceptable(body, 2) && Readable(body)
    requires Strip("connections") == "connections" && ValidName("connections") && Strip(n) == n && ValidName(n)
    ensures Reads(LinesAround(n, inner), WithBody(n, body))
  {
    hide TrimBy, ValidName;
    var gw := Block(n, body, Empty);
    LoneBlockReads(n, body, 1);
    LoneBlockReads("connections", gw, 0);
    hide Acceptable, Readable, Flatten;
    assert LinesAround(n, inner) == ["connections", "{"] + Flatten(gw) + ["}"];
  }

  lemma LoneBlockReads(n: string, body: Forest, depth: nat)
    requires Strip(n) == n && ValidName(n) && depth < 2 && Acceptable(body, depth + 1) && Readable(body)
    ensures var block := Block(n, body, Empty);
      Acceptable(block, depth) && Readable(block) && Flatten(block) == [n, "{"] + Flatten(body) + ["}"]
  {
    hide TrimBy, ValidName;
    assert Flatten(Empty) == [];
  }

  lemma BodyMeans(n: string, body: Forest)
    requires Strip("connections") == "connections" && Strip(n) == n
    ensures Means(WithBody(n, body))
      == Document(map[n := ConnectionOf(body, DefaultConnection(n))], map[], UnsupportedOf(body, ["connections", n]))
  {
    hide TrimBy, ConnectionOf;
    assert "connections"[0] == 'c' && "secrets"[0] == 's';
    var f := WithBody(n, body);
    assert TopConnections(f, map[]) == ConnectionsOf(f.body, map[]);
    assert TopSecrets(f, map[]) == TopSecrets(Empty, map[]);
    assert ConnectionsOf(Block(n, body, Empty), map[]) == map[n := ConnectionOf(body, DefaultConnection(n))];
    assert [] + ["connections"] == ["connections"] && ["connections"] + [n] == ["connections", n];
    assert UnsupportedOf(f.body, ["connections"])
      == UnsupportedOf(body, ["connections", n]) + UnsupportedOf(Empty, ["connections"]);
    assert UnsupportedOf(f, []) == UnsupportedOf(f.body, ["connections"]) + UnsupportedOf(Empty, []);
  }

  /**
   * A text with one connection parses to that connection, read from its body, and to what the body has no place for.
   */
  lemma OneConnectionParses(n: string, inner: seq<string>, body: Forest, sha: Digester)
    requires ValidName(n) && LineToken(n) && |inner| <= 100 && forall s :: s in inner ==> LineToken(s)
    requires n != "{" && n != "}" && Flatten(body) == inner && Acceptable(body, 2) && Readable(body)
    ensures var text := JoinLines(LinesAround(n, inner));
      && Reads(TokensOf(text), WithBody(n, body)) && BoundError(text).None?
      && ParseText(text, sha).Ok?
      && ParseText(text, sha).value.ir.connections == map[n := ConnectionOf(body, DefaultConnection(n))]
      && ParseText(text, sha).value.ir.secrets == map[]
      && ParseText(text, sha).value.unsupported == UnsupportedOf(body, ["connections", n])
  {
    OneConnectionReads(n, inner, body);
    WordsOfDocument();
    assert Strip(n) == n;
    hide TrimBy, LineToken, ValidName, TokensOf, BoundError, Reads, Acceptable, Readable, Flatten, JoinLines,
      LinesAround;
    BodyMeans(n, body);
    ReadingIsAccepted(TokensOf(JoinLines(LinesAround(n, inner))), WithBody(n, body));
    hide TokenMachine.Run, Means, ConnectionOf, UnsupportedOf, WithBody;
  }

  lemma OneConnectionReads(n: string, inner: seq<string>, body: Forest)
    requires ValidName(n) && LineToken(n) && |inner| <= 100 && forall s :: s in inner ==> LineToken(s)
    requires n != "{" && n != "}" && Flatten(body) == inner && Acceptable(body, 2) && Readable(body)
    ensures var text := JoinLines(LinesAround(n, inner));
      Reads(TokensOf(text), WithBody(n, body)) && BoundError(text).None?
  {
    WordsOfDocument();
    assert Strip(n) == n;
    hide TrimBy, ValidName;
    AroundFlattens(n, inner, body);
    hide Acceptable, Readable, Flatten, WithBody, Reads;
    LinesAroundAreRead(n, inner);
    hide *;
  }

  lemma LinesAroundAreRead(n: string, inner: seq<string>)
    requires LineToken(n) && |inner| <= 100 && forall s :: s in inner ==> LineToken(s)
    ensures var lines := LinesAround(n, inner);
      TokensOf(JoinLines(lines)) == lines && BoundError(JoinLines(lines)).None?
  {
    WordsOfDocument();
    hide IsToken, Unbroken, TokensOf, BoundError, JoinLines, TrimBy, ValidName;
    var lines := LinesAround(n, inner);
    forall s | s in lines ensures LineToken(s) {
      hide LineToken;
    }
    LinesAreTokens(lines);
  }

  lemma SettingBody(n: string, token: string, k: string, v: string)
    requires '=' in token && KeyOf(token) == k && ValueOf(token) == v
    ensures var body := Forest.Assign(token, Empty);
      && Flatten(body) == [token] && Acceptable(body, 2) && Readable(body)
      && ConnectionOf(body, DefaultConnection(n))
        == SetConnection(DefaultConnection(n), k, v).GetOr(DefaultConnection(n))
      && UnsupportedOf(body, ["connections", n])
         == if k in CONNECTION_KEYS then [] else [Directive("connections." + n + "." + k, v)]
  {
    hide KeyOf, ValueOf, SetConnection;
    assert JoinDots(["connections", n]) == "connections." + n by {
      JoinDotsSnoc(["connections"], n);
      assert ["connections"] + [n] == ["connections", n];
    }
    hide JoinDots;
  }

  predicate IsValue(v: string) {
    && v != "" && KeptEnds(v, IsSpace) && UnquotedEnds(v)
    && NoBare(Outside, v, STOPS) && Unbroken(v) && |v| <= 4000
  }

  predicate PlainKey(k: string) {
    && IsKey(k) && Unbroken(k) && |k| <= 90
    && forall c :: c in k ==> c !in STOPS && c != '\"' && c != '\''
  }

  lemma SettingIsLine(k: string, v: string)
    requires PlainKey(k) && IsValue(v)
    ensures var token := k + " = " + v;
      LineToken(token) && '=' in token && KeyOf(token) == k && ValueOf(token) == v
  {
    var token := k + " = " + v;
    SettingReads(k, " ", " ", v, "");
    assert token == k + " " + "=" + (" " + v + "");
    hide KeyOf, ValueOf;
    BareSetting(k, v);
    UnbrokenSetting(k, v);
    assert token[0] == k[0] && token[|token| - 1] == v[|v| - 1];
    TrimKept(token, IsSpace);
    hide TrimBy, NoBare, Unbroken, IsValue, PlainKey;
  }

  lemma BareSetting(k: string, v: string)
    requires PlainKey(k) && IsValue(v)
    ensures NoBare(Outside, k + " = " + v, STOPS)
  {
    var left := k + " = ";
    PlainIsBare(left);
    NoQuotes(left);
    hide NoBare, Scan;
    NoBareAppend(Outside, left, v, STOPS);
  }

  lemma UnbrokenSetting(k: string, v: string)
    requires Unbroken(k) && Unbroken(v)
    ensures Unbroken(k + " = " + v)
  {
    assert forall c :: c in k + " = " + v ==> c in k || c in " = " || c in v;
  }

  /** One setting in one connection: it takes effect if its key is modelled and is listed under its path if not. */
  lemma SettingParses(n: string, k: string, v: string, sha: Digester)
    requires ValidName(n) && LineToken(n) && n != "{" && n != "}" && PlainKey(k) && IsValue(v)
    ensures var r := ParseText(JoinLines(LinesAround(n, [k + " = " + v])), sha);
      && r.Ok? && r.value.ir.secrets == map[]
      && r.value.ir.connections == map[n := SetConnection(DefaultConnection(n), k, v).GetOr(DefaultConnection(n))]
      && r.value.unsupported == if k in CONNECTION_KEYS then [] else [Directive("connections." + n + "." + k, v)]
  {
    var token := k + " = " + v;
    SettingIsLine(k, v);
    SettingBody(n, token, k, v);
    hide LineToken, ValidName, PlainKey, IsValue, Acceptable, Readable, Flatten, ConnectionOf, UnsupportedOf, ParseText;
    OneConnectionParses(n, [token], Forest.Assign(token, Empty), sha);
  }

  /** So an address that is written down is the one that is stored, all else staying default. */
  lemma AddressIsStored(n: string, v: string, sha: Digester)
    requires ValidName(n) && LineToken(n) && n != "{" && n != "}" && IsValue(v)
    ensures var r := ParseText(JoinLines(LinesAround(n, ["local_addrs" + " = " + v])), sha);
      r.Ok? && r.value.ir.connections == map[n := DefaultConnection(n).(localAddrs := v)] && r.value.unsupported == []
  {
    LetterKey("local_addrs");
    hide ParseText, JoinLines, LinesAround, LineToken, ValidName, PlainKey, IsValue;
    SettingParses(n, "local_addrs", v, sha);
  }

  /** And a setting without a place is listed, with its path and value. */
  lemma UnknownIsListed(n: string, v: string, sha: Digester)
    requires ValidName(n) && LineToken(n) && n != "{" && n != "}" && IsValue(v)
    ensures var r := ParseText(JoinLines(LinesAround(n, ["aggressive" + " = " + v])), sha);
      && r.Ok? && r.value.ir.connections == map[n := DefaultConnection(n)]
      && r.value.unsupported == [Directive("connections." + n + "." + "aggressive", v)]
  {
    LetterKey("aggressive");
    hide ParseText, JoinLines, LinesAround, LineToken, ValidName, PlainKey, IsValue;
    SettingParses(n, "aggressive", v, sha);
  }

  lemma LetterKey(k: string)
    requires 0 < |k| <= 90 && forall i :: 0 <= i < |k| ==> 'a' <= k[i] <= 'z' || k[i] == '_'
    ensures PlainKey(k)
  {}
}

/** What the two passes over a line achieve, stated without either pass. */
module TokenizerLaws {
  import opened Text
  import opened Proposals
  import opened Tokenizer

  lemma {:induction false} BlanksKeepQuote(q: Quote, s: string)
    requires forall c :: c in s ==> IsSpace(c)
    ensures Scan(q, s) == q
    decreases |s|
  {
    if s != "" {
      assert IsSpace(s[0]);
      BlanksKeepQuote(q, s[1..]);
    }
  }

  /** Both passes see each kept character in the same quote state. */
  lemma QuoteStatesAgree(line: string) returns (lo: nat)
    ensures lo + |Kept(line)| <= |line| && Kept(line) == line[lo..lo + |Kept(line)|]
    ensures forall i :: 0 <= i <= |Kept(line)| ==> Scan(Outside, Kept(line)[..i]) == Scan(Outside, line[..lo + i])
  {
    var n := CommentStart(Outside, line);
    var hi;
    lo, hi := TrimKeepsMiddle(line[..n], IsSpace);
    assert line[..n][lo..hi] == line[lo..hi];
    BlanksKeepQuote(Outside, line[..lo]);
    forall i | 0 <= i <= |Kept(line)| ensures Scan(Outside, Kept(line)[..i]) == Scan(Outside, line[..lo + i]) {
      assert line[..lo + i] == line[..lo] + Kept(line)[..i];
      ScanAppend(Outside, line[..lo], Kept(line)[..i]);
    }
  }

  function Concat(ps: seq<string>): string {
    if ps == [] then "" else ps[0] + Concat(ps[1..])
  }

  /** Stretches without a brace outside quotes, taking turns with single braces outside quotes. */
  predicate Alternates(ps: seq<string>)
    decreases |ps|
  {
    && ps != []
    && NoBare(Outside, ps[0], BRACES)
    && (|ps| > 1 ==>
         && |ps| > 2 && |ps[1]| == 1 && ps[1][0] in BRACES
         && Scan(Outside, ps[0]) == Outside
         && Alternates(ps[2..]))
  }

  lemma {:induction false} PiecesAlternate(s: string, piece: string)
    requires NoBare(Outside, piece, BRACES)
    ensures Alternates(Pieces(Scan(Outside, piece), s, piece))
    ensures Concat(Pieces(Scan(Outside, piece), s, piece)) == piece + s
    decreases |s|
  {
    var q := Scan(Outside, piece);
    if s == "" {
      assert [piece][1..] == [];
    } else if q.Outside? && s[0] in BRACES {
      var more := Pieces(Outside, s[1..], "");
      PiecesAlternate(s[1..], "");
      var all := [piece, [s[0]]] + more;
      assert all[2..] == more && all[1..] == [[s[0]]] + more && all[1..][1..] == more;
      assert Concat(all) == piece + ([s[0]] + Concat(more));
      assert s == [s[0]] + s[1..];
    } else {
      ScanAppend(Outside, piece, [s[0]]);
      NoBareAppend(Outside, piece, [s[0]], BRACES);
      PiecesAlternate(s[1..], piece + [s[0]]);
      assert piece + s == (piece + [s[0]]) + s[1..];
    }
  }

  lemma {:induction false} PiecesSkip(a: string, s: string, piece: string)
    requires NoBare(Scan(Outside, piece), a, BRACES)
    ensures Pieces(Scan(Outside, piece), a + s, piece) == Pieces(Scan(Outside, piece + a), s, piece + a)
    decreases |a|
  {
    if a == "" {
      assert a + s == s && piece + a == piece;
    } else {
      ScanAppend(Outside, piece, [a[0]]);
      assert (a + s)[0] == a[0] && (a + s)[1..] == a[1..] + s;
      PiecesSkip(a[1..], s, piece + [a[0]]);
      assert piece + a == (piece + [a[0]]) + a[1..];
    }
  }

  lemma {:induction false} AlternationIsUnique(ps: seq<string>)
    requires Alternates(ps)
    ensures Pieces(Outside, Concat(ps), "") == ps
    decreases |ps|
  {
    var rest := Concat(ps[1..]);
    assert "" + ps[0] == ps[0];
    PiecesSkip(ps[0], rest, "");
    if |ps| == 1 {
      assert rest == "";
    } else {
      assert ps[1..][1..] == ps[2..] && ps[1..][0] == ps[1];
      assert rest[1..] == Concat(ps[2..]);
      AlternationIsUnique(ps[2..]);
      assert [ps[1][0]] == ps[1];
      assert ps == [ps[0], ps[1]] + ps[2..];
    }
  }

  /** The cut at braces is the one decomposition of the text into alternating stretches and braces. */
  lemma CutIsTheAlternation(s: string, ps: seq<string>)
    ensures ps == Pieces(Outside, s, "") <==> Alternates(ps) && Concat(ps) == s
  {
    PiecesAlternate(s, "");
    assert "" + s == s;
    if Alternates(ps) && Concat(ps) == s {
      AlternationIsUnique(ps);
    }
  }

  /** A brace, or trimmed text in which no brace and no `#` stands outside quotes. */
  predicate IsToken(t: string) {
    t == "{" || t == "}" || (t != "" && Strip(t) == t && NoBare(Outside, t, STOPS))
  }

  lemma {:induction false} NoBareBoth(q: Quote, s: string)
    ensures NoBare(q, s, STOPS) <==> NoBare(q, s, BRACES) && NoBare(q, s, {'#'})
    decreases |s|
  {
    if s != "" { NoBareBoth(NextQuote(q, s[0]), s[1..]); }
  }

  lemma TrimKeepsNoBare(s: string, stops: set<char>)
    requires NoBare(Outside, s, stops)
    ensures NoBare(Outside, Strip(s), stops)
  {
    var lo, hi := TrimKeepsMiddle(s, IsSpace);
    assert s == s[..lo] + s[lo..] && s[lo..] == s[lo..hi] + s[hi..];
    BlanksKeepQuote(Outside, s[..lo]);
    NoBareAppend(Outside, s[..lo], s[lo..], stops);
    NoBareAppend(Outside, s[lo..hi], s[hi..], stops);
  }

  lemma {:induction false} PiecesAreTokens(ps: seq<string>)
    requires Alternates(ps) && NoBare(Outside, Concat(ps), {'#'})
    ensures forall t :: t in NonBlank(ps) ==> IsToken(t)
    decreases |ps|
  {
    hide Strip, IsToken, Scan;
    NoBareAppend(Outside, ps[0], Concat(ps[1..]), {'#'});
    TextIsToken(ps[0]);
    NonBlankSplit(ps[0], ps[1..]);
    assert ps == [ps[0]] + ps[1..];
    if |ps| > 1 {
      assert ps[1..][1..] == ps[2..] && ps[1..] == [ps[1]] + ps[2..];
      NoBareAppend(Outside, ps[1], Concat(ps[2..]), {'#'});
      BraceIsToken(ps[1]);
      PiecesAreTokens(ps[2..]);
      NonBlankSplit(ps[1], ps[2..]);
    }
  }

  lemma BraceIsToken(p: string)
    requires |p| == 1 && p[0] in BRACES
    ensures IsToken(p) && Strip(p) == p && Scan(Outside, p) == Outside
  {
    assert p[1..] == "" && (p == "{" || p == "}");
  }

  lemma NonBlankSplit(p: string, ps: seq<string>)
    ensures NonBlank([p] + ps) == Emitted(p) + NonBlank(ps)
  {
    assert ([p] + ps)[1..] == ps;
  }

  lemma TextIsToken(s: string)
    requires NoBare(Outside, s, BRACES) && NoBare(Outside, s, {'#'})
    ensures Strip(s) != "" ==> IsToken(Strip(s))
  {
    NoBareBoth(Outside, s);
    TrimKeepsNoBare(s, STOPS);
    TrimIdempotent(s, IsSpace);
  }

  /** Whatever the line, every token is a brace or holds no brace and no `#` outside quotes. */
  lemma LineYieldsTokens(line: string)
    ensures forall t :: t in LineTokens(line) ==> IsToken(t)
  {
    var kept := Kept(line);
    TrimKeepsNoBare(line[..CommentStart(Outside, line)], {'#'});
    PiecesAlternate(kept, "");
    assert "" + kept == kept;
    PiecesAreTokens(Pieces(Outside, kept, ""));
  }

  /** The braces outside quotes, in order. */
  function BareBraces(q: Quote, s: string): seq<string>
    decreases |s|
  {
    if s == "" then []
    else (if q.Outside? && s[0] in BRACES then [[s[0]]] else []) + BareBraces(NextQuote(q, s[0]), s[1..])
  }

  function BraceTokens(ts: seq<string>): seq<string> {
    if ts == [] then [] else (if ts[0] == "{" || ts[0] == "}" then [ts[0]] else []) + BraceTokens(ts[1..])
  }

  lemma {:induction false} BareBracesAppend(q: Quote, a: string, b: string)
    ensures BareBraces(q, a + b) == BareBraces(q, a) + BareBraces(Scan(q, a), b)
    ensures NoBare(q, a, BRACES) ==> BareBraces(q, a) == []
    decreases |a|
  {
    if a == "" {
      assert a + b == b;
    } else {
      assert (a + b)[1..] == a[1..] + b;
      BareBracesAppend(NextQuote(q, a[0]), a[1..], b);
    }
  }

  lemma TextIsNoBrace(s: string)
    requires NoBare(Outside, s, BRACES)
    ensures BraceTokens(Emitted(s)) == []
  {
    TrimKeepsNoBare(s, BRACES);
  }

  lemma {:induction false} BraceTokensAppend(a: seq<string>, b: seq<string>)
    ensures BraceTokens(a + b) == BraceTokens(a) + BraceTokens(b)
  {
    if a == [] {
      assert a + b == b;
    } else {
      var first := if a[0] == "{" || a[0] == "}" then [a[0]] else [];
      assert (a + b)[0] == a[0] && (a + b)[1..] == a[1..] + b;
      BraceTokensAppend(a[1..], b);
      assert BraceTokens(a + b) == first + (BraceTokens(a[1..]) + BraceTokens(b));
    }
  }

  lemma BraceItself(p: string)
    requires |p| == 1 && p[0] in BRACES
    ensures BareBraces(Outside, p) == [p] && BraceTokens(Emitted(p)) == [p]
  {
    BraceIsToken(p);
    assert p[1..] == "" && [p][1..] == [] && [p[0]] == p;
    NonBlankOne(p);
  }

  lemma {:induction false} BracesOfPieces(ps: seq<string>)
    requires Alternates(ps)
    ensures BraceTokens(NonBlank(ps)) == BareBraces(Outside, Concat(ps))
    decreases |ps|
  {
    hide Strip, Scan, BraceTokens, BareBraces, NonBlank, Emitted;
    BareBracesAppend(Outside, ps[0], Concat(ps[1..]));
    TextIsNoBrace(ps[0]);
    NonBlankSplit(ps[0], ps[1..]);
    BraceTokensAppend(Emitted(ps[0]), NonBlank(ps[1..]));
    assert ps == [ps[0]] + ps[1..];
    if |ps| > 1 {
      assert ps[1..][1..] == ps[2..] && ps[1..] == [ps[1]] + ps[2..];
      BareBracesAppend(Outside, ps[1], Concat(ps[2..]));
      BraceIsToken(ps[1]);
      BraceItself(ps[1]);
      NonBlankSplit(ps[1], ps[2..]);
      BraceTokensAppend(Emitted(ps[1]), NonBlank(ps[2..]));
      BracesOfPieces(ps[2..]);
    } else {
      NoPieces();
    }
  }

  lemma NoPieces()
    ensures NonBlank([]) == [] && BraceTokens([]) == [] && Concat([]) == "" && forall q :: BareBraces(q, "") == []
  {}

  /** The brace tokens of a line are its braces outside quotes and before the comment, one for one and in order. */
  lemma BraceTokensAreBareBraces(line: string)
    ensures BraceTokens(LineTokens(line)) == BareBraces(Outside, Kept(line))
  {
    var kept := Kept(line);
    PiecesAlternate(kept, "");
    assert "" + kept == kept;
    BracesOfPieces(Pieces(Outside, kept, ""));
  }

  /** A token on a line of its own is read back as itself. */
  lemma TokenIsFixed(t: string)
    requires IsToken(t)
    ensures LineTokens(t) == [t]
  {
    assert t[..|t|] == t;
    if t == "{" || t == "}" {
      assert CommentStart(Outside, t) == 1;
      BraceAlone(t);
    } else {
      NoBareBoth(Outside, t);
      assert t + "" == t;
      CommentStartAppend(Outside, t, "");
      assert [t][1..] == [];
      AlternationIsUnique([t]);
      NonBlankOne(t);
    }
  }

  lemma BraceAlone(t: string)
    requires t == "{" || t == "}"
    ensures Strip(t) == t && NonBlank(Pieces(Outside, t, "")) == [t]
  {
    assert t[1..] == "" && [t[0]] == t;
    assert Pieces(Outside, t, "") == [""] + ([t] + [""]);
    NonBlankSplit("", [t] + [""]);
    NonBlankSplit(t, [""]);
    NonBlankOne("");
  }

  lemma {:induction false} TokensAreFixed(ts: seq<string>)
    requires forall t :: t in ts ==> IsToken(t)
    ensures Tokens(ts) == ts
  {
    hide IsToken, LineTokens;
    if ts != [] {
      TokenIsFixed(ts[0]);
      TokensAreFixed(ts[1..]);
    }
  }

  lemma {:induction false} LinesYieldTokens(lines: seq<string>)
    ensures forall t :: t in Tokens(lines) ==> IsToken(t)
  {
    if lines != [] {
      LineYieldsTokens(lines[0]);
      LinesYieldTokens(lines[1..]);
    }
  }

  /** Comments, indentation and line layout carry no meaning: writing each token on its own line changes nothing. */
  lemma LayoutIsIrrelevant(lines: seq<string>)
    ensures Tokens(Tokens(lines)) == Tokens(lines)
  {
    LinesYieldTokens(lines);
    TokensAreFixed(Tokens(lines));
  }
}

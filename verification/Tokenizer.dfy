/** Splitting a line into tokens: first the comment is cut off, then braces outside quotes are set apart. */
module Tokenizer {
  import opened Wrappers
  import opened Text
  import opened Proposals

  datatype Quote = Outside | Inside(mark: char)

  function NextQuote(q: Quote, c: char): Quote {
    if c != '\"' && c != '\'' then q
    else if q.Outside? then Inside(c)
    else if c == q.mark then Outside
    else q
  }

  /** The quote state after reading `s` in state `q`. */
  function Scan(q: Quote, s: string): Quote
    decreases |s|
  {
    if s == "" then q else Scan(NextQuote(q, s[0]), s[1..])
  }

  /** No character of `stops` occurs outside quotes when `s` is read in state `q`. */
  predicate NoBare(q: Quote, s: string, stops: set<char>)
    decreases |s|
  {
    s == "" || (!(q.Outside? && s[0] in stops) && NoBare(NextQuote(q, s[0]), s[1..], stops))
  }

  const BRACES: set<char> := {'{', '}'}
  const STOPS: set<char> := {'{', '}', '#'}

  /** Length of the line up to its first `#` outside quotes. */
  function CommentStart(q: Quote, s: string): (n: nat)
    ensures n <= |s|
    ensures NoBare(q, s[..n], {'#'})
    ensures n < |s| ==> s[n] == '#' && Scan(q, s[..n]) == Outside
    decreases |s|
  {
    if s == "" || (s[0] == '#' && q.Outside?) then 0
    else
      var n := 1 + CommentStart(NextQuote(q, s[0]), s[1..]);
      assert s[..n][1..] == s[1..][..n - 1];
      n
  }

  /** The line cut at each brace outside quotes; `piece` is what was read since the last cut. */
  function Pieces(q: Quote, s: string, piece: string): seq<string>
    decreases |s|
  {
    if s == "" then [piece]
    else if q.Outside? && s[0] in BRACES then [piece, [s[0]]] + Pieces(q, s[1..], "")
    else Pieces(NextQuote(q, s[0]), s[1..], piece + [s[0]])
  }

  function Kept(line: string): string {
    Strip(line[..CommentStart(Outside, line)])
  }

  function LineTokens(line: string): seq<string> {
    NonBlank(Pieces(Outside, Kept(line), ""))
  }

  function Tokens(lines: seq<string>): seq<string> {
    if lines == [] then [] else LineTokens(lines[0]) + Tokens(lines[1..])
  }

  // The loops

  function QuoteOf(inQuote: bool, quoteChar: Option<char>): Quote {
    if inQuote && quoteChar.Some? then Inside(quoteChar.value) else Outside
  }

  lemma {:induction false} ScanAppend(q: Quote, a: string, b: string)
    ensures Scan(q, a + b) == Scan(Scan(q, a), b)
    decreases |a|
  {
    if a == "" {
      assert a + b == b;
    } else {
      assert (a + b)[1..] == a[1..] + b;
      ScanAppend(NextQuote(q, a[0]), a[1..], b);
    }
  }

  lemma {:induction false} CommentStartAppend(q: Quote, a: string, b: string)
    requires NoBare(q, a, {'#'})
    ensures CommentStart(q, a + b) == |a| + CommentStart(Scan(q, a), b)
    decreases |a|
  {
    if a == "" {
      assert a + b == b;
    } else {
      assert (a + b)[1..] == a[1..] + b;
      CommentStartAppend(NextQuote(q, a[0]), a[1..], b);
    }
  }

  lemma {:induction false} NoBareAppend(q: Quote, a: string, b: string, stops: set<char>)
    ensures NoBare(q, a + b, stops) <==> NoBare(q, a, stops) && NoBare(Scan(q, a), b, stops)
    decreases |a|
  {
    if a == "" {
      assert a + b == b;
    } else {
      assert (a + b)[1..] == a[1..] + b;
      NoBareAppend(NextQuote(q, a[0]), a[1..], b, stops);
    }
  }

  lemma NonBlankAppend(a: seq<string>, b: seq<string>)
    ensures NonBlank(a + b) == NonBlank(a) + NonBlank(b)
  {
    if a == [] {
      assert a + b == b;
    } else {
      assert (a + b)[1..] == a[1..] + b;
      NonBlankAppend(a[1..], b);
    }
  }

  /** Keeps the characters before the first `#` outside quotes; also hands on the last quote character seen. */
  method StripComment(line: string) returns (cleaned: string, quoteChar: Option<char>)
    ensures cleaned == line[..CommentStart(Outside, line)]
  {
    var inQuote := false;
    quoteChar := None;
    cleaned := "";
    for i := 0 to |line|
      invariant inQuote ==> quoteChar.Some?
      invariant cleaned == line[..i]
      invariant QuoteOf(inQuote, quoteChar) == Scan(Outside, line[..i])
      invariant NoBare(Outside, line[..i], {'#'})
    {
      var ch := line[i];
      assert line == line[..i] + line[i..] && line[..i + 1] == line[..i] + [ch];
      ScanAppend(Outside, line[..i], [ch]);
      NoBareAppend(Outside, line[..i], [ch], {'#'});
      if ch == '\"' || ch == '\'' {
        if !inQuote {
          inQuote, quoteChar := true, Some(ch);
        } else if quoteChar == Some(ch) {
          inQuote, quoteChar := false, None;
        }
      } else if ch == '#' && !inQuote {
        CommentStartAppend(Outside, line[..i], line[i..]);
        return;
      }
      cleaned := cleaned + [ch];
    }
    assert line + "" == line && line[..|line|] == line;
    CommentStartAppend(Outside, line, "");
  }

  function Emitted(piece: string): seq<string> {
    if Strip(piece) == "" then [] else [Strip(piece)]
  }

  lemma NonBlankOne(piece: string)
    ensures NonBlank([piece]) == Emitted(piece)
  {
    assert [piece][1..] == [];
    assert NonBlank([piece]) == Emitted(piece) + NonBlank([]);
  }

  /** The tokens still to come when `s` is left and `piece` was read since the last cut. */
  function Rest(q: Quote, s: string, piece: string): seq<string> {
    NonBlank(Pieces(q, s, piece))
  }

  lemma RestStep(q: Quote, s: string, piece: string)
    ensures s == "" ==> Rest(q, s, piece) == Emitted(piece)
    ensures s != "" && q.Outside? && s[0] in BRACES ==>
      Rest(q, s, piece) == Emitted(piece) + [[s[0]]] + Rest(q, s[1..], "")
    ensures s != "" && !(q.Outside? && s[0] in BRACES) ==>
      Rest(q, s, piece) == Rest(NextQuote(q, s[0]), s[1..], piece + [s[0]])
  {
    NonBlankOne(piece);
    if s != "" && q.Outside? && s[0] in BRACES {
      NonBlankOne([s[0]]);
      NonBlankAppend([piece] + [[s[0]]], Pieces(q, s[1..], ""));
      NonBlankAppend([piece], [[s[0]]]);
      assert [piece, [s[0]]] == [piece] + [[s[0]]];
      assert Strip([s[0]]) == [s[0]];
    }
  }

  /** Sets the braces outside quotes apart; starts outside quotes but with the first pass's quote character. */
  method SplitAtBraces(text: string, lastQuote: Option<char>) returns (tokens: seq<string>)
    ensures tokens == Rest(Outside, text, "")
  {
    hide Strip, Rest;
    var inQuote, quoteChar := false, lastQuote;
    tokens := [];
    var curr := "";
    assert text[0..] == text;
    for i := 0 to |text|
      invariant inQuote ==> quoteChar.Some?
      invariant tokens + Rest(QuoteOf(inQuote, quoteChar), text[i..], curr) == Rest(Outside, text, "")
    {
      var ch := text[i];
      assert text[i..][0] == ch && text[i..][1..] == text[i + 1..];
      RestStep(QuoteOf(inQuote, quoteChar), text[i..], curr);
      if ch == '\"' || ch == '\'' {
        if !inQuote {
          inQuote, quoteChar := true, Some(ch);
        } else if quoteChar == Some(ch) {
          inQuote, quoteChar := false, None;
        }
        curr := curr + [ch];
      } else if ch in BRACES && !inQuote {
        if Strip(curr) != "" {
          tokens := tokens + [Strip(curr)];
        }
        tokens := tokens + [[ch]];
        curr := "";
      } else {
        curr := curr + [ch];
      }
    }
    RestStep(QuoteOf(inQuote, quoteChar), "", curr);
    if Strip(curr) != "" {
      tokens := tokens + [Strip(curr)];
    }
  }

  method TokenizeLine(line: string) returns (tokens: seq<string>)
    ensures tokens == LineTokens(line)
  {
    var cleaned, quoteChar := StripComment(line);
    var text := Strip(cleaned);
    if text == "" {
      RestStep(Outside, "", "");
      tokens := [];
    } else {
      tokens := SplitAtBraces(text, quoteChar);
    }
  }

  method Tokenize(lines: seq<string>) returns (tokens: seq<string>)
    ensures tokens == Tokens(lines)
  {
    tokens := [];
    for i := 0 to |lines|
      invariant tokens + Tokens(lines[i..]) == Tokens(lines)
    {
      var lineTokens := TokenizeLine(lines[i]);
      assert lines[i..][1..] == lines[i + 1..];
      tokens := tokens + lineTokens;
    }
  }
}

/** The Python string operations the configuration parser relies on. */
module Text {
  import opened Wrappers

  /** The code points for which `str.isspace` holds. */
  predicate IsSpace(c: char) {
    || '\t' <= c <= '\r' || '\U{1c}' <= c <= ' ' || c == '\U{85}' || c == '\U{a0}' || c == '\U{1680}'
    || '\U{2000}' <= c <= '\U{200a}' || c == '\U{2028}' || c == '\U{2029}' || c == '\U{202f}'
    || c == '\U{205f}' || c == '\U{3000}'
  }

  /** `str.strip(chars)`, with the characters to drop given as a predicate. */
  function TrimBy(s: string, drop: char -> bool): string {
    if |s| > 0 && drop(s[0]) then TrimBy(s[1..], drop)
    else if |s| > 0 && drop(s[|s| - 1]) then TrimBy(s[..|s| - 1], drop)
    else s
  }

  function Strip(s: string): string {
    TrimBy(s, IsSpace)
  }

  /** Trimming keeps one stretch `s[lo..hi]`: everything outside it is dropped, its two ends are not. */
  lemma {:induction false} TrimKeepsMiddle(s: string, drop: char -> bool) returns (lo: nat, hi: nat)
    ensures lo <= hi <= |s| && TrimBy(s, drop) == s[lo..hi]
    ensures forall i :: 0 <= i < lo || hi <= i < |s| ==> drop(s[i])
    ensures lo < hi ==> !drop(s[lo]) && !drop(s[hi - 1])
  {
    if |s| > 0 && drop(s[0]) {
      var l, h := TrimKeepsMiddle(s[1..], drop);
      lo, hi := l + 1, h + 1;
      assert s[1..][l..h] == s[lo..hi];
      forall i | 0 <= i < lo || hi <= i < |s| ensures drop(s[i]) {
        if i > 0 { assert s[i] == s[1..][i - 1]; }
      }
    } else if |s| > 0 && drop(s[|s| - 1]) {
      lo, hi := TrimKeepsMiddle(s[..|s| - 1], drop);
      assert s[..|s| - 1][lo..hi] == s[lo..hi];
      forall i | 0 <= i < lo || hi <= i < |s| ensures drop(s[i]) {
        if i < |s| - 1 { assert s[i] == s[..|s| - 1][i]; }
      }
    } else {
      lo, hi := 0, |s|;
      assert s[lo..hi] == s;
    }
  }

  lemma TrimIdempotent(s: string, drop: char -> bool)
    ensures TrimBy(TrimBy(s, drop), drop) == TrimBy(s, drop)
  {
    var lo, hi := TrimKeepsMiddle(s, drop);
  }

  /** `str.lower` on ASCII letters and on the one other code point that lowers to an ASCII letter. */
  function LowerChar(c: char): char {
    if 'A' <= c <= 'Z' then c - 'A' + 'a'
    else if c == '\U{212a}' then 'k'
    else c
  }

  function Lower(s: string): (r: string)
    ensures |r| == |s|
  {
    seq(|s|, i requires 0 <= i < |s| => LowerChar(s[i]))
  }

  /** Position of the first `c`, or `|s|` when there is none. */
  function IndexOf(s: string, c: char): (i: nat)
    ensures i <= |s|
    ensures forall j :: 0 <= j < i ==> s[j] != c
    ensures i < |s| ==> s[i] == c
  {
    if s == "" || s[0] == c then 0 else 1 + IndexOf(s[1..], c)
  }

  predicate Contains(s: string, part: string) {
    part <= s || (s != "" && Contains(s[1..], part))
  }

  /** `".".join(parts)` */
  function JoinDots(parts: seq<string>): string {
    if parts == [] then ""
    else if |parts| == 1 then parts[0]
    else parts[0] + "." + JoinDots(parts[1..])
  }

  /** `int(s)` on ASCII digits: surrounding whitespace, one sign and single inner underscores allowed. */
  function ParseInt(s: string): Option<int> {
    var t := Strip(s);
    if t != "" && (t[0] == '-' || t[0] == '+') then
      match DigitRun(t[1..], 0)
      case Some(n) => Some(if t[0] == '-' then -n else n)
      case None => None
    else
      DigitRun(t, 0)
  }

  function DigitRun(s: string, acc: int): Option<int> {
    if s == "" || !('0' <= s[0] <= '9') then None
    else
      var acc' := 10 * acc + (s[0] as int - '0' as int);
      if |s| == 1 then Some(acc')
      else if s[1] == '_' then DigitRun(s[2..], acc')
      else DigitRun(s[1..], acc')
  }

  predicate IsLineBreak(c: char) {
    || '\n' <= c <= '\r' || '\U{1c}' <= c <= '\U{1e}' || c == '\U{85}' || c == '\U{2028}' || c == '\U{2029}'
  }

  function LineEnd(s: string): (i: nat)
    ensures i <= |s|
    ensures forall j :: 0 <= j < i ==> !IsLineBreak(s[j])
    ensures i < |s| ==> IsLineBreak(s[i])
  {
    if s == "" || IsLineBreak(s[0]) then 0 else 1 + LineEnd(s[1..])
  }

  /** `str.splitlines()`: a carriage return followed by a line feed ends one line, not two. */
  function SplitLines(s: string): (lines: seq<string>)
    ensures forall line :: line in lines ==> forall c :: c in line ==> !IsLineBreak(c)
    ensures |lines| <= |s|
    ensures s != "" ==> lines != [] && lines[0] == s[..LineEnd(s)]
  {
    if s == "" then []
    else
      var n := LineEnd(s);
      if n == |s| then [s]
      else
        var skip := if s[n] == '\r' && n + 1 < |s| && s[n + 1] == '\n' then 2 else 1;
        [s[..n]] + SplitLines(s[n + skip..])
  }

  predicate Unbroken(line: string) {
    forall c :: c in line ==> !IsLineBreak(c)
  }

  /** `brk` is the whole of the line break in front of `rest`. */
  predicate Breaks(brk: string, rest: string) {
    || brk == "\r\n"
    || (|brk| == 1 && IsLineBreak(brk[0]) && !(brk == "\r" && rest != "" && rest[0] == '\n'))
  }

  /**
   * Each line is what stands before the next break, and nothing is lost: with `LastLine`, this determines every
   * line.
   */
  lemma LineByLine(line: string, brk: string, rest: string)
    requires Unbroken(line) && Breaks(brk, rest)
    ensures SplitLines(line + brk + rest) == [line] + SplitLines(rest)
  {
    var s := line + brk + rest;
    assert forall i :: 0 <= i < |line| ==> s[i] == line[i];
    assert s[|line|] == brk[0] && IsLineBreak(s[|line|]);
    assert LineEnd(s) == |line|;
    assert s[..|line|] == line && s[|line| + |brk|..] == rest;
    if |brk| == 1 && rest != "" { assert s[|line| + 1] == rest[0]; }
    if |brk| == 2 { assert s[|line| + 1] == brk[1]; }
  }

  lemma LastLine(line: string)
    requires Unbroken(line) && line != ""
    ensures SplitLines(line) == [line]
  {}

  /** The lines, each ended by a line feed. */
  function JoinLines(lines: seq<string>): string {
    if lines == [] then "" else lines[0] + "\n" + JoinLines(lines[1..])
  }

  /** Writing lines out and reading them back gives the same lines. */
  lemma {:induction false} JoinedLinesSplit(lines: seq<string>)
    requires forall line :: line in lines ==> Unbroken(line)
    ensures SplitLines(JoinLines(lines)) == lines
  {
    hide Unbroken;
    if lines != [] {
      assert lines[0] in lines;
      JoinedLinesSplit(lines[1..]);
      LineByLine(lines[0], "\n", JoinLines(lines[1..]));
    }
  }

  /** How long a text its lines can make. */
  lemma {:induction false} JoinedLength(lines: seq<string>)
    requires forall line :: line in lines ==> |line| <= 4096
    ensures |lines| <= |JoinLines(lines)| <= 4097 * |lines|
  {
    if lines != [] {
      JoinedLength(lines[1..]);
      assert |JoinLines(lines)| == |lines[0]| + 1 + |JoinLines(lines[1..])| && lines[0] in lines;
    }
  }

  /** Among ASCII characters: which are blank, which end a line. Whatever ends a line is blank. */
  lemma AsciiBlanks(c: char)
    ensures c as int < 128 ==> (IsSpace(c) <==> 9 <= c as int <= 13 || 28 <= c as int <= 32)
    ensures c as int < 128 ==> (IsLineBreak(c) <==> 10 <= c as int <= 13 || 28 <= c as int <= 30)
    ensures IsLineBreak(c) ==> IsSpace(c)
  {}

  // What trimming, lower-casing and reading numbers amount to

  /** Nothing else is the trimmed text: a stretch with kept ends between dropped characters. */
  lemma TrimIsDetermined(s: string, drop: char -> bool, lo: nat, hi: nat)
    requires lo <= hi <= |s| && forall i :: 0 <= i < lo || hi <= i < |s| ==> drop(s[i])
    requires lo < hi ==> !drop(s[lo]) && !drop(s[hi - 1])
    ensures TrimBy(s, drop) == s[lo..hi]
  {
    var l, h := TrimKeepsMiddle(s, drop);
    if lo < hi {
      assert l <= lo && hi <= h;
    }
  }

  predicate Dropped(s: string, drop: char -> bool) {
    forall i :: 0 <= i < |s| ==> drop(s[i])
  }

  predicate KeptEnds(s: string, drop: char -> bool) {
    s != "" ==> !drop(s[0]) && !drop(s[|s| - 1])
  }

  lemma TrimAround(a: string, s: string, b: string, drop: char -> bool)
    requires Dropped(a, drop) && Dropped(b, drop) && KeptEnds(s, drop)
    ensures TrimBy(a + s + b, drop) == s
  {
    var t := a + s + b;
    TrimIsDetermined(t, drop, |a|, |a| + |s|);
    assert t[|a|..|a| + |s|] == s;
  }

  /** Equal to a lower-case word up to the case of ASCII letters, the Kelvin sign standing for a k. */
  predicate SpelledLike(s: string, word: string) {
    |s| == |word| && forall i :: 0 <= i < |s| ==>
      s[i] == word[i] || ('A' <= s[i] <= 'Z' && s[i] - 'A' + 'a' == word[i]) || (s[i] == '\U{212a}' && word[i] == 'k')
  }

  predicate LowerCase(word: string) {
    forall i :: 0 <= i < |word| ==> !('A' <= word[i] <= 'Z') && word[i] != '\U{212a}'
  }

  lemma LowerSpells(s: string, word: string)
    requires LowerCase(word)
    ensures Lower(s) == word <==> SpelledLike(s, word)
  {
    assert forall i :: 0 <= i < |s| ==> Lower(s)[i] == LowerChar(s[i]);
  }

  /** A part occurs if the text from somewhere on begins with it. */
  lemma {:induction false} ContainsMeans(s: string, part: string)
    ensures Contains(s, part) <==> exists k: nat :: k <= |s| && part <= s[k..]
    decreases |s|
  {
    if part <= s {
      assert part <= s[0..];
    } else if s != "" {
      ContainsMeans(s[1..], part);
      forall k: nat | k <= |s[1..]| ensures s[1..][k..] == s[k + 1..] {}
      if Contains(s[1..], part) {
        var k: nat :| k <= |s[1..]| && part <= s[1..][k..];
        assert part <= s[k + 1..];
      }
      forall k: nat | k <= |s| && part <= s[k..] ensures Contains(s[1..], part) {
        assert s[0..] == s;
        assert k > 0 && part <= s[1..][k - 1..];
      }
    } else {
      assert forall k: nat :: k <= |s| ==> s[k..] == s;
    }
  }

  /** Paths grow by a dot and a name. */
  lemma {:induction false} JoinDotsSnoc(path: seq<string>, name: string)
    ensures JoinDots(path + [name]) == if path == [] then name else JoinDots(path) + "." + name
  {
    if |path| > 1 {
      assert (path + [name])[1..] == path[1..] + [name];
      JoinDotsSnoc(path[1..], name);
    } else if |path| == 1 {
      assert (path + [name])[1..] == [name];
    }
  }

  function Decimal(n: nat): (s: string)
    ensures s != "" && forall i :: 0 <= i < |s| ==> '0' <= s[i] <= '9'
  {
    if n < 10 then ['0' + n as char] else Decimal(n / 10) + ['0' + (n % 10) as char]
  }

  lemma {:induction false} DigitRunSnoc(s: string, d: char, acc: int)
    requires s != "" && '0' <= d <= '9' && forall i :: 0 <= i < |s| ==> '0' <= s[i] <= '9'
    ensures DigitRun(s, acc).Some?
    ensures DigitRun(s + [d], acc) == Some(10 * DigitRun(s, acc).value + (d as int - '0' as int))
    decreases |s|
  {
    assert (s + [d])[1..] == s[1..] + [d];
    if |s| > 1 {
      DigitRunSnoc(s[1..], d, 10 * acc + (s[0] as int - '0' as int));
    } else {
      assert s[1..] + [d] == [d];
    }
  }

  lemma {:induction false} DecimalReads(n: nat)
    ensures DigitRun(Decimal(n), 0) == Some(n)
  {
    if n >= 10 {
      DecimalReads(n / 10);
      DigitRunSnoc(Decimal(n / 10), '0' + (n % 10) as char, 0);
    }
  }

  /** Written numbers are read back, with a sign or none. */
  lemma IntReads(n: nat)
    ensures ParseInt(Decimal(n)) == Some(n) && ParseInt("+" + Decimal(n)) == Some(n)
    ensures ParseInt("-" + Decimal(n)).Some? && ParseInt("-" + Decimal(n)).value + n == 0
  {
    var s := Decimal(n);
    DecimalReads(n);
    TrimKept(s, IsSpace);
    assert s[0] != '+' && s[0] != '-';
    hide Decimal, DigitRun, TrimBy, ParseInt;
    SignedReads('+', s);
    SignedReads('-', s);
    PlainReads(s);
  }

  lemma PlainReads(s: string)
    requires s != "" && Strip(s) == s && s[0] != '+' && s[0] != '-'
    ensures ParseInt(s) == DigitRun(s, 0)
  {
    hide DigitRun, TrimBy;
  }

  lemma SignedReads(sign: char, s: string)
    requires (sign == '+' || sign == '-') && s != "" && KeptEnds(s, IsSpace)
    ensures ParseInt([sign] + s) == match DigitRun(s, 0)
      case Some(n) => Some(if sign == '-' then 0 - n else n)
      case None => None
  {
    TrimKept([sign] + s, IsSpace);
    hide DigitRun, TrimBy;
    assert ([sign] + s)[1..] == s;
  }

  lemma TrailingBlank(s: string)
    requires s != "" && KeptEnds(s, IsSpace)
    ensures Strip(s + " ") == s
  {
    TrimAround("", s, " ", IsSpace);
    assert "" + s + " " == s + " ";
  }

  lemma TrimKept(s: string, drop: char -> bool)
    requires KeptEnds(s, drop)
    ensures TrimBy(s, drop) == s
  {}

  /** Blanks around a number do not matter. */
  lemma IntIgnoresBlanks(a: string, s: string, b: string)
    requires Dropped(a, IsSpace) && Dropped(b, IsSpace) && KeptEnds(s, IsSpace)
    ensures ParseInt(a + s + b) == ParseInt(s)
  {
    TrimAround(a, s, b, IsSpace);
    TrimKept(s, IsSpace);
    hide TrimBy;
  }

  lemma {:induction false} StrangeRun(s: string, acc: int, i: nat)
    requires i < |s| && !('0' <= s[i] <= '9') && s[i] != '_'
    ensures DigitRun(s, acc) == None
    decreases |s|
  {
    if '0' <= s[0] <= '9' && |s| > 1 {
      var acc' := 10 * acc + (s[0] as int - '0' as int);
      if s[1] == '_' {
        if i >= 2 { StrangeRun(s[2..], acc', i - 2); }
      } else {
        StrangeRun(s[1..], acc', i - 1);
      }
    }
  }

  /** A text with anything but digits and underscores behind its sign is no number. */
  lemma StrangeIsNoInt(s: string, i: nat)
    requires i < |Strip(s)| && !('0' <= Strip(s)[i] <= '9') && Strip(s)[i] != '_'
    requires i == 0 ==> Strip(s)[0] != '-' && Strip(s)[0] != '+'
    ensures ParseInt(s) == None
  {
    var t := Strip(s);
    hide TrimBy;
    if t[0] == '-' || t[0] == '+' {
      StrangeRun(t[1..], 0, i - 1);
    } else {
      StrangeRun(t, 0, i);
    }
  }
}

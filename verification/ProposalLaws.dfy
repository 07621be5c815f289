/** What a list of cryptographic proposals is read as. */
module ProposalLaws {
  import opened Wrappers
  import opened Text
  import opened Proposals
  import opened Tokenizer

  lemma {:induction false} SplitFromAppend(a: string, c: char, b: string, sep: char -> bool, piece: string)
    requires sep(c)
    ensures SplitFrom(a + [c] + b, sep, piece) == SplitFrom(a, sep, piece) + SplitOn(b, sep)
    decreases |a|
  {
    var s := a + [c] + b;
    if a == "" {
      assert s == [c] + b && s[1..] == b;
    } else {
      assert s[0] == a[0] && s[1..] == a[1..] + [c] + b;
      SplitFromAppend(a[1..], c, b, sep, if sep(a[0]) then "" else piece + [a[0]]);
    }
  }

  lemma {:induction false} NoSeparator(s: string, sep: char -> bool, piece: string)
    requires forall i :: 0 <= i < |s| ==> !sep(s[i])
    ensures SplitFrom(s, sep, piece) == [piece + s]
    decreases |s|
  {
    if s == "" {
      assert piece + s == piece;
    } else {
      NoSeparator(s[1..], sep, piece + [s[0]]);
      assert piece + [s[0]] + s[1..] == piece + s;
    }
  }

  lemma {:induction false} EachAppend(a: seq<string>, b: seq<string>)
    ensures ParseEach(a + b) == ParseEach(a) + ParseEach(b)
  {
    hide ParseProposal;
    if a == [] {
      assert a + b == b;
    } else {
      assert (a + b)[1..] == a[1..] + b;
      EachAppend(a[1..], b);
    }
  }

  /** A comma or semicolon joins two lists of proposals. */
  lemma ListsJoin(a: string, c: char, b: string)
    requires c == ',' || c == ';'
    ensures ParseProposalsList(a + [c] + b) == ParseProposalsList(a) + ParseProposalsList(b)
  {
    SplitFromAppend(a, c, b, ListSeparator, "");
    NonBlankAppend(SplitOn(a, ListSeparator), SplitOn(b, ListSeparator));
    EachAppend(NonBlank(SplitOn(a, ListSeparator)), NonBlank(SplitOn(b, ListSeparator)));
    hide SplitFrom, NonBlank, ParseEach;
  }

  /** Without one there is a single proposal, or none in a blank text. */
  lemma SingleProposal(s: string)
    requires forall i :: 0 <= i < |s| ==> s[i] != ',' && s[i] != ';'
    ensures ParseProposalsList(s) == if Strip(s) == "" then [] else [ParseProposal(Strip(s))]
  {
    NoSeparator(s, ListSeparator, "");
    assert "" + s == s;
    NonBlankOne(s);
    hide SplitFrom, TrimBy, ParseProposal, NonBlank;
    assert [Strip(s)][1..] == [] && ParseEach([]) == [];
    assert ParseEach([Strip(s)]) == [ParseProposal(Strip(s))] + ParseEach([]);
  }

  function JoinDashes(parts: seq<string>): string {
    if parts == [] then "" else if |parts| == 1 then parts[0] else parts[0] + "-" + JoinDashes(parts[1..])
  }

  predicate IsPart(s: string) {
    s != "" && KeptEnds(s, IsSpace) && forall i :: 0 <= i < |s| ==> s[i] != '-'
  }

  lemma {:induction false} DashesSplit(parts: seq<string>)
    requires parts != [] && forall i :: 0 <= i < |parts| ==> IsPart(parts[i])
    ensures SplitOn(JoinDashes(parts), Dash) == parts && NonBlank(parts) == parts
    ensures KeptEnds(JoinDashes(parts), IsSpace) && JoinDashes(parts) != ""
  {
    var first := parts[0];
    TrimKept(first, IsSpace);
    NoSeparator(first, Dash, "");
    assert "" + first == first;
    if |parts| == 1 {
      assert parts[1..] == [] && parts == [first];
    } else {
      DashesSplit(parts[1..]);
      hide TrimBy;
      SplitFromAppend(first, '-', JoinDashes(parts[1..]), Dash, "");
      assert parts == [first] + parts[1..];
      var joined := JoinDashes(parts);
      assert joined[0] == first[0] && joined[|joined| - 1] == JoinDashes(parts[1..])[|JoinDashes(parts[1..])| - 1];
    }
  }

  /** The first part is the encryption, which tells the key length; the others are filed one by one. */
  lemma PartsAreFiled(parts: seq<string>)
    requires parts != [] && forall i :: 0 <= i < |parts| ==> IsPart(parts[i])
    ensures var p := ParseProposal(JoinDashes(parts));
      && p.encryption == DropBangs(parts[0])
      && p == ClassifyAll(Proposal(p.encryption, KeyLength(p.encryption), None, None, None), parts[1..])
  {
    DashesSplit(parts);
    TrimKept(JoinDashes(parts), IsSpace);
    hide SplitOn, NonBlank, JoinDashes, TrimBy, KeyLength, DropBangs, Classify, ClassifyAll, IsPart;
    EncryptionStays(Proposal(DropBangs(parts[0]), KeyLength(DropBangs(parts[0])), None, None, None), parts[1..]);
  }

  /** A length is recorded exactly if it occurs and no longer one does. */
  lemma LongestLengthCounts(encryption: string)
    ensures KeyLength(encryption) == Some(256) <==> Contains(encryption, "256")
    ensures KeyLength(encryption) == Some(192) <==> Contains(encryption, "192") && !Contains(encryption, "256")
    ensures KeyLength(encryption) == Some(128)
      <==> Contains(encryption, "128") && !Contains(encryption, "192") && !Contains(encryption, "256")
    ensures KeyLength(encryption).Some? ==> KeyLength(encryption).value in {128, 192, 256}
  {}

  lemma {:induction false} EncryptionStays(p: Proposal, tokens: seq<string>)
    ensures ClassifyAll(p, tokens).encryption == p.encryption && ClassifyAll(p, tokens).keyLength == p.keyLength
    decreases |tokens|
  {
    hide Lower, Contains, IsDigits, DropBangs;
    if tokens != [] { EncryptionStays(Classify(p, DropBangs(tokens[0])), tokens[1..]); }
  }

  datatype Kind = Group | Prf | Integrity | Other

  function KindOf(t: string): Kind {
    if "modp" <= t || "ecp" <= t || "curve" <= t || "x25519" <= t || "x448" <= t then Group
    else if "prf" <= t then Prf
    else if Contains(t, "sha") || Contains(t, "md5") || Contains(t, "aesxcbc") then Integrity
    else if t != "" && forall i :: 0 <= i < |t| ==> '0' <= t[i] <= '9' then Group
    else Other
  }

  /** The last part of a kind, in lower case and without exclamation marks. */
  function LastOf(kind: Kind, tokens: seq<string>): Option<string> {
    if tokens == [] then None
    else
      var rest, t := LastOf(kind, tokens[1..]), Lower(DropBangs(tokens[0]));
      if rest.None? && KindOf(t) == kind then Some(t) else rest
  }

  /** Each kind of transform is the last part of that kind. */
  lemma {:induction false} LastOfKindCounts(p: Proposal, tokens: seq<string>)
    ensures var r := ClassifyAll(p, tokens);
      && r.dhGroup == (if LastOf(Group, tokens).Some? then LastOf(Group, tokens) else p.dhGroup)
      && r.prf == (if LastOf(Prf, tokens).Some? then LastOf(Prf, tokens) else p.prf)
      && r.integrity == (if LastOf(Integrity, tokens).Some? then LastOf(Integrity, tokens) else p.integrity)
    decreases |tokens|
  {
    if tokens != [] {
      ClassifiedBy(p, DropBangs(tokens[0]));
      LastOfKindCounts(Classify(p, DropBangs(tokens[0])), tokens[1..]);
      hide Classify, KindOf, Lower, DropBangs;
    }
  }

  lemma DigitsAre(t: string)
    ensures IsDigits(t) <==> t != "" && forall i :: 0 <= i < |t| ==> '0' <= t[i] <= '9'
  {
    if forall i :: 0 <= i < |t| ==> '0' <= t[i] <= '9' {
      forall c | c in t ensures '0' <= c <= '9' {}
    }
    if IsDigits(t) {
      forall i | 0 <= i < |t| ensures '0' <= t[i] <= '9' { assert t[i] in t; }
    }
  }

  lemma ClassifiedBy(p: Proposal, token: string)
    ensures Classify(p, token) == match KindOf(Lower(token))
      case Group => p.(dhGroup := Some(Lower(token)))
      case Prf => p.(prf := Some(Lower(token)))
      case Integrity => p.(integrity := Some(Lower(token)))
      case Other => p
  {
    hide Lower, Contains;
    var t := Lower(token);
    DigitsAre(t);
    hide IsDigits;
  }

  /** Exclamation marks at the end go, all of them and nothing else. */
  lemma {:induction false} BangsAreDropped(s: string) returns (n: nat)
    ensures n <= |s| && DropBangs(s) == s[..n] && (n > 0 ==> s[n - 1] != '!')
    ensures forall i :: n <= i < |s| ==> s[i] == '!'
    decreases |s|
  {
    if s != "" && s[|s| - 1] == '!' {
      n := BangsAreDropped(s[..|s| - 1]);
    } else {
      n := |s|;
    }
  }
}

/** Cryptographic proposal lists as the parser records them. */
module Proposals {
  import opened Wrappers
  import opened Text

  datatype Proposal = Proposal(
    encryption: string,
    keyLength: Option<int>,
    integrity: Option<string>,
    prf: Option<string>,
    dhGroup: Option<string>)

  /** The stretches between separators; separators themselves are dropped. */
  function SplitOn(s: string, sep: char -> bool): seq<string> {
    SplitFrom(s, sep, "")
  }

  function SplitFrom(s: string, sep: char -> bool, piece: string): seq<string> {
    if s == "" then [piece]
    else if sep(s[0]) then [piece] + SplitFrom(s[1..], sep, "")
    else SplitFrom(s[1..], sep, piece + [s[0]])
  }

  function NonBlank(pieces: seq<string>): seq<string> {
    if pieces == [] then []
    else (if Strip(pieces[0]) == "" then [] else [Strip(pieces[0])]) + NonBlank(pieces[1..])
  }

  predicate ListSeparator(c: char) {
    c == ',' || c == ';'
  }

  predicate Dash(c: char) {
    c == '-'
  }

  function DropBangs(s: string): string {
    if s != "" && s[|s| - 1] == '!' then DropBangs(s[..|s| - 1]) else s
  }

  predicate IsDigits(s: string) {
    s != "" && forall c :: c in s ==> '0' <= c <= '9'
  }

  /** Files one transform token under the first kind it matches. */
  function Classify(p: Proposal, token: string): Proposal {
    var t := Lower(token);
    if "modp" <= t || "ecp" <= t || "curve" <= t || "x25519" <= t || "x448" <= t then p.(dhGroup := Some(t))
    else if "prf" <= t then p.(prf := Some(t))
    else if Contains(t, "sha") || Contains(t, "md5") || Contains(t, "aesxcbc") then p.(integrity := Some(t))
    else if IsDigits(t) then p.(dhGroup := Some(t))
    else p
  }

  function ClassifyAll(p: Proposal, tokens: seq<string>): Proposal
    decreases |tokens|
  {
    if tokens == [] then p else ClassifyAll(Classify(p, DropBangs(tokens[0])), tokens[1..])
  }

  /** The first of 256, 192 and 128 that occurs. */
  function KeyLength(encryption: string): Option<int> {
    if Contains(encryption, "256") then Some(256)
    else if Contains(encryption, "192") then Some(192)
    else if Contains(encryption, "128") then Some(128)
    else None
  }

  function ParseProposal(text: string): Proposal {
    var tokens := NonBlank(SplitOn(Strip(text), Dash));
    if tokens == [] then
      Proposal("unknown", None, None, None, None)
    else
      var encryption := DropBangs(tokens[0]);
      ClassifyAll(Proposal(encryption, KeyLength(encryption), None, None, None), tokens[1..])
  }

  function ParseEach(texts: seq<string>): seq<Proposal> {
    if texts == [] then [] else [ParseProposal(texts[0])] + ParseEach(texts[1..])
  }

  function ParseProposalsList(text: string): seq<Proposal> {
    ParseEach(NonBlank(SplitOn(text, ListSeparator)))
  }

  lemma EmptyListHasNoProposals()
    ensures ParseProposalsList("") == []
  {
    assert SplitOn("", ListSeparator) == [""] && [""][1..] == [] && Strip("") == "";
    assert NonBlank([""]) == [];
  }

  function Encryptions(ps: seq<Proposal>): (names: seq<string>)
    ensures |names| == |ps|
  {
    seq(|ps|, i requires 0 <= i < |ps| => ps[i].encryption)
  }
}

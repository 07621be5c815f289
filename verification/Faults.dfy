/** Which complaint a text gets: the first fault behind a stretch that reads well. */
module Faults {
  import opened Wrappers
  import opened Text
  import opened SwanctlIr
  import opened Context
  import opened TokenMachine
  import opened Forest
  import opened Parser

  /** Inside `path`, behind items that read well: the complaint is decided by what comes next. */
  lemma NextFault(f: Forest, path: seq<string>, doc: Document, next: seq<string>)
    requires Located(path, doc) && Acceptable(f, |path|) && Readable(f) && (next == [] || next[0] != "{")
    ensures var r := Run(Flatten(f) + next, path, doc);
      && (next == [] && path != [] ==> r == Err(UnclosedBlocks))
      && (next != [] && !OpensBlock(next) && next[0] == "}" && path == [] ==> r == Err(UnexpectedClose))
      && (next != [] && !OpensBlock(next) && next[0] != "}" && '=' !in next[0] ==> r == Err(InvalidSyntax))
      && (OpensBlock(next) && !ValidName(Strip(next[0])) ==> r == Err(InvalidBlockName))
      && (OpensBlock(next) && ValidName(Strip(next[0])) && |path| >= 8 ==> r == Err(NestingTooDeep))
  {
    RunWalks(f, path, doc, next);
    hide AssignAt, EnterAt, KeyOf, ValueOf, TrimBy, Walk, Flatten;
  }

  /** A block's fault is the text's: opening a block in good order passes the complaint on. */
  lemma FaultInside(f: Forest, path: seq<string>, doc: Document, h: string, inner: seq<string>)
    requires Located(path, doc) && Acceptable(f, |path|) && Readable(f) && h != "{"
    requires ValidName(Strip(h)) && |path| < 8
    ensures Run(Flatten(f) + ([h, "{"] + inner), path, doc)
      == Run(inner, path + [Strip(h)], EnterAt(path, Strip(h), Walk(f, path, doc)))
  {
    RunWalks(f, path, doc, [h, "{"] + inner);
    RunBlock(h, inner, path, Walk(f, path, doc));
    hide Run, EnterAt, Walk, Flatten, TrimBy;
  }

  /** The bounds in order: the first that is broken is the complaint, before any token is looked at. */
  lemma FirstBound(text: string, sha: Digester)
    ensures var lines, r := SplitLines(text), ParseText(text, sha);
      var long := exists i :: 0 <= i < |lines| && |lines[i]| > 4_096;
      && (text == "" ==> r == Err(EmptyText))
      && (text != "" && |text| > 1_000_000 ==> r == Err(TextTooLong))
      && (text != "" && |text| <= 1_000_000 && |lines| > 10_000 ==> r == Err(TooManyLines))
      && (text != "" && |text| <= 1_000_000 && |lines| <= 10_000 && long ==> r == Err(LineTooLong))
      && (text != "" && |text| <= 1_000_000 && |lines| <= 10_000 && !long ==>
           (r.Ok? <==> Run(TokensOf(text), [], EMPTY_DOCUMENT).Ok?)
           && (r.Err? ==> r.error == Run(TokensOf(text), [], EMPTY_DOCUMENT).error))
  {
    hide SplitLines, Run, TokensOf;
  }
}

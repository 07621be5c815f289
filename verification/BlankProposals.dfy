/** Two configurations that the comparison takes for one and the digest for two, from their texts to a drift record. */
module BlankProposals {
  import opened Wrappers
  import opened Text
  import opened SwanctlIr
  import opened Context
  import opened TokenMachine
  import opened Forest
  import opened Meaning
  import opened TokenizerLaws
  import opened Parser
  import opened Settings
  import opened Drift
  import opened DriftLaws
  import opened Inventory
  import Proposals

  const SETTING := "proposals ="

  const BLANK_BODY := Forest.Assign(SETTING, Empty)

  const ABSENT := JoinLines(LinesAround("gw", []))

  const BLANK := JoinLines(LinesAround("gw", [SETTING]))

  lemma SettingIsBlank()
    ensures LineToken(SETTING) && '=' in SETTING && KeyOf(SETTING) == "proposals" && ValueOf(SETTING) == ""
  {
    SettingIsLineToken();
    hide KeyOf, ValueOf, LineToken;
    LetterKey("proposals");
    SettingReads("proposals", " ", "", "", "");
    assert SETTING == "proposals" + " " + "=" + ("" + "" + "");
  }

  lemma SettingIsLineToken()
    ensures LineToken(SETTING)
  {
    assert forall i :: 0 <= i < |SETTING| ==> 'a' <= SETTING[i] <= 'z' || SETTING[i] == ' ' || SETTING[i] == '=';
    WordIsToken(SETTING);
    hide IsToken;
  }

  lemma AbsentParses(sha: Digester)
    ensures ParseText(ABSENT, sha).Ok?
    ensures ParseText(ABSENT, sha).value.ir
      == NormalizedIr("SWANCTL", "6.0.4", map["gw" := DefaultConnection("gw")], map[])
  {
    LetterWord("gw");
    hide LineToken, ValidName;
    OneConnectionParses("gw", [], Empty, sha);
    assert ConnectionOf(Empty, DefaultConnection("gw")) == DefaultConnection("gw");
    ParsedFormat(ABSENT, sha);
    hide ParseText;
  }

  lemma ParsedFormat(text: string, sha: Digester)
    requires ParseText(text, sha).Ok?
    ensures ParseText(text, sha).value.ir.format == "SWANCTL" && ParseText(text, sha).value.ir.version == "6.0.4"
  {
    hide TokenMachine.Run, BoundError, TokensOf;
  }

  lemma BlankParses(sha: Digester)
    ensures ParseText(BLANK, sha).Ok?
    ensures ParseText(BLANK, sha).value.ir
      == NormalizedIr("SWANCTL", "6.0.4", map["gw" := DefaultConnection("gw").(rawProposals := Some(""))], map[])
  {
    LetterWord("gw");
    SettingIsBlank();
    hide LineToken, ValidName, KeyOf, ValueOf;
    SettingBody("gw", SETTING, "proposals", "");
    OneConnectionParses("gw", [SETTING], BLANK_BODY, sha);
    BlankConnection();
    ParsedFormat(BLANK, sha);
    hide ParseText, ConnectionOf;
  }

  lemma BlankConnection()
    ensures SetConnection(DefaultConnection("gw"), "proposals", "")
      == Some(DefaultConnection("gw").(rawProposals := Some("")))
  {
    Proposals.EmptyListHasNoProposals();
  }

  function Request(text: string): ImportRequest {
    ImportRequest("gateway", text, "", "", "")
  }

  const STORY := [Import(Request(ABSENT), 1), Import(Request(BLANK), 2), ComputeDrift(1, 2, 3)]

  lemma DigestsDiffer(sha: Digester)
    requires Injective(sha)
    ensures ParseText(ABSENT, sha).Ok? && ParseText(BLANK, sha).Ok?
    ensures ParseText(ABSENT, sha).value.digest != ParseText(BLANK, sha).value.digest
    ensures Compare(ParseText(ABSENT, sha).value.ir, ParseText(BLANK, sha).value.ir, "gateway", "gateway").status
      == Matched
  {
    AbsentParses(sha);
    BlankParses(sha);
    EmptyProposalsGap("gateway", sha);
    ParsedIsWellFormed(ABSENT, sha);
    ParsedIsWellFormed(BLANK, sha);
    hide ParseText, Compare;
  }

  lemma FirstImport(sha: Digester)
    requires ParseText(ABSENT, sha).Ok?
    ensures Step(EMPTY_STORE, STORY[0], sha)
         == Store(map[1 := NewSnapshot(Request(ABSENT), 1, ParseText(ABSENT, sha).value)], [])
  {
    NotBlank();
    hide ParseText, Strip;
    assert WithDigest(map[], "gateway", ParseText(ABSENT, sha).value.digest) == {};
  }

  lemma SecondImport(t: Store, sha: Digester)
    requires ParseText(ABSENT, sha).Ok? && ParseText(BLANK, sha).Ok?
    requires ParseText(ABSENT, sha).value.digest != ParseText(BLANK, sha).value.digest
    requires t.snapshots == map[1 := NewSnapshot(Request(ABSENT), 1, ParseText(ABSENT, sha).value)]
    ensures Step(t, STORY[1], sha)
         == t.(snapshots := t.snapshots[2 := NewSnapshot(Request(BLANK), 2, ParseText(BLANK, sha).value)])
  {
    NotBlank();
    hide ParseText, Strip;
    assert WithDigest(t.snapshots, "gateway", ParseText(BLANK, sha).value.digest) == {};
  }

  lemma ThreeSteps(t: Store, sha: Digester)
    ensures Inventory.Run(t, STORY, sha) == Step(Step(Step(t, STORY[0], sha), STORY[1], sha), STORY[2], sha)
  {
    hide Step;
    var u := Step(t, STORY[0], sha);
    var v := Step(u, STORY[1], sha);
    var w := Step(v, STORY[2], sha);
    assert Inventory.Run(w, [], sha) == w;
    assert [STORY[2]][1..] == [] && Inventory.Run(v, [STORY[2]], sha) == w;
    assert STORY[1..][1..] == [STORY[2]] && Inventory.Run(u, STORY[1..], sha) == w;
  }

  lemma ThirdStep(t: Store, sha: Digester)
    requires 1 in t.snapshots && 2 in t.snapshots && t.drifts == []
    ensures Step(t, STORY[2], sha) == t.(drifts := [RecordOf(t, 1, 2, 3)])
  {}

  /**
   * Both snapshots are stored for the gateway, as different configurations, and their comparison is recorded as
   * MATCHED.
   */
  lemma DifferentSnapshotsCanMatch(sha: Digester)
    requires Injective(sha)
    ensures var t := Inventory.Run(EMPTY_STORE, STORY, sha);
      && 1 in t.snapshots && 2 in t.snapshots && t.snapshots[1].Gateway() == t.snapshots[2].Gateway()
      && t.snapshots[1].request.configText == ABSENT && t.snapshots[2].request.configText == BLANK
      && t.snapshots[1].digest != t.snapshots[2].digest
      && |t.drifts| == 1 && t.drifts[0].baselineId == 1 && t.drifts[0].observedId == 2
      && t.drifts[0].comparison.status == Matched
  {
    hide ParseText, Compare, Inventory.Run, Step, Injective;
    DigestsDiffer(sha);
    FirstImport(sha);
    var a := Step(EMPTY_STORE, STORY[0], sha);
    SecondImport(a, sha);
    var b := Step(a, STORY[1], sha);
    ThirdStep(b, sha);
    ThreeSteps(EMPTY_STORE, sha);
  }

  lemma NotBlank()
    ensures Strip(ABSENT) != "" && Strip(BLANK) != ""
  {
    assert ABSENT[0] == 'c' && BLANK[0] == 'c';
    var lo, hi := TrimKeepsMiddle(ABSENT, IsSpace);
    assert lo == 0;
    lo, hi := TrimKeepsMiddle(BLANK, IsSpace);
  }
}

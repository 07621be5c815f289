# Configuration pipeline and flow analytics: a verified model

The first part models how a strongSwan gateway configuration (`swanctl.conf`) is read, compared and stored.
`Tokenizer` has the two quote-aware passes over each line; `TokenMachine` the single pass over the token stream with its
block stack, depth counter and three context variables; `Forest`, `Grammar` and `Meaning` say what an accepted stream
is (the flattening of exactly one block forest) and what it means (recursion on that forest, without stack or context).
`Views` reads the result off as "last value of each key, last block of each name"; `Settings` says what keys, values,
quotes and comments are, up to the stored connection; `Faults` which complaint a faulty text gets; `ProposalLaws` what a
proposal list is read as; `Invariance` derives what may be
rewritten without a trace: repeated items, other top-level blocks, secret values. `Rearrangement` moves settings and
blocks past each other anywhere in a document and characterizes the orders so reached. `Drift` is the field-by-field comparison of two
configurations, `DriftMeaning` says what its entries, statuses and counts mean, `DriftLaws` relates it to equality, to
the digest, and to itself with the sides exchanged, and
`Inventory` is the service as a state machine over stored snapshots and drift records. `BlankProposals` follows one
input on which comparison and digest disagree from its text to the drift record, and `Spellings` the gateway identities
that the store tells apart and the comparison does not.

The second part models the numeric and sequence loops of flow classification: burst, idle and early-packet features
and the sequence tensor (`FlowFeatures`), calibration error (`Calibration`), fusion, calibration and open-set gating
(`Fusion`), sample weights (`SampleWeights`), the stratified splitter, its leakage audit and what its output
conserves (`Splitter`, `LeakageAudit`, `PartitionLaws`), the tolerance-based grid searches (`ToleranceSearch`,
`Percentiles`, `ThresholdTuning`, `AlphaSearch`, and `ValidationRows` for what the latter is judged by) and flat-array isolation trees (`IsolationTree`).
`Wrappers`, `Text`, `Names`, `Proposals`, `SwanctlIr`, `Context` and `RealSums` hold shared vocabulary.

Loops that update variables are methods with invariants, each proved equal to a function or a declarative statement;
the laws are lemmas about those. Floats are `real`. SHA-256 of the serialized public view is one given function, assumed
injective only where a lemma says so; shuffling is any rearrangement; logarithm, exponential, entropy and the model
branches' outputs are parameters; identifiers that the service would draw at random are arguments. Each service call is
one atomic step.

## What the code does that its documentation or a first reading does not say

- The acceptance law holds for all token streams, also those with `{` after a brace: a brace directly followed by `{`
  is a block name, and `Readable` forests are exactly those whose flattening reads back that way.
- `proposals =` with nothing after it is stored as the empty text. The comparison treats it as absent, the digest does
  not. Digest and comparison agree exactly when the blank texts agree on both sides (`DigestAgreesWithComparison`);
  `EmptyProposalsGap` shows the difference and `DifferentSnapshotsCanMatch` two texts that lead to it.
- The five status counts add up to `total_fields` exactly when both snapshots name the same gateway: the mismatch
  report counts one incomparable field of a total of zero (`CountsSumToTotal`).
- Paths in a drift report are joined with dots, and names may hold dots: a missing role key can carry the path of a
  missing connection (`DottedPathsCanMislead`). `MissingPaths` and `NewPaths` say for every path exactly when it is
  reported; for a connection without a dot in its name that is exactly when one side alone has it.
- A secret-named key is withheld exactly under top-level `secrets`; anywhere else it is listed as unsupported with its
  value (`RedactionScope`). The `is_redacted` flag can itself be replaced by a later `is_redacted =` setting.
- `service.py:43` raises `ConfigurationParseError`, which that file does not import; the model has the intended error
  (`BlankText`).
- A grid search with a 1e-4 tie-break can give up the best score, one tie at a time. In the order in which the points are
  visited, it ends at the best score if and only if some best point is not undercut later, that is, by a cheaper point
  that scores below it by less than 1e-4 (`BestInThisOrder`; `BestInEveryOrder` is the condition for all orders). For
  the fusion weight, `RowsCanMislead` gives 12 002 validation rows on which a better macro-F1 is given up. For the
  rejection thresholds, with their percentile grids, the search is exact for all validation rows and targets if and only
  if at most 10 000 of the rows are out of distribution (`TuningIsExact`); the rows that fail beyond that have plausible
  entropies and the default target of 5 %.
- Tuned thresholds are rounded to four digits before they are stored. The stored ones keep every target that the tuned
  ones meet if and only if rounding has not lowered the entropy bound and not raised the confidence bound
  (`StoredKeepsTarget`); `StoredCanMissTarget` is an input on which they reject what was tuned to be accepted.
- Baselines and stored snapshots are told apart by the identity as spelled, while the comparison ignores case and
  surrounding blanks. A gateway can have two matching baselines exactly when it is imported under two spellings of one
  normal form (`SpellingsDouble`), and never when identities are imported in normal form
  (`NormalizedIdentitiesAreUnique`).
- `search_optimal_alpha` fails after its loop when no recorded weight is within 0.001 of one half or none is 1.0. It
  completes exactly for odd grids of at least 3 weights and even grids of at least 528 (`BaselinesExactly`).
- `to_dict` stores a hash of the feature schema and `load_json` neither reads it nor restores the features: without a
  schema argument the canonical one is taken. All detectors with a feature list score every named record as before if
  and only if the list they are loaded with begins with it (`ReloadScoresAlike`); `ReloadCanScoreDifferently` is a
  detector that goes wrong.
- The early-byte feature and the length channel agree exactly when the padding value is 0 or the flow has at least
  `early_k` packets (`EarlyBytesAgree`).
- The splitter accepts ratios whose sum is off by up to 1e-5, so its sizes are near the portions up to that shortfall,
  which is zero for an exact sum.

## Model

| member | source | states |
|---|---|---|
| Text.TrimKeepsMiddle | backend/app/inventory/strongswan_parser.py:270-271 | stripping keeps one stretch whose two ends are not strippable and drops only strippable characters |
| Text.TrimIsDetermined | backend/app/inventory/strongswan_parser.py:270-271 | and nothing else is the stripped text |
| Text.IntReads | backend/app/inventory/strongswan_parser.py:279-282 | `int` reads a written number back, with a sign or none |
| Text.IntIgnoresBlanks | backend/app/inventory/strongswan_parser.py:279-282 | blanks around a number do not matter |
| Text.StrangeIsNoInt | backend/app/inventory/strongswan_parser.py:279-282 | a text with anything but digits and underscores behind its sign is no number |
| Text.AsciiBlanks | backend/app/inventory/strongswan_parser.py:132-188 | among ASCII characters, which are blank and which end a line; whatever ends a line is blank |
| Text.JoinDotsSnoc | backend/app/inventory/strongswan_parser.py:272 | a path grows by a dot and the block's name |
| Text.ContainsMeans | backend/app/inventory/strongswan_parser.py:57-60 | a part occurs if the text from somewhere on begins with it |
| Text.LineByLine | backend/app/inventory/strongswan_parser.py:132 | `splitlines` turns a line, a line break (CR LF being one) and a rest into that line and the rest's lines |
| Text.LastLine | backend/app/inventory/strongswan_parser.py:132 | a non-empty text without a break is one line |
| Text.JoinedLinesSplit | backend/app/inventory/strongswan_parser.py:132 | lines written out with line feeds are read back as they were |
| Names.SortedMeaning | backend/app/inventory/drift_engine.py:56 | `sorted` of a name set: exactly its names, each once, ascending |
| Names.LeqMeans | backend/app/inventory/drift_engine.py:56 | the order is by code points: a beginning comes first, else the first differing character decides |
| Names.Sort | backend/app/inventory/drift_engine.py:56 | the selection loop returns that sorted sequence |
| Tokenizer.StripComment | backend/app/inventory/strongswan_parser.py:146-162 | the first pass keeps exactly the characters before the first `#` outside quotes |
| Tokenizer.SplitAtBraces | backend/app/inventory/strongswan_parser.py:166-188 | the second pass equals the recursive cut at unquoted braces, whichever quote character the first pass left behind |
| Tokenizer.TokenizeLine | backend/app/inventory/strongswan_parser.py:142-188 | both passes together give the line's tokens |
| Tokenizer.Tokenize | backend/app/inventory/strongswan_parser.py:140-188 | the tokens of all lines, in order |
| TokenizerLaws.QuoteStatesAgree | backend/app/inventory/strongswan_parser.py:147-185 | the kept text is a stretch of the line, and at each of its positions both passes are in the same quote state |
| TokenizerLaws.CutIsTheAlternation | backend/app/inventory/strongswan_parser.py:166-188 | the pieces are the one sequence that concatenates to the text and alternates brace-free stretches with unquoted braces |
| TokenizerLaws.LineYieldsTokens | backend/app/inventory/strongswan_parser.py:142-188 | every token of any line is a single brace or holds no brace and no `#` outside quotes |
| TokenizerLaws.BraceTokensAreBareBraces | backend/app/inventory/strongswan_parser.py:166-188 | the brace tokens of a line are, in order, exactly the kept text's braces outside quotes |
| TokenizerLaws.TokenIsFixed | backend/app/inventory/strongswan_parser.py:142-188 | a token alone on a line is read back as itself |
| TokenizerLaws.LayoutIsIrrelevant | backend/app/inventory/strongswan_parser.py:140-188 | one token a line yields the same tokens as any layout: comments, indentation and line breaks carry no meaning |
| Settings.QuotesProtect | backend/app/inventory/strongswan_parser.py:147-188 | between quotes of either kind braces, comment signs and the other quote are ordinary: the setting stays one token |
| Settings.CommentsAreDropped | backend/app/inventory/strongswan_parser.py:158-160 | what follows an unquoted comment sign is not read |
| Settings.SettingReads | backend/app/inventory/strongswan_parser.py:269-271 | a key and a value with any blanks around the sign are read as that key and that value |
| Settings.QuotedSettingReads | backend/app/inventory/strongswan_parser.py:269-271 | quotes of either kind are taken off and keep the blanks inside them |
| Settings.YesMeans | backend/app/inventory/strongswan_parser.py:291 | exactly yes, true and 1 switch on, in any letter case |
| Settings.SecretKeyMeans | backend/app/inventory/strongswan_parser.py:105-114 | exactly the eight names, in any letter case, are secret |
| ProposalLaws.ListsJoin | backend/app/inventory/strongswan_parser.py:77-84 | a comma or a semicolon joins two proposal lists |
| ProposalLaws.SingleProposal | backend/app/inventory/strongswan_parser.py:77-84 | without one there is one proposal, or none in a blank text |
| ProposalLaws.PartsAreFiled | backend/app/inventory/strongswan_parser.py:39-47 | dashes separate the parts; the first is the encryption and tells the key length |
| ProposalLaws.LongestLengthCounts | backend/app/inventory/strongswan_parser.py:55-60 | a key length is recorded exactly if it occurs and no longer one does |
| ProposalLaws.LastOfKindCounts | backend/app/inventory/strongswan_parser.py:62-74 | group, PRF and integrity are each the last part of that kind |
| ProposalLaws.BangsAreDropped | backend/app/inventory/strongswan_parser.py:41 | all exclamation marks at the end go and nothing else |
| TokenMachine.Assign | backend/app/inventory/strongswan_parser.py:268-343 | deciding by the three context variables is deciding by the path alone, and every lookup is defined |
| TokenMachine.Process | backend/app/inventory/strongswan_parser.py:190-348 | the loop refines the context-free pass; throughout, depth is the stack's length and at most 8, each context variable is a function of the stack, and all lookups are defined |
| Forest.RunWalks | backend/app/inventory/strongswan_parser.py:198-345 | meeting a flattened forest under any path, with anything readable behind it, the pass acts as the walk over the forest |
| Forest.AcceptedReads | backend/app/inventory/strongswan_parser.py:198-348 | from any state, an accepted stream is a readable flattened forest up to the brace that closes the innermost block, or up to its end |
| Meaning.WalkUnsupported | backend/app/inventory/strongswan_parser.py:295-340 | the unsupported list is the forest's unmodelled directives in document order |
| Meaning.WalkConnection | backend/app/inventory/strongswan_parser.py:214-241 | a connection block changes that connection alone, to the recursive evaluation of its body |
| Meaning.WalkTop | backend/app/inventory/strongswan_parser.py:190-348 | connections and secrets after a walk are those of the structural evaluation |
| Meaning.WalkMeans | backend/app/inventory/strongswan_parser.py:190-356 | a whole document's walk computes its meaning |
| Grammar.ReadingIsAccepted | backend/app/inventory/strongswan_parser.py:190-356 | a flattening of an acceptable, readable forest is accepted, with that forest's meaning |
| Grammar.AcceptedHasReading | backend/app/inventory/strongswan_parser.py:190-348 | whatever is accepted is such a flattening |
| Grammar.AcceptsExactly | backend/app/inventory/strongswan_parser.py:190-356 | for every token stream: accepted if and only if it has a reading, and then the result is what the reading means |
| Faults.NextFault | backend/app/inventory/strongswan_parser.py:202-210 | behind items that read well, inside any path, which of the five complaints the next tokens cause |
| Faults.FaultInside | backend/app/inventory/strongswan_parser.py:198-250 | a fault inside a block in good order is the text's fault |
| Faults.FirstBound | backend/app/inventory/strongswan_parser.py:127-144 | the first broken bound is the complaint, in the order of the checks |
| Grammar.FlattenInjective | backend/app/inventory/strongswan_parser.py:198-266 | readable forests with equal flattenings, up to what follows, are equal |
| Grammar.ReadingIsUnique | backend/app/inventory/strongswan_parser.py:198-266 | no stream has two readings |
| Views.TopConnectionsWellFormed | backend/app/inventory/strongswan_parser.py:214-323 | parsed structures file every entry under its own name, hold only modelled role keys and hold proposals that follow from their raw text |
| Views.ChildOfFields | backend/app/inventory/strongswan_parser.py:302-323 | each field of a child is its key's last value in the block, interpreted, or its default |
| Views.ConnectionOfFields | backend/app/inventory/strongswan_parser.py:276-323 | each field of a connection is its key's last value; roles and children collect all blocks of their name |
| Views.RoleOfLast | backend/app/inventory/strongswan_parser.py:296-301 | a role holds a modelled key if and only if it is set, with the last value |
| Views.ChildrenOfLast | backend/app/inventory/strongswan_parser.py:229-241 | a child is what its last block says, from defaults |
| Views.ConnectionsOfLast | backend/app/inventory/strongswan_parser.py:215-228 | a re-opened connection is what its last block says, from defaults |
| Views.TopIsInside | backend/app/inventory/strongswan_parser.py:214-228 | repeated top-level `connections` blocks read as one block with their contents in order |
| Views.SecretOfLast | backend/app/inventory/strongswan_parser.py:327-335 | a secret keeps every key set anywhere in it: withheld if secret-named, else with its last value |
| Views.SecretFlag | backend/app/inventory/strongswan_parser.py:330-332 | the flag is up exactly if a secret-named key is set, unless a setting of its own name says otherwise |
| Views.SecretsOfLast | backend/app/inventory/strongswan_parser.py:242-247 | a secret that is opened again is what its last block says |
| Views.TopSecretsInside | backend/app/inventory/strongswan_parser.py:242-247 | repeated top-level `secrets` blocks read as one |
| Views.SecretStartsNamed | backend/app/inventory/strongswan_parser.py:244-247 | a new secret carries its block's name as identifier and type |
| Views.ViewDependsOnLastOnly | backend/app/inventory/strongswan_parser.py:350-382 | documents whose last values and last blocks agree have the same connections |
| Invariance.ReorderingKeepsView | backend/app/inventory/strongswan_parser.py:214-241 | equal sets of top-level items without conflicts, so also repeated ones, mean equal connections; for the items of an inner block, the relation between its contents that the view depends on |
| Rearrangement.ExchangeKeepsConnections | backend/app/inventory/strongswan_parser.py:198-345 | exchanging two neighbours anywhere (settings of different keys, blocks of different names, or one of each) leaves the connections unchanged |
| Rearrangement.RearrangingKeepsConnections | backend/app/inventory/strongswan_parser.py:198-345 | so does any number of exchanges |
| Rearrangement.AnyOrderIsReached | backend/app/inventory/strongswan_parser.py:198-345 | exchanges reach every order of a block's items that keeps each key's settings and each name's blocks in order; with distinct keys and names, every order |
| Rearrangement.RearrangedInside | backend/app/inventory/strongswan_parser.py:198-345 | what can be rearranged can be so inside any block |
| Rearrangement.RearrangingKeepsReading | backend/app/inventory/strongswan_parser.py:198-348 | an accepted document stays accepted unless a block called `{` comes to stand right behind another item |
| Invariance.OnlyConnectionsShow | backend/app/inventory/strongswan_parser.py:377-382 | other contents in `secrets` and any other top-level block leave the connections unchanged |
| Invariance.SecretsDoNotLeak | backend/app/inventory/strongswan_parser.py:327-337 | documents differing only in values of secret-named keys within top-level `secrets` give the same result in full |
| Invariance.SecretsAreRedacted | backend/app/inventory/strongswan_parser.py:328-335 | no accepted configuration stores a secret-named key of a secret other than redacted and flagged |
| Invariance.SecretKeysAreNotModelled | backend/app/inventory/strongswan_parser.py:105-114 | no secret-named key, in any letter case, is a connection, role or child key |
| Invariance.RedactionScope | backend/app/inventory/strongswan_parser.py:327-340 | the value of a secret-named assignment is without effect if and only if the path starts with `secrets` |
| Parser.Parse | backend/app/inventory/strongswan_parser.py:117-365 | succeeds if and only if the four bounds hold and the tokens have a reading, with that reading's structure, unsupported list and digest |
| Settings.OneConnectionParses | backend/app/inventory/strongswan_parser.py:117-365 | a text with one connection parses to that connection, read from its body, and to what the body has no place for |
| Settings.SettingParses | backend/app/inventory/strongswan_parser.py:268-295 | one setting in one connection takes effect if its key is modelled and is listed under its path if not |
| Settings.AddressIsStored | backend/app/inventory/strongswan_parser.py:284-286 | a written address is the stored one, all else being default |
| Settings.UnknownIsListed | backend/app/inventory/strongswan_parser.py:294-295 | a setting without a place is listed with its path and value |
| Parser.ParsedParts | backend/app/inventory/strongswan_parser.py:350-382 | connections, secrets and unsupported list are the reading's, the digest is of its connections alone |
| Parser.ParsedIsWellFormed | backend/app/inventory/strongswan_parser.py:350-382 | results are well formed and carry the digest of their own public view |
| Parser.SameConfigurationSameDigest | backend/app/inventory/strongswan_parser.py:367-382 | texts with the same configuration parse to the same digest |
| Parser.RearrangingKeepsDigest | backend/app/inventory/strongswan_parser.py:367-382 | a text whose document is a rearrangement of an accepted one is accepted with the same digest |
| Parser.SecretsDoNotReachResult | backend/app/inventory/strongswan_parser.py:327-365 | texts differing only in secret values have equal results, digest included |
| Drift.CompareChildFields | backend/app/inventory/drift_engine.py:227-284 | the child attribute loop and the proposal entry, in order |
| Drift.CompareChild | backend/app/inventory/drift_engine.py:194-284 | a child on one side only is one missing or new entry |
| Drift.CompareRole | backend/app/inventory/drift_engine.py:143-192 | one entry for each role key that a side sets, none for a key neither sets, with the four-way status |
| Drift.CompareFields | backend/app/inventory/drift_engine.py:85-141 | the scalar loop and the proposal entry, in order |
| Drift.CompareChildren | backend/app/inventory/drift_engine.py:194-284 | children of both sides in name order |
| Drift.ComparePair | backend/app/inventory/drift_engine.py:85-284 | fields, proposals, roles, children in that order |
| Drift.CompareConnections | backend/app/inventory/drift_engine.py:51-284 | connections of both sides in name order |
| Drift.CompareSnapshots | backend/app/inventory/drift_engine.py:18-318 | the loops compute the comparison the laws are about, the identity mismatch included |
| DriftMeaning.EveryItemSays | backend/app/inventory/drift_engine.py:51-296 | missing is what only the baseline has, new what only the observed side has, changed what both have differently, matched what is equal |
| DriftMeaning.MissingPaths | backend/app/inventory/drift_engine.py:51-192 | a path is reported missing exactly for a connection, a child or a role key that only the baseline has |
| DriftMeaning.NewPaths | backend/app/inventory/drift_engine.py:51-192 | a path is reported new exactly for those that only the observed side has |
| DriftMeaning.ConnectionMissingOrNew | backend/app/inventory/drift_engine.py:58-83 | a connection without a dot in its name is reported missing, or new, exactly when one side alone has it |
| DriftMeaning.DottedPathsCanMislead | backend/app/inventory/drift_engine.py:143-192 | a missing role key that carries the path of a missing connection |
| DriftMeaning.ConnectionFieldsAreCompared | backend/app/inventory/drift_engine.py:85-192 | every field, proposal list and set role key of a shared connection is an entry with both values |
| DriftMeaning.ChildFieldsAreCompared | backend/app/inventory/drift_engine.py:227-284 | every field and proposal list of a shared child is an entry with both values |
| DriftMeaning.SummaryCounts | backend/app/inventory/drift_engine.py:298-318 | the counts are the numbers of entries with each status; drift is what is changed, missing or new |
| DriftMeaning.DifferentGateways | backend/app/inventory/drift_engine.py:31-49 | different gateways, and only those, are not compared: one entry names both |
| DriftLaws.QuietIsMatched | backend/app/inventory/drift_engine.py:298-318 | the status is matched if and only if no entry is changed, missing or new |
| DriftLaws.CountsSumToTotal | backend/app/inventory/drift_engine.py:31-49 | the five counts sum to the total if and only if the identities agree |
| DriftLaws.PairQuiet | backend/app/inventory/drift_engine.py:85-284 | two connections show no drift if and only if they are equal up to blank proposal texts |
| DriftLaws.MatchedMeansCanonicallyEqual | backend/app/inventory/drift_engine.py:18-318 | matched if and only if the identities agree and all connections are equal up to blank proposal texts |
| DriftLaws.DigestAgreesWithComparison | backend/app/inventory/strongswan_parser.py:367-382 | for one gateway: equal digests if and only if matched and blank in the same places |
| DriftLaws.EmptyProposalsGap | backend/app/inventory/drift_engine.py:118-141 | a blank and an absent `proposals` match, yet their digests differ |
| DriftLaws.MatchedIsEquivalence | backend/app/inventory/drift_engine.py:18-318 | matching is reflexive, symmetric and transitive |
| DriftLaws.FieldsShowConfiguration | backend/app/inventory/drift_engine.py:85-116 | the compared connection fields are the last configured values or the defaults |
| DriftLaws.ChildFieldsShowConfiguration | backend/app/inventory/drift_engine.py:227-259 | the compared child fields are the last configured values or the defaults |
| DriftLaws.SwapItems | backend/app/inventory/drift_engine.py:51-296 | exchanging the sides exchanges values and missing with new, entry by entry |
| DriftLaws.SwapKeepsVerdict | backend/app/inventory/drift_engine.py:298-318 | it keeps the verdict, the ordered paths and the counts, up to missing and new |
| Inventory.ImportKeeps | backend/app/inventory/service.py:36-87 | an import keeps one snapshot a gateway and digest, and all other invariants |
| Inventory.DesignateKeeps | backend/app/inventory/service.py:90-127 | a designation keeps one baseline a gateway, and all other invariants |
| Inventory.StepKeeps | backend/app/inventory/service.py:36-197 | every operation, failing ones included, keeps the store consistent |
| Inventory.RunKeeps | backend/app/inventory/service.py:36-197 | in every run the store stays consistent, no stored evidence changes and no drift record is lost or altered |
| Inventory.DifferentSnapshotsDrift | backend/app/inventory/service.py:51-58 | in every reachable store two different snapshots of one gateway drift, unless blank proposal texts hide it |
| BlankProposals.DifferentSnapshotsCanMatch | backend/app/inventory/service.py:36-197 | from the empty store, two texts are imported for one gateway as snapshots with different digests, and their drift record says matched |
| Spellings.SpellingsDouble | backend/app/inventory/service.py:52-123 | some run ends with two baselines of one digest whose comparison matches if and only if their identities are two spellings of one normal form |
| Spellings.UpperCaseAndBlank | backend/app/inventory/drift_engine.py:31-49 | "GW" and "gw " are such spellings |
| Spellings.NormalizedIdentitiesAreUnique | backend/app/inventory/service.py:52-123 | if identities are imported in normal form, what the comparison takes for one gateway has one baseline and one snapshot a digest |
| Inventory.DesignationMovesBaseline | backend/app/inventory/service.py:108-123 | the designated snapshot becomes its gateway's only baseline; other gateways keep theirs |
| Inventory.ImportIsIdempotent | backend/app/inventory/service.py:51-58 | importing another text with the same public view changes nothing |
| Inventory.ImportStores | backend/app/inventory/service.py:60-87 | a new row holds the request and all three parts of the parse, no mark and no approval; nothing else changes |
| Inventory.DesignationWrites | backend/app/inventory/service.py:108-127 | a designation writes mark and approval of one row; the gateway's others lose their mark and no more |
| Inventory.InventoryService.ImportSnapshot | backend/app/inventory/service.py:36-87 | the new state is the import step's; a fresh row is the returned one, with the request and all parts of the parse; an existing one is returned unchanged; exactly when each error arises; the lookup never finds two rows |
| Inventory.InventoryService.DesignateBaseline | backend/app/inventory/service.py:90-127 | succeeds exactly for a stored snapshot without the empty-content digest, which is then the only baseline, with the approval; which error else |
| Inventory.InventoryService.RecordDrift | backend/app/inventory/service.py:157-197 | appends one record, with the given identifiers and the baseline's gateway, that is the comparison of the two stored structures |
| Inventory.InventoryService.FindBaseline | backend/app/inventory/service.py:316-321 | the single-row query never fails and returns the baseline if there is one |
| FlowFeatures.ScanBursts | backend/app/ml/extractor.py:180-202 | the burst loop finds exactly the maximal runs of short gaps, and each total is the sum over that run's packets |
| FlowFeatures.RunsAreUnique | backend/app/ml/extractor.py:180-202 | there is one decomposition into maximal runs |
| FlowFeatures.BurstTotals | backend/app/ml/extractor.py:180-204 | bursts share no packet: their bytes are at most the flow's, and twice their number at most its packets |
| FlowFeatures.IatsTelescope | backend/app/ml/extractor.py:139-144 | inter-arrival times sum to the duration |
| FlowFeatures.IdleClampIsIdle | backend/app/ml/extractor.py:209-215 | idle time is at most the duration, so clamping the ratio changes nothing; a vanishing duration gives ratio 0 |
| FlowFeatures.IdleIsLongGaps | backend/app/ml/extractor.py:209-212 | idle time is the sum of the gaps above the threshold |
| FlowFeatures.FlowOf | backend/app/ml/extractor.py:51-85 | extraction succeeds exactly for a non-empty, ordered sequence without negative lengths, with the packets' times, lengths and resolved directions |
| FlowFeatures.ExtractSequence | backend/app/ml/sequence_extractor.py:83-108 | every cell of the tensor and of the mask, padding included |
| FlowFeatures.DirectionChannel | backend/app/ml/sequence_extractor.py:72-92 | the direction channel from the packets: the stated sign, else forward unless the SPIs differ |
| FlowFeatures.LengthAndFirstDelta | backend/app/ml/sequence_extractor.py:94-100 | the length channel times the factor is the length, and the first packet has no gap |
| FlowFeatures.TruncationAgrees | backend/app/ml/sequence_extractor.py:83-108 | cutting tensor and mask to a shorter horizon is extracting at that horizon |
| FlowFeatures.EarlyBytesAndPadding | backend/app/ml/sequence_extractor.py:83-96 | the length channel's first entries scaled back are the early-byte feature plus the padding among them |
| FlowFeatures.EarlyBytesAgree | backend/app/ml/extractor.py:220-221 | the two agree if and only if the padding value is 0 or the flow is long enough |
| FlowFeatures.DeltaIsClippedIat | backend/app/ml/sequence_extractor.py:83-106 | the delta channel is the tabular inter-arrival time, clipped |
| Calibration.ComputeEce | backend/app/ml/calibration.py:149-194 | each bin's count and means are those of its samples, empty bins report 0 and their centre, and the error is the mean of the bins' gaps, 0 without samples |
| Calibration.OneBin | backend/app/ml/calibration.py:168-173 | every confidence in [0, 1] lies in exactly one bin |
| Calibration.BinsPartition | backend/app/ml/calibration.py:168-173 | any weights summed by bin sum to the whole |
| Calibration.CountsSumToSamples | backend/app/ml/calibration.py:175-186 | bin counts sum to the number of samples |
| Calibration.EceBounds | backend/app/ml/calibration.py:175-194 | the error is in [0, 1] and at least the gap between overall accuracy and overall confidence |
| Calibration.CentersAreMidway | backend/app/ml/calibration.py:176-185 | an empty bin's centre is midway between its edges |
| Calibration.BinsGiveGaps | backend/app/ml/calibration.py:175-186 | the reported bins give the error back: gaps weighted by bin size |
| Fusion.ArgMax | backend/app/ml/fusion.py:80-90 | the first index of the largest entry |
| Fusion.FuseIsDistribution | backend/app/ml/fusion.py:50-78 | fused distributions are a distribution, and normalizing them changes nothing |
| Fusion.FuseIsBetween | backend/app/ml/fusion.py:73 | every fused entry lies the share alpha of the way from the sequence branch's to the tabular branch's |
| Fusion.FuseRenormalizes | backend/app/ml/fusion.py:73-78 | other rows are renormalized to sum 1, unless nothing is left to divide by |
| Fusion.FuseComplains | backend/app/ml/fusion.py:60-71 | which of the three complaints unfit rows or weights get |
| Fusion.FuseEndsAtBranches | backend/app/ml/fusion.py:50-78 | weight 1 is the tabular branch alone, weight 0 the sequence branch alone |
| Fusion.FuseKeepsAgreedClass | backend/app/ml/fusion.py:50-90 | when both branches pick the same first-index winner, so does every mixture |
| Fusion.CalibrateKeepsArgMax | backend/app/ml/calibration.py:72-97 | at every positive temperature calibration gives a distribution with the same first-index winner |
| Fusion.CalibrateKeepsRatios | backend/app/ml/calibration.py:89-97 | away from temperature 1 the entries stand to each other as the tempered, clipped probabilities do, and sum to 1 |
| Fusion.CalibrateNearOne | backend/app/ml/calibration.py:86-87 | within a millionth of temperature 1 the row is left alone |
| ThresholdTuning.RejectedCountsGate | backend/app/ml/ood.py:92-110 | the rejection counts that tuning works with are the numbers of samples that the gate with those thresholds turns away |
| ThresholdTuning.LooserGateRejectsLess | backend/app/ml/ood.py:92-110 | raising the entropy bound or lowering the confidence bound turns away no flow that was accepted |
| Fusion.ClassifyFlow | backend/app/ml/inference_service.py:86-139 | the prediction is the winner of the calibrated row of the fused, or if degraded the tabular, probabilities; exactly when it is degraded; branches agree if and only if they share a winner, which is then the prediction; the rejection decides the final class |
| SampleWeights.ComputeWeights | backend/app/ml/weighting.py:27-73 | the in-place loops compute the weights the laws are about, in every early-return case |
| SampleWeights.ClassesCarryEqualWeight | backend/app/ml/weighting.py:45-55 | class-balanced weights are positive, sum to n, and each of the m classes carries n/m |
| SampleWeights.SessionWeightsSum | backend/app/ml/weighting.py:57-71 | session-balanced weights are positive and sum to n |
| SampleWeights.SessionsOfClassCarryEqualWeight | backend/app/ml/weighting.py:57-71 | single-class sessions of one class carry equal weight whatever their flow counts |
| SampleWeights.WeightsSumToSamples | backend/app/ml/weighting.py:27-73 | under every profile and input the weights are positive and sum to n |
| SampleWeights.ProfileDecides | backend/app/ml/weighting.py:41-73 | what each profile balances: nothing, class sizes, or class and session sizes |
| Splitter.TakeRatios | backend/app/datasets/splitter.py:52-71 | ratios are taken as they are, or refused first for their sum, then for a sign |
| Splitter.TakenRatiosAreValid | backend/app/datasets/splitter.py:52-71 | the ratios the laws are about are exactly those taken |
| Splitter.SizesNearPortions | backend/app/datasets/splitter.py:122-133 | split sizes, the repair of a negative remainder included, are within one session of the portions, plus the ratios' shortfall |
| Splitter.SizesAreRounded | backend/app/datasets/splitter.py:122-133 | sizes are the rounded portions while they fit, and nothing is left for test once they do not |
| Splitter.OodWords | backend/app/datasets/splitter.py:89-97 | held out are exactly the sessions whose class is one of three words in any letter case; no class counts as UNKNOWN |
| RealSums.RoundIsDetermined | backend/app/datasets/splitter.py:123-124 | rounding is to the nearest integer, halves to the even one |
| Splitter.ClassIsSplitByRatios | backend/app/datasets/splitter.py:131-172 | a class keeps its shuffled order in three consecutive splits of those sizes, each session in a group of its own |
| Splitter.BuildBuckets | backend/app/datasets/splitter.py:85-97 | each bucket holds its class's sessions in input order, the rest is out-of-distribution |
| Splitter.PartitionClass | backend/app/datasets/splitter.py:122-172 | the three assignment loops of one class |
| Splitter.Partition | backend/app/datasets/splitter.py:73-174 | out-of-distribution sessions first, then the classes in name order |
| LeakageAudit.FindOverlaps | backend/app/datasets/splitter.py:205-229 | the nested loops report exactly the overlapping pairs, each with its overlap |
| LeakageAudit.Collect | backend/app/datasets/splitter.py:196-203 | the indexes hold, for each split, exactly its ids and supplied digests |
| LeakageAudit.Audit | backend/app/datasets/splitter.py:177-237 | clean if and only if no id and no supplied digest occurs in two splits; else every two splits that share some are reported, with exactly what they share |
| PartitionLaws.PartitionConserves | backend/app/datasets/splitter.py:84-174 | the assigned ids are the input's ids, each as often |
| PartitionLaws.HoldoutIsTheOodSessions | backend/app/datasets/splitter.py:101-113 | the holdout receives exactly the out-of-distribution sessions, each as often as it occurs |
| PartitionLaws.OutputByClass | backend/app/datasets/splitter.py:116-172 | the assignments of a class in the whole output are its shuffled bucket's three slices and nothing else |
| PartitionLaws.ClassReceivesItsSessions | backend/app/datasets/splitter.py:116-172 | every class receives exactly its sessions, in train, validation and test counts within one session of the portions, plus the ratios' shortfall |
| PartitionLaws.OodIsQuarantined | backend/app/datasets/splitter.py:101-113 | every assignment has an input session of its id that belongs in its split and class |
| PartitionLaws.PartitionIsClean | backend/app/datasets/splitter.py:73-237 | a partition of distinct ids with distinct digests passes the audit |
| ToleranceSearch.SearchKeepsScore | backend/app/ml/ood.py:182-187 | the outcome is the start or a feasible visited point, never far below the start |
| ToleranceSearch.SearchNearBest | backend/app/ml/ood.py:182-187 | any feasible point beats the outcome by at most 1e-4 for each point visited after it |
| ToleranceSearch.SeparatedSearchIsOptimal | backend/app/ml/fusion.py:147-150 | with scores equal or at least 1e-4 apart the outcome has the best score and, among those, the least cost |
| ToleranceSearch.BestInThisOrder | backend/app/ml/fusion.py:147-150 | in the order given, the search ends at the best feasible score if and only if some best point is not undercut by a point visited after it |
| ToleranceSearch.BestInEveryOrder | backend/app/ml/fusion.py:147-150 | every visiting order ends at the best feasible score if and only if no feasible point just below it is cheaper than every best one |
| ToleranceSearch.SafeSearchIsOptimal | backend/app/ml/fusion.py:147-150 | under that condition the outcome also has the least cost among the best |
| AlphaSearch.TwoStepsDown | backend/app/ml/fusion.py:120-150 | three weights whose scores fall twice within 1e-4, each time at lower cost, end at the last |
| ValidationRows.FirstMax | backend/app/ml/fusion.py:128 | the predicted class is the first index of the largest entry |
| ValidationRows.ClippedKeepsRatios | backend/app/ml/fusion.py:131-134 | clipped rows sum to 1 and keep the ratios of the clipped entries |
| ValidationRows.EvaluationsAre | backend/app/ml/fusion.py:127-138 | macro-F1 and log loss of the misleading rows at the three weights |
| ValidationRows.RowsCanMislead | backend/app/ml/fusion.py:109-150 | validation rows on which the search ends at a macro-F1 more than 1e-4 below one it visited |
| AlphaSearch.WeightsInThisOrder | backend/app/ml/fusion.py:120-150 | the exact condition for the weight search as it runs, whatever the scores |
| AlphaSearch.WeightsInEveryOrder | backend/app/ml/fusion.py:120-150 | the exact condition for the weights to lead to the best score in whatever order they are tried, and then to least cost |
| Percentiles.SortedMeaning | backend/app/ml/ood.py:166-167 | the sorted data a percentile is read from: the same numbers, ascending |
| Percentiles.PercentileIsAmong | backend/app/ml/ood.py:166-167 | a percentile lies between the bounds of the data |
| Percentiles.PercentileInterpolates | backend/app/ml/ood.py:166-167 | a percentile divides the gap between two sorted neighbours in hundredths |
| Percentiles.SpacedPercentile | backend/app/ml/ood.py:166-167 | of equally spaced numbers it lies q hundredths of the way from the first to the last |
| Percentiles.PercentileAscends | backend/app/ml/ood.py:166-167 | a higher percentile is not a lower number |
| ThresholdTuning.CandidatesOnHundred | backend/app/ml/ood.py:165-195 | which percentiles are tried and which two are fallen back on |
| RealSums.Round4IsNear | backend/app/ml/ood.py:200-201 | stored values are within half a ten-thousandth |
| ThresholdTuning.TuneThresholds | backend/app/ml/ood.py:165-198 | entropies and confidences are those of the rows, the nested loops perform that search over the grid of their percentiles, with the fallback when nothing is feasible; what is stored is the outcome rounded to four digits |
| ThresholdTuning.TunedPointIsFeasible | backend/app/ml/ood.py:169-189 | if some grid point meets the target rejection rate, so does the chosen one, and its recall is near the best |
| ThresholdTuning.TuningInGridOrder | backend/app/ml/ood.py:169-187 | for any data the search ends at the best recall if and only if some best grid point is not undercut later in the grid |
| ThresholdTuning.FewSamplesTuneBest | backend/app/ml/ood.py:169-189 | with at most 10 000 out-of-distribution samples the chosen thresholds have the best recall and, among those, the least false rejection |
| ThresholdTuning.ManyRowsCanTuneWorse | backend/app/ml/ood.py:124-187 | for every larger size, validation rows on which the default target's search gives up recall |
| ThresholdTuning.TuningIsExact | backend/app/ml/ood.py:124-187 | the search is exact for all rows and targets if and only if at most 10 000 rows are out of distribution |
| ThresholdTuning.StoredKeepsTarget | backend/app/ml/ood.py:200-201 | rounded thresholds keep every target the tuned ones meet if and only if rounding has only loosened them |
| ThresholdTuning.StoredCanMissTarget | backend/app/ml/ood.py:200-201 | tuning data that the tuned thresholds accept in full and the stored ones reject in full |
| ThresholdTuning.NothingFeasible | backend/app/ml/ood.py:182-187 | without a feasible point the search reports its start |
| AlphaSearch.ScanAlphas | backend/app/ml/fusion.py:120-150 | the loop records every candidate and performs the search |
| AlphaSearch.SearchAlpha | backend/app/ml/fusion.py:109-168 | completes exactly on the grids that hold the three named weights, and reports the outcome and the first candidate of each |
| AlphaSearch.BaselinesExactly | backend/app/ml/fusion.py:120-155 | those are the odd grids from 3 and the even grids from 528 weights |
| IsolationTree.PathLengthSingleTree | backend/app/ml/anomaly.py:163-183 | the array walk terminates in a leaf after at most (nodes - 1) / 2 steps with the encoded tree's path length |
| IsolationTree.EncodingIsValid | backend/app/ml/anomaly.py:138-149 | the preorder arrays of every tree are such an encoding |
| IsolationTree.EncodeDecode | backend/app/ml/anomaly.py:138-149 | decoding them gives the tree back |
| IsolationTree.ScoreSamples | backend/app/ml/anomaly.py:185-207 | every row gets the score defined by recursion on the trees; tables are brought into the order of the detector's features and fail exactly when a feature's column is missing |
| IsolationTree.EvaluateFlow | backend/app/ml/anomaly.py:209-221 | a named record is scored on the detector's features, 0 for absent ones, and is anomalous from the threshold on |
| IsolationTree.ScoreInUnit | backend/app/ml/anomaly.py:185-207 | scores lie in (0, 1] |
| IsolationTree.ScoreIsPower | backend/app/ml/anomaly.py:195-205 | the score is the power of 2 to minus the mean path length in units of the expected one, or of 1 if that is not positive |
| IsolationTree.ExpectedLengthScore | backend/app/ml/anomaly.py:195-205 | paths of expected length score the power of 2 to minus 1 |
| IsolationTree.ExpectedLengths | backend/app/ml/anomaly.py:95-102 | the expected length of 1, 2 and 3 samples and its increments from there |
| IsolationTree.ShorterPathsScoreHigher | backend/app/ml/anomaly.py:185-207 | a sample scores higher than another if and only if its paths are shorter in total |
| IsolationTree.LoadedDetectorIs | backend/app/ml/anomaly.py:238-272 | loading restores everything but the feature list, which is the given or the canonical schema's |
| IsolationTree.LoadDefaults | backend/app/ml/anomaly.py:264-271 | what missing entries of a stored form load as, and that the threshold may not be missing |
| IsolationTree.ReloadReadsAlike | backend/app/ml/anomaly.py:258-272 | a reloaded detector reads every named record as before if and only if its own feature list is handed over, or none is and it was canonical |
| IsolationTree.StoredDetectorScoresAlike | backend/app/ml/anomaly.py:238-272 | a reloaded detector scores plain rows as before, and tables if its features are restored |
| IsolationTree.ReloadScoresAlike | backend/app/ml/anomaly.py:258-272 | all detectors with a feature list score every named record as before if and only if the list they are loaded with begins with it |
| IsolationTree.ReloadCanScoreDifferently | backend/app/ml/anomaly.py:258-267 | a two-feature detector and a record that is scored otherwise after loading without the schema |

## Left out

- Drift.CompareSnapshots: lower-casing of gateway identities covers ASCII and the Kelvin sign, not the rest of Unicode; entry descriptions are left out; structures that the parser does not produce (missing keys) are not compared.
- Parser.Parse: `int()` and stripping cover ASCII digits and white space; messages and line numbers of errors are left out; JSON serialization and SHA-256 together are one given function.
- Inventory.InventoryService.ImportSnapshot: identifiers are arguments (a taken one is an error) and clock times, scope and source columns are left out, because nothing depends on them.
- Fusion.ClassifyFlow: SHAP explanations, the anomaly score and the Jensen-Shannon divergence are left out; the two branches' rows and the entropy are inputs; a failure inside the sequence branch appears as an absent row.
- Fusion.CalibrateKeepsArgMax: logarithm and exponential appear only as one strictly increasing positive map above the clip.
- FlowFeatures.FlowOf: NaN and infinite values do not exist among reals; sorting is left out because accepted packets are in order already.
- Calibration.ComputeEce: confidences and accuracies per sample are inputs; the separate list of bin centres is left out.
- ThresholdTuning.TuneThresholds: AUROC and AUPR are left out; the entropy of a row is a given function.
- ThresholdTuning.TuningIsExact: of the entropy it takes for granted that rows with largest probability one half reach every value from 1.1 to 2.2 bits.
- AlphaSearch.SearchAlpha: the two measures are a given function of the weight, which `ValidationRows.Evaluate` fills in; the result is returned and not written to the configuration object.
- ValidationRows.RowsCanMislead: of the negative logarithm it uses two decreases and a bound; log loss is not modelled as failing.
- LeakageAudit.Audit: the split counts and class distribution of the report are left out, because they only restate the input.
- Splitter.Partition: sessions are values with an id and a class; the fallbacks for where an id is found are left out.
- IsolationTree.EvaluateFlow: the z-scores reported beside the decision and the rounding of the reported score are left out.
- IsolationTree.EncodingIsValid: fitting the forest is library code; only the array layout it hands over is modelled.
- Rounding of floats throughout: all numbers are exact.
- Other tabular features (sizes, rates, ratios, moments, percentiles), temperature fitting, threshold tuning of the anomaly detector: library arithmetic.
- X.509 certificates, list and summary queries other than the baseline lookup, concurrent interleavings of service calls.
- The API, lab control, discovery and AI analyst parts of the repository.

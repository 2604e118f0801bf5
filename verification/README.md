# Verified models of the API key layer, the font rewriting and two repository tools

Four parts of the repository are modelled and proved here.

1. **Creating and reading API keys** (`backend/ent/apikey_create.go`, `backend/ent/apikey.go`).
   A bulk save builds one mutator per builder, wraps it in hooks and lets each mutator call
   the next; the last one inserts all rows. `BulkSave` and `BulkCreate` run that chain on
   builder, mutation, spec and node objects. `MutatorChain` gives its meaning as the run of a
   flat list of frames, `BulkLaws` reads that run builder by builder, and `SingleSave` compares
   it to saving one builder alone. `RowMapping` is the writer and reader pair: `createSpec` on
   one side, `scanValues` and `assignValues` on the other. `CreateChecks` is `defaults` and `check`.
   `BulkContract` says what a caller of a bulk create can rely on, from the options its builders
   hold to the rows and nodes.
2. **Eager loading** (`backend/ent/apikey_query.go`). `EagerLoad` holds the hash joins on node
   objects, `JoinLaws` their nested-loop meaning, `SqlAll` a whole query and `QueryLaws` what a
   caller can rely on afterwards; `QueryContract` says it over the rows' and neighbors' own fields.
3. **Unicode ranges** (`frontend/postcss.config.js`). `UnicodeRange` parses, filters and prints
   the ranges, a subset of the syntax in section 7 of CSS Syntax Module Level 3; `RangeSyntax`
   says what every spelling of a range means, digit by digit; `FontFace` is the hook that
   rewrites a rule's declarations in place.
4. **Two tools** (`tools/check_pnpm_audit_exceptions.py`, `tools/check_changed.py`).
   `ExceptionFile`, `AuditReport`, `AuditVerdict` and `VerdictLaws` cover the audit check from
   its two input files to its exit code, and `ExceptionSyntax` and `AuditContract` say it over the
   characters of the one and the values of the other. `PushBase` picks the commit a push is
   compared with, and `PushContract` says which one over the words of its lines.

Loops and objects that change are methods and classes, each proved against a function or a
predicate; the lemmas state what those mean. Databases, Git, JSON text, dates, `str`, `lower`,
default values, validators and the Emoji_Presentation property are parameters. What little is
assumed of them is a named predicate: `RowMapping.Inverse`, `AuditReport.Faithful`,
`PushBase.Faithful`, `SingleSave.Identifies`. `PushBase.BestExists` shows that what is assumed
of `merge-base` can be met.

## What turned out to differ from a first reading

- Bulk save checks the mutation a builder held and then saves and marks the one its hooks hand
  on, while the single save copies what is handed on into the builder's own mutation, checks
  that, and marks its own. `SingleSave.BulkOfOneAgrees` says exactly when the two run alike,
  `SingleSave.BulkOfOneMarks` exactly when they also mark the same mutation, and
  `SingleSave.AloneOrInBulk` compares what they leave on the heap. `BulkLaws.SavesOnlyChecked` is
  the exact condition, to be tested before the save, under which bulk inserts nothing that check
  would refuse; `BulkLaws.UncheckedMutationIsSaved` is an input where it does.
- Bulk save is not all-or-nothing when a hook refuses after the inner call: rows exist and inner
  mutations are marked done although an error is returned. `MutatorChain.AllOrNothingExactly`
  and `BulkLaws.BulkSaveMeans` say that this is the only exception, and
  `BulkLaws.LateRefusalIsNotAtomic` is an input.
- One-to-many loading keeps one node per identity, so it is the nested-loop join exactly under
  the condition of `JoinLaws.ToManyIsNestedLoop`; `JoinLaws.RepeatedIdLosesLogs` is a failing input.
- An item of the exception list cannot be without keys: the line is stripped first, so a dash
  with nothing behind it is no item line, and an item line without a colon is refused.
- Printing and parsing ranges is lossless exactly for non-empty lists without negative bounds,
  which is every list the parser can produce (`UnicodeRange.ParseFormat`, `ParsedIsUnsigned`).
- The audit check judges only the first severity it sees for a key. `VerdictLaws.StrictExactly`
  gives the exact condition under which that is harmless, `VerdictLaws.OnlyFirstSeverityIsJudged`
  an input where it is not.

## Model

| member | source | states |
|---|---|---|
| `MutatorChain.TraceNested` | backend/ent/apikey_create.go:2280-2322 | hooks are entered in order, the insert happens innermost and once iff nothing stops the descent and with every spec, and the same hooks are left in reverse order |
| `MutatorChain.RunError` | backend/ent/apikey_create.go:2280-2322 | the error of a run: what stops the descent, else what the insert reports, else the innermost hook that fails on the way out |
| `MutatorChain.RunDone` | backend/ent/apikey_create.go:2303-2313 | a builder ends up done iff the insert succeeded and no hook inside it failed on the way out |
| `MutatorChain.AllOrNothingExactly` | backend/ent/apikey_create.go:2269-2326 | a save is all-or-nothing iff it is not one whose insert succeeds and some hook then refuses |
| `MutatorChain.PassThroughSave` | backend/ent/apikey_create.go:2269-2326 | with hooks that only wrap: all-or-nothing, and success iff every check passes and the insert succeeds |
| `BulkSave.Saving.Mutate` | backend/ent/apikey_create.go:2280-2316 | mutator i from hook h on does the run of its plan: error, trace, database calls, the nodes of the builders that are done, and which mutations are marked; slots of earlier builders stay as they are |
| `BulkCreate.APIKeyCreateBulk.Save` | backend/ent/apikey_create.go:2269-2326 | a stored error or no builders: no call and nothing touched; without a stored error every held mutation has its options completed by defaults and no other has changed; the whole outcome of the run: error or nodes, trace, at most one insert with all specs, marks and node contents |
| `BulkCreate.APIKeyUpsertBulk.Exec` | backend/ent/apikey_create.go:3062-3075 | saves exactly when the bulk has conflict options, no builder has any and no error is stored; otherwise touches nothing and reports the first offending builder |
| `BulkContract.Exec` | backend/ent/apikey_create.go:2338-2341 | a bulk create whose hooks only wrap: the database is asked, once and with the specs of the completed options in order, iff all of them pass check; success iff the insert succeeds too, else the first failing check or the database's error; on success every node, done flag and id pointer, on an error none of them moved |
| `BulkContract.CompleteBuildersAreAccepted` | backend/ent/apikey_create.go:539-740 | builders that set a user, a key and a name, with defaults and validators that cooperate, are all accepted |
| `BulkLaws.PlanMeaning` | backend/ent/apikey_create.go:2280-2322 | the descent reaches the insert iff no hook refuses first and every builder's own mutation passes; spec k is made of what builder k's hooks hand on |
| `BulkLaws.HooksEnteredInOrder` | backend/ent/apikey_create.go:2280-2322 | the hooks entered are (0, 0), (0, 1), ... of builder 0, then builder 1's: all of them when the insert is reached, else the first so many |
| `BulkLaws.BulkSaveMeans` | backend/ent/apikey_create.go:2269-2326 | for any builders and any hooks of the modelled kinds: when the database is asked, with which specs, when the save succeeds, that then all are done and marked, and when it is all-or-nothing |
| `BulkLaws.LateRefusalIsNotAtomic` | backend/ent/apikey_create.go:2269-2326 | an input where a save is not all-or-nothing: a builder whose only hook refuses after the inner call; the row exists, its mutation is marked, and an error is returned |
| `BulkLaws.PointsToOwnNode` | backend/ent/apikey_create.go:2306-2306 | after success a saved mutation refers to node k iff no earlier builder saved the same mutation |
| `BulkLaws.PassThroughBulk` | backend/ent/apikey_create.go:2269-2326 | hooks that only wrap, builders possibly repeated: spec k is that of builder k's mutation, success iff all checks and the insert pass, every mutation marked on success and none on error |
| `BulkLaws.NodeOfBuilder` | backend/ent/apikey_create.go:2269-2326 | whatever the hooks, a successful save returns at position k the node of the mutation builder k saved, with the identity of row k, and that mutation is done |
| `BulkLaws.WrappedSave` | backend/ent/apikey_create.go:2269-2326 | on the heap, with hooks that only wrap: one insert with every spec in order iff all checks pass, none otherwise; success iff the insert succeeds too |
| `BulkLaws.WrappedSuccess` | backend/ent/apikey_create.go:2306-2312 | on success node k and the mutation of builder k are as createSpec and the insert left them, and the mutation refers to node k unless an earlier builder shares it |
| `BulkLaws.WrappedFailure` | backend/ent/apikey_create.go:2303-2325 | on an error no mutation is newly done and no id pointer has moved |
| `BulkLaws.FailureMarks` | backend/ent/apikey_create.go:2269-2326 | whatever the hooks, a save that fails marks some mutation iff its insert was made and succeeded and a hook refused afterwards; otherwise all marks stay as they were |
| `BulkLaws.OwnOfDistinct` | backend/ent/apikey_create.go:2285-2290 | a builder listed once is checked on the mutation it held at the start |
| `BulkLaws.LastHandsOn` | backend/ent/apikey_create.go:2285-2316 | a builder saves what its last hook that hands on a mutation hands on |
| `BulkLaws.SavesOnlyChecked` | backend/ent/apikey_create.go:2285-2290 | a save that reaches the insert inserts only options that pass check iff every mutation that is the last handed on to some builder passes check |
| `BulkLaws.UncheckedMutationIsSaved` | backend/ent/apikey_create.go:2285-2290 | an input, under the rules of check, where options with an empty name that a validator refuses are inserted |
| `BulkLaws.DefaultErrorStopsBulk` | backend/ent/apikey_create.go:2278-2287 | for any builders and hooks, a builder whose defaults failed stops the save although bulk drops that error: nothing is inserted and nothing marked |
| `BulkLaws.DefaultErrorOutcome` | backend/ent/apikey_create.go:2269-2326 | on the heap: such a save returns an error, calls no database, and leaves every mutation's done flag and id pointer as they were |
| `SingleSave.Save` | backend/ent/apikey_create.go:509-514 | an error of defaults is returned without asking the database; otherwise the run of the single plan, the one database call, and the node and marks it leaves |
| `SingleSave.BulkOfOneAgrees` | backend/ent/apikey_create.go:509-514 | a bulk of one and a single save give the same error, trace and database call iff a hook refuses first or check says the same of the held and of the handed mutation; they always plan the same spec |
| `SingleSave.BulkOfOneMarks` | backend/ent/apikey_create.go:742-758 | when the runs agree, the builder's own mutation is marked alike iff nothing is marked or nothing else was handed on |
| `SingleSave.AloneOrInBulk` | backend/ent/apikey_create.go:2269-2326 | on the heap, when the checks agree: same success or error and trace; where the insert succeeds, also before a late refusal, nodes with the same contents and identity, and alone the own mutation is marked, in bulk the handed one; otherwise nothing is marked |
| `SingleSave.BulkOfOneSameMutation` | backend/ent/apikey_create.go:2269-2326 | without handing on, both follow the same plan and mark the same mutation |
| `SingleSave.DefaultErrorsDiffer` | backend/ent/apikey_create.go:510-512 | when defaults fails both fail, with different errors |
| `SingleSave.WrappedSingle` | backend/ent/apikey_create.go:509-514 | a single create whose hooks only wrap: asked once with the spec of the options iff they pass check, error of check or of the database, node with its identity, mark and id pointer |
| `CreateChecks.FillSpec` | backend/ent/apikey_create.go:539-626 | defaults keeps what was set, adds only default values, completes its list or stops at a column that stays unset |
| `CreateChecks.FillIdempotent` | backend/ent/apikey_create.go:539-626 | running defaults twice is running it once |
| `CreateChecks.CheckMeans` | backend/ent/apikey_create.go:629-740 | check passes iff the user, the key, the name and every defaulted column are set and the eight validated columns pass where they are set |
| `CreateChecks.CompletedPasses` | backend/ent/apikey_create.go:539-740 | options that set the user, the key and the name, with all defaults initialised and all validators passing, are accepted after defaults |
| `CreateChecks.MissingEdgeUnreachable` | backend/ent/apikey_create.go:629-740 | the final edge test of check can never be the one that fails |
| `CreateChecks.DroppedDefaultErrorIsCaught` | backend/ent/apikey_create.go:539-740 | options left by a failed defaults never pass check |
| `CreateChecks.AfterDefaults` | backend/ent/apikey_create.go:539-740 | after defaults, check can only miss the user, the key or the name |
| `RowMapping.CreateSpec` | backend/ent/apikey_create.go:760-974 | the new node and the spec hold exactly the options that are set, edges included |
| `RowMapping.SpecEdgesAre` | backend/ent/apikey_create.go:889-973 | the spec has exactly the edges that are set, each once and in order, one-to-many edges with exactly their identities |
| `RowMapping.StoreHolds` | backend/ent/apikey_create.go:760-974 | the stored row holds each option in its own column, foreign keys from the edges, NULL elsewhere |
| `RowMapping.ScanValues` | backend/ent/apikey.go:167-188 | one destination per column, of the column's kind |
| `RowMapping.NeverUnexpected` | backend/ent/apikey.go:192-429 | reading any row never fails with an unexpected type |
| `RowMapping.AssignValues` | backend/ent/apikey.go:192-429 | too few values are refused with nothing changed; otherwise the columns are assigned in order up to the first error |
| `RowMapping.OneColumn` | backend/ent/apikey.go:192-429 | a table column fails iff its cell has another type or is text that is no JSON; otherwise its field becomes what the cell says, NULL and empty JSON saying nothing, and no other field changes |
| `RowMapping.SelectedAreKept` | backend/ent/apikey.go:422-435 | afterwards every other selected name gives the cell that was read for it last, and no further name gives one |
| `RowMapping.RowRoundTrip` | backend/ent/apikey.go:167-429 | storing what createSpec emits and reading any list of columns rebuilds exactly those fields of the node createSpec returned; unset nullable fields stay nil |
| `EagerLoad.LoadToOne` | backend/ent/apikey_query.go:584-644 | the hash join equals the nested-loop join on the heap, or fails with the first unusable neighbor's error |
| `EagerLoad.LoadToMany` | backend/ent/apikey_query.go:645-707 | neighbors go to the last node with their key, in order, or loading fails with the first unusable one |
| `JoinLaws.FirstKeysSpec` | backend/ent/apikey_query.go:585-593 | the ids asked for are exactly the non-nil keys, without repetition, in order of first occurrence |
| `JoinLaws.ToOneKeepsLast` | backend/ent/apikey_query.go:602-610 | a node ends with the last neighbor that has its key; a nil or unmatched key leaves it as it was |
| `JoinLaws.LogsAreMatches` | backend/ent/apikey_query.go:665-675 | a node's usage logs are exactly the neighbors with its key, in order |
| `JoinLaws.CompositesAreMatches` | backend/ent/apikey_query.go:698-705 | the same for composite groups |
| `JoinLaws.ToManyIsNestedLoop` | backend/ent/apikey_query.go:645-707 | every node gets all its neighbors iff no neighbor belongs to an identity that a later node repeats |
| `JoinLaws.RepeatedIdLosesLogs` | backend/ent/apikey_query.go:645-654 | an input where a node misses a log of its own |
| `SqlAll.QuerySpec` | backend/ent/apikey_query.go:753-778 | the selected columns: the identity first, the other selected fields in order, then the foreign keys that are needed and missing |
| `SqlAll.SqlAll` | backend/ent/apikey_query.go:516-582 | new nodes holding the rows' entities and the loaded edges, or the first error and no node |
| `QueryContract.LoadedEdges` | backend/ent/apikey_query.go:516-739 | over plain fields: each node has the last user, group and team with its key, and all usage logs and composite groups whose API key it is, in order, from a query for all identities with the key back selected; nothing where a later row has its identity |
| `QueryContract.LoadingReports` | backend/ent/apikey_query.go:549-739 | success iff every answer is fine; else the error of the first edge in order, from its query or from its first neighbor whose key is nil or no row's |
| `QueryContract.SelectedColumnsAre` | backend/ent/apikey_query.go:753-778 | the columns are the identity, the other selected fields as selected, then each missing foreign key once, in order |
| `QueryContract.CreatedRowsComeBack` | backend/ent/apikey_query.go:516-548 | rows that creates wrote are all read, and the nodes hold what was created in every column asked for, which is every column without a selection; other fields are nil or zero |
| `QueryLaws.LoadedEdgesAreJoins` | backend/ent/apikey_query.go:516-582 | after success every edge of every node is the join over the returned neighbors, and unrequested edges are empty |
| `QueryLaws.DistinctRowsGetAll` | backend/ent/apikey_query.go:561-574 | with distinct identities every node's lists are all returned neighbors with its identity, in order |
| `QueryLaws.LoadConserves` | backend/ent/apikey_query.go:561-574 | conservation: after a load the nodes' lists together hold every returned usage log and composite group exactly as often as it was returned, even with repeated identities |
| `QueryLaws.LoadSucceeds` | backend/ent/apikey_query.go:549-580 | loading succeeds iff each requested query succeeds and returns only neighbors that belong to some node |
| `QueryLaws.AccessorsReport` | backend/ent/apikey.go:117-163 | an accessor says "not loaded" iff its edge was not requested; a single edge says "not found" iff no returned neighbor has the node's key |
| `QueryLaws.QueryColumnsExact` | backend/ent/apikey_query.go:753-778 | the columns are exactly the identity, the selected fields and the foreign keys of the requested edges; all columns without a selection |
| `QueryLaws.ProjectionKeepsEdges` | backend/ent/apikey_query.go:516-582 | a projected query loads the same edges as the unprojected one, or fails with the same error |
| `QueryLaws.ChildProjectionKeepsKeys` | backend/ent/apikey_query.go:655-690 | selecting fields of either child query does not change what its loader is given |
| `QueryLaws.FullProjectionKeepsEdges` | backend/ent/apikey_query.go:516-778 | selecting fewer columns of the API keys and fewer fields of both child queries loads the same edges or fails with the same error |
| `UnicodeRange.ParseFormat` | frontend/postcss.config.js:29-41 | parsing what was printed gives the list back iff it is not empty and no bound is negative |
| `UnicodeRange.FormatInjective` | frontend/postcss.config.js:36-41 | on such lists printing is injective |
| `UnicodeRange.ParsedIsUnsigned` | frontend/postcss.config.js:29-33 | the parser never gives the empty list or a negative bound |
| `UnicodeRange.KeptSpec` | frontend/postcss.config.js:50-65 | for any input: the kept runs expand to the non-emoji points in order and with multiplicity, are the only maximal and a shortest such list, and keeping again changes nothing |
| `UnicodeRange.RemoveEmojiCodePoints` | frontend/postcss.config.js:50-65 | returns new pairs with the kept runs, changes no input pair, and throws iff a visited number is no code point, at the first such number |
| `UnicodeRange.RewriteCoverage` | frontend/postcss.config.js:85-94 | the new text covers exactly the old code points without emoji; it vanishes iff nothing remains; rewriting it again leaves it alone |
| `UnicodeRange.RewriteKeepsCodePoints` | frontend/postcss.config.js:85-94 | a text that does not make the hook throw does not do so once rewritten |
| `RangeSyntax.NumeralReads` | frontend/postcss.config.js:32-32 | a numeral of digits in either case reads as their positional sum in base 16 |
| `RangeSyntax.NumeralPrefixReads` | frontend/postcss.config.js:32-32 | so does one followed by anything that starts with no digit |
| `RangeSyntax.MarkedNumeralReads` | frontend/postcss.config.js:32-32 | blanks, one sign and one `0x` in front of a numeral are skipped, and a minus negates it |
| `RangeSyntax.SpelledParses` | frontend/postcss.config.js:29-33 | a list of ranges in any spelling, with either prefix or none, digits of either case, leading zeros and white space around the entries, parses to the intervals it denotes |
| `RangeSyntax.SpelledTextRewritten` | frontend/postcss.config.js:50-94 | of a spelled text: the hook throws iff an entry reaches past 0x10FFFF; nothing is left iff all covered code points are emoji; else the new text covers exactly the others |
| `RangeSyntax.PrintedForm` | frontend/postcss.config.js:36-41 | the printed text is the spelling with `U+`, lower-case digits and no leading zeros, a single code point alone and anything else as a range |
| `RangeSyntax.ReplacementIsPrinted` | frontend/postcss.config.js:85-94 | every replacement is such a text |
| `FontFace.AdjustDeclaration` | frontend/postcss.config.js:85-94 | one declaration is replaced, left because nothing remains, or makes the hook throw with the first number that is no code point, exactly by its text |
| `FontFace.AdjustFontFace` | frontend/postcss.config.js:73-97 | every range declaration of a matching rule is rewritten in place up to the first that throws, the later ones are untouched; the rule is removed iff one that was visited keeps nothing; other rules stay as they are |
| `FontFace.NotoSourceIs` | frontend/postcss.config.js:17-17 | a path matches iff the two directory names follow each other somewhere in it, each with a separator of either kind behind it |
| `FontFace.RuleMeans` | frontend/postcss.config.js:73-97 | the hook stops at the first range declaration that throws; each range declaration before it gets its replacement, every other text stays; the rule goes iff one before it keeps nothing |
| `FontFace.SecondRunChangesNothing` | frontend/postcss.config.js:73-97 | run again on what a first run left, the hook changes no text, ends or throws at the same declaration and removes the rule in the same cases |
| `ExceptionFile.ItemNeverEmpty` | tools/check_pnpm_audit_exceptions.py:31-43 | an item line always has text after its dash |
| `ExceptionFile.ParseExceptions` | tools/check_pnpm_audit_exceptions.py:25-50 | the records are the grouping of the lines; fails iff an item line has no colon, at the first such line |
| `ExceptionFile.GroupedUnique` | tools/check_pnpm_audit_exceptions.py:25-50 | the grouping is unique: every key line belongs to the latest item, a later line wins |
| `ExceptionFile.IgnoredLinesSayNothing` | tools/check_pnpm_audit_exceptions.py:31-34 | blank lines, comments and headings change nothing |
| `ExceptionFile.RenderReadBack` | tools/check_pnpm_audit_exceptions.py:14-50 | rendering any list of records, plain or in either quotes, and reading it gives the list back |
| `ExceptionFile.RenderedFileLines` | tools/check_pnpm_audit_exceptions.py:28-29 | the rendered text splits into the rendered lines |
| `ExceptionSyntax.LineMeans` | tools/check_pnpm_audit_exceptions.py:14-47 | what a line says by its characters: item, key line, refused or nothing; the key is before the first colon, the value behind it, both trimmed, the value without its quotes |
| `ExceptionSyntax.FailsIff` | tools/check_pnpm_audit_exceptions.py:35-43 | reading fails iff some stripped line starts with a dash and a space and has no colon |
| `ExceptionSyntax.GroupedMeans` | tools/check_pnpm_audit_exceptions.py:25-50 | one record for each item line; each key has the value of the last line of its item that gives it |
| `AuditReport.IterVulns` | tools/check_pnpm_audit_exceptions.py:66-113 | the findings are those of the advisories, then those of each vulnerability's sources, in order |
| `AuditReport.FindingsAre` | tools/check_pnpm_audit_exceptions.py:66-113 | a finding is listed iff some advisory or some source of some vulnerability gives it |
| `AuditReport.EveryRecordYields` | tools/check_pnpm_audit_exceptions.py:116-150 | when records pass, every advisory yields its finding and every vulnerability one for each source, at least one |
| `AuditReport.HighFindings` | tools/check_pnpm_audit_exceptions.py:144-148 | some finding is high iff some record is |
| `AuditReport.ValidateAudit` | tools/check_pnpm_audit_exceptions.py:116-150 | accepts exactly the complete reports |
| `AuditContract.CompleteMeans` | tools/check_pnpm_audit_exceptions.py:116-150 | the accepted reports in terms of their own values: sections, five counts, names, levels, identifiers, and counts and exit code that agree with the records |
| `AuditContract.PickMeans` | tools/check_pnpm_audit_exceptions.py:53-63 | the identifier is the first true value of the seven places in order, or the last of them; raises iff it gets to a true `cves` that is no list and no text |
| `AuditContract.SourceMeans` | tools/check_pnpm_audit_exceptions.py:89-106 | a source names itself, or the first true of five fields does |
| `AuditContract.SourcesYield` | tools/check_pnpm_audit_exceptions.py:83-113 | any vulnerability, accepted or not, yields one finding for each true source it lists, in order, and none for the others |
| `AuditContract.FindingsInOrder` | tools/check_pnpm_audit_exceptions.py:66-113 | the findings of an accepted report, record by record and in order, with name, level and identifier |
| `AuditVerdict.RawAndNormalizedAgree` | tools/check_pnpm_audit_exceptions.py:255-256 | in accepted reports the raw and the normalised severity filter select the same findings |
| `AuditVerdict.ReadException` | tools/check_pnpm_audit_exceptions.py:218-235 | an exception passes iff every required field is there, its date is valid and neither part of its key is blank; a missing field is reported first, then a bad date |
| `AuditVerdict.BuildIndex` | tools/check_pnpm_audit_exceptions.py:217-246 | the index gives each key the excuse of the first sound exception with it; every other exception is reported once, in order |
| `AuditVerdict.MatchFindings` | tools/check_pnpm_audit_exceptions.py:253-280 | missing and expired are exactly those of the judged findings, in order; errors are the unnamed and the mismatching ones |
| `AuditVerdict.JudgedStandForAll` | tools/check_pnpm_audit_exceptions.py:253-267 | nothing is dropped but repeats: each considered key has one judged finding, the first |
| `AuditVerdict.ClearIsVerdict` | tools/check_pnpm_audit_exceptions.py:253-304 | the matching finds nothing wrong iff every considered finding is covered at the first severity of its key |
| `AuditVerdict.Decide` | tools/check_pnpm_audit_exceptions.py:213-304 | exit code 0 iff the declarative verdict is good |
| `AuditVerdict.CheckAudit` | tools/check_pnpm_audit_exceptions.py:191-304 | exit code 0 iff the report is complete, the list can be read and the verdict on its grouping is good |
| `AuditContract.KeysMeet` | tools/check_pnpm_audit_exceptions.py:168-182 | an exception is for a finding iff the trimmed names are equal and the trimmed advisories are equal in lower case |
| `AuditContract.VerdictMeans` | tools/check_pnpm_audit_exceptions.py:213-304 | the verdict over plain fields: every exception has its five fields, a date and a key of its own, and the first high or critical finding for each package and advisory has an exception that is valid and not for another level |
| `AuditContract.CaseDoesNotMatter` | tools/check_pnpm_audit_exceptions.py:175-182 | replacing advisories of findings and exceptions by texts with the same lower case leaves the verdict alone |
| `VerdictLaws.EarlierDaysPass` | tools/check_pnpm_audit_exceptions.py:248-280 | a verdict that is good on a day is good on every earlier day |
| `VerdictLaws.EarlierRunsPass` | tools/check_pnpm_audit_exceptions.py:191-304 | the program that exits cleanly on a day does so on every earlier day with the same inputs |
| `VerdictLaws.MoreFindingsNeverHelp` | tools/check_pnpm_audit_exceptions.py:253-280 | appending findings never turns failure into success |
| `VerdictLaws.OrderDoesNotMatter` | tools/check_pnpm_audit_exceptions.py:253-280 | when each key has one severity the verdict depends only on the set of findings |
| `VerdictLaws.PermutingDoesNotMatter` | tools/check_pnpm_audit_exceptions.py:253-280 | in particular it is invariant under permutation |
| `VerdictLaws.StrictExactly` | tools/check_pnpm_audit_exceptions.py:264-276 | every finding is covered at its own severity iff the verdict is good and each finding whose exception names a severity has the first severity of its key |
| `VerdictLaws.OnlyFirstSeverityIsJudged` | tools/check_pnpm_audit_exceptions.py:264-276 | an input whose verdict depends on the order of two findings |
| `VerdictLaws.CleanExitExcusesEveryRecord` | tools/check_pnpm_audit_exceptions.py:191-304 | after exit code 0 every high or critical record of the report has a valid exception in the file |
| `PushBase.BestExists` | tools/check_changed.py:48-50 | in a history without circles, commits with a common ancestor have a best one |
| `PushBase.DefaultBase` | tools/check_changed.py:41-52 | asks merge-base about the first name that resolves and no other; the empty tree when none does |
| `PushBase.DefaultBaseMeans` | tools/check_changed.py:41-52 | the empty tree iff no name resolves; otherwise a best common ancestor with the first that does, in the revision's own history, and an error iff they share none |
| `PushBase.PushBase` | tools/check_changed.py:55-81 | the answer for all references |
| `PushContract.PushMeans` | tools/check_changed.py:55-81 | over the words of the lines: no checks iff every line has four words and a local commit of forty zeros; a base iff every line has four words and every pushed reference a base of its own, and then the empty tree if one needs it, else what merge-base answers for all of them in order |
| `PushContract.BaseIsBehind` | tools/check_changed.py:69-81 | a commit that is answered lies in the history of each known remote commit, and where none is known in that of the local commit and of the first default name that resolves |
| `PushContract.OnePush` | tools/check_changed.py:71-72 | a push of one reference whose remote commit is known is compared with just that |
| `PushBase.AnswerMeans` | tools/check_changed.py:55-81 | no checks iff only deletions; the empty tree iff some reference needs it; an error iff a line or a base is missing or the bases share no history; otherwise a best common ancestor of all own bases |
| `PushBase.NewCommitsAreOutside` | tools/check_changed.py:55-81 | a commit that a reference newly pushes is outside the history of the base |
| `PushBase.OldestOwnBase` | tools/check_changed.py:76-81 | when one own base is in the history of all, it is the answer |
| `PushBase.DeletionsChangeNothing` | tools/check_changed.py:69-71 | deleted references change nothing |

## Left out

- BulkSave.Saving.Mutate: the shared `specs` and `nodes` slices are sequences that the object's methods reassign by index, not arrays; two saves running at once are not modelled.
- BulkLaws.BulkSaveMeans: a hook that sets fields on the mutation it is given, in place, is not modelled; hooks wrap, refuse before or after, or hand on another mutation. The one hook the repository registers for API keys, the soft-delete mixin's, passes creates through.
- BulkLaws.BulkSaveMeans: the conflict options `createSpec` also puts on each spec are not modelled; a batch insert uses those of the bulk.
- BulkSave.Saving.Mutate: hooks call the inner mutator once or not at all; a hook that calls it twice, swallows its error, or passes a mutation of another type is not modelled, nor are contexts.
- BulkCreate.APIKeyCreateBulk.Save: which mutation a builder holds when Save returns is not stated; the plan says which one it held when its turn came.
- BulkCreate.APIKeyUpsertBulk.Exec: `ExecX` saves without the test and is not modelled.
- SingleSave.Save: a single insert is taken to be a batch of one spec that reports an identity; where it reports none the original panics. `BulkOfOneAgrees` compares saves whose conflict options are equal, which includes none. Uninitialised hooks are not modelled.
- RowMapping.RowRoundTrip: marshalling JSON and reading it back is assumed to be lossless, and times and floats are stored exactly; database precision is not modelled.
- RowMapping.AssignValues: what the receiver holds after an error in the middle is not stated.
- EagerLoad.LoadToOne: the neighbor query is a parameter that answers with any list; SQL, interceptors, policies and traversal are not modelled.
- QueryLaws.LoadedEdgesAreJoins: named edges and modifiers of a query are not modelled, and `Clone` is not claimed to copy them.
- UnicodeRange.RemoveEmojiCodePoints: integers are exact where JavaScript rounds above 2^53; wildcard forms read as the source reads them, up to the first character that is no digit.
- FontFace.AdjustFontFace: the font-weight edit and the PostCSS traversal around the rule are not modelled; `source` is the file name, with the pattern as four substrings.
- ExceptionFile.ParseExceptions: reading and decoding the file is not modelled; the lines are those after universal newline translation.
- AuditReport.IterVulns: titles only serve messages and are not modelled; objects are lists of keys in order.
- AuditReport.ValidateAudit: which message is printed is not modelled; raising and returning an error both end in exit code 1.
- AuditVerdict.MatchFindings: the texts of messages are not modelled, only which findings and exceptions they are about.
- PushBase.PushBase: splitting a line into words is not modelled; `resolves` is membership in the available commits, so annotated tags as remote objects are not covered.
- The other ent entities repeat the same generated template and add no new property.
- Update, delete and upsert setters, panic variants, `String` and `Unwrap` forward to what is modelled or to library code that is not part of this model.
- SQL generation, drivers and `sqlgraph` internals are not part of this model; an insert stores what its spec holds.
- `plan`, `changed_files` and `run` of `tools/check_changed.py`, and the remaining tools and build configuration, are prefix tests, process calls and settings.

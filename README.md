# paintTracker core, modelled in Dafny

paintTracker is a small web application for hobbyists who paint miniatures. The
collection is a tree: an army holds squads and a squad holds minis. Each mini carries five
completion stages, in the fixed order assembled, primed, painted, based and photographed.
Each stage has a boolean flag and a timestamp that is set when the flag is on.

The project models the four pieces of the application that hold logic:

- **Progress** (`progress.dfy`). A mini's progress is the number of completed stages out
  of five, carried as the integer count `k` standing for `k / 5`. A mini is done when all
  five stages are complete. The done count counts done minis. The percent rounds a ratio
  the way `Math.round` does.
- **Validation** (`validation.dfy`). The request-body schemas are stated directly as the
  constraints they check and the value they yield. They cover the trimmed name of 1 to 120
  characters, the UUID parent ids (required on create, optional on update), the
  description of at most 3000 characters, the tag list (at most 30 tags of 1 to 60
  characters), the five-value stage enum and the toggle body. The two normalisers are
  `normalizeNullableText` and `normalizeNullableTags`.
- **Dashboard client** (`dashboard.dfy`). It models the tag-text parser `toTagArray`, the
  payload the mini form sends, and the squad, army and overall progress summaries. It
  also models the stage-toggle protocol as a class holding the client state: the tree,
  the set of pending `(mini, stage)` toggles and the error banner. A toggle is guarded
  against re-entry, applies an optimistic single-stage update, and either keeps it (and
  asks for a refresh) or rolls back to the snapshot and shows an error. The pending key
  is removed in both outcomes.
- **CSV export** (`export.dfy`). It models `csvEscape` and its read-back, the 21-column
  header, and the three nested loops that push one row per mini in army, squad, mini
  order. It also models the choice between CSV and JSON.

Supporting modules: `wrappers.dfy` (Option, Result), `types.dfy` (the tree's datatypes,
mirroring `src/lib/types.ts`) and `text.dfy`. The last one holds the JavaScript string
operations the code relies on: `trim`, `split` on one character, `join`, and the
`map(trim).filter(nonEmpty)` cleaning step.

How a stage toggle changes a mini (`src/components/dashboard-client.tsx:252-298`):

- Each toggle changes exactly one stage of the matching mini (lines 264-280).
- Turning a stage on always stamps it with the current time, even when it was already on.
  Turning it off clears the stamp. `Dashboard.WithStage` models that.
- One request is sent per toggle.

## Model

| member | source | states |
|---|---|---|
| `Types.StageIndex` | src/lib/progress.ts:1 | every stage has a position in the fixed list assembled, primed, painted, based, photographed |
| `Types.Flag` | src/lib/progress.ts:7 | `mini[stage]`: the flag of each of the five stages (the properties are proved of `Progress.MiniProgress` and `Types.StageIndex`) |
| `Types.Stamp` | src/components/dashboard-client.tsx:47-53 | the timestamp field paired with each stage, `assembledAt` for `assembled` and so on (`Dashboard.WithStage` and `Export.EntryFieldsStamps` state what uses it) |
| `Types.SquadMinis` | src/components/dashboard-client.tsx:82 | the minis of a squad list, squad by squad (its split law is `Types.SquadMinisAppend`) |
| `Types.ArmyMinis` | src/components/dashboard-client.tsx:119-121 | the minis of an army list, army by army (its split law is `Types.ArmyMinisAppend`) |
| `Types.SquadMinisAppend` | src/components/dashboard-client.tsx:82 | the minis of a squad list, squad by squad, split at any point into the minis of each part |
| `Types.ArmyMinisAppend` | src/components/dashboard-client.tsx:119-122 | the minis of an army list, army by army, split at any point into the minis of each part |
| `Text.Trim` | src/lib/validation.ts:61 | the trimmed string has no whitespace at either end and is no longer than the input |
| `Text.TrimCutsWhitespace` | src/lib/validation.ts:61 | trimming keeps one contiguous piece of the input and removes only whitespace around it |
| `Text.TrimOfTrimmed` | src/lib/validation.ts:61 | a string with no surrounding whitespace is left unchanged by trimming |
| `Text.TrimIdempotent` | src/lib/validation.ts:61 | trimming twice is trimming once |
| `Text.TrimAvoids` | src/components/dashboard-client.tsx:58 | trimming only removes characters: a character absent from the input is absent from the result |
| `Text.TrimLeadingWhitespace` | src/components/dashboard-client.tsx:58 | whitespace in front of a string does not survive trimming |
| `Text.TrimEmptyIff` | src/lib/validation.ts:61-62 | the trimmed string is empty exactly when every character is whitespace |
| `Text.Split` | src/components/dashboard-client.tsx:57 | splitting yields at least one piece and no piece contains the separator |
| `Text.JoinSplit` | src/components/dashboard-client.tsx:57 | joining the pieces of a split with the same separator restores the string |
| `Text.SplitJoin` | src/components/dashboard-client.tsx:467 | splitting a join of separator-free pieces gives the pieces back |
| `Text.SplitCount` | src/components/dashboard-client.tsx:57 | a split has one more piece than the string has separators |
| `Text.Join` | src/components/dashboard-client.tsx:467 | the items with the separator between each two; `[].join` is empty (`Text.JoinLength`, `Text.JoinSplit` and `Text.SplitJoin` state its properties) |
| `Text.JoinLength` | src/app/api/export/route.ts:75 | a join is as long as its items together plus one separator between each two |
| `Text.JoinAvoids` | src/app/api/export/route.ts:75 | a character in no item and not in the separator is not in the join |
| `Text.CleanItems` | src/lib/validation.ts:70-72 | trimming and dropping blanks leaves at most as many items, each non-empty and trimmed |
| `Text.CleanItemsAppend` | src/lib/validation.ts:70-72 | cleaning works item by item, so survivors keep their original relative order |
| `Text.CleanItemsSingle` | src/lib/validation.ts:70-72 | one item survives cleaning, trimmed, exactly when it is not blank |
| `Text.CleanItemsEmptyIff` | src/lib/validation.ts:70-74 | cleaning leaves nothing exactly when every item is blank after trimming |
| `Text.CleanItemsOfClean` | src/lib/validation.ts:70-72 | items that are already trimmed and non-empty pass through unchanged |
| `Text.CleanItemsIdempotent` | src/lib/validation.ts:70-72 | cleaning twice is cleaning once |
| `Progress.CountCompleted` | src/lib/progress.ts:6-9 | the running count grows by at most one per stage key |
| `Progress.MiniProgress` | src/lib/progress.ts:5-12 | progress is the number of true flags among the five, at most 5 (the ratio k/5) |
| `Progress.StageOrderIrrelevant` | src/lib/progress.ts:1-12 | counting over any ordering of the five stages gives the same progress |
| `Progress.StageKeysComplete` | src/lib/progress.ts:1 | the stage list has five entries, names every stage and repeats none |
| `Progress.ProgressExtremes` | src/lib/progress.ts:5-12 | progress is 5/5 exactly when every flag is true and 0 exactly when none is |
| `Progress.ProgressOnlyFlags` | src/lib/progress.ts:3-9 | two minis with the same five flags have the same progress, whatever else differs |
| `Progress.CountDone` | src/lib/progress.ts:15 | the running done count grows by at most one per mini |
| `Progress.IsDone` | src/lib/progress.ts:15 | a mini counts as done exactly when all five of its stage flags are set |
| `Progress.DoneCount` | src/lib/progress.ts:14-16 | the done count never exceeds the number of minis |
| `Progress.DoneCountAppend` | src/lib/progress.ts:14-16 | the done count of no minis is 0 and the count is additive over concatenation |
| `Progress.DoneCountExtremes` | src/lib/progress.ts:14-16 | the count is 0 exactly when no mini is done and the list length exactly when all are |
| `Progress.ToPercent` | src/lib/progress.ts:18-20 | the percent is within one half of 100·num/den, with an exact half rounded up |
| `Progress.PercentBounds` | src/lib/progress.ts:18-20 | a ratio between 0 and 1 gives a percent between 0 and 100 |
| `Progress.MiniPercent` | src/lib/progress.ts:18-20 | a mini's percent is exactly 20 times its number of completed stages, at most 100 |
| `Validation.ParseName` | src/lib/validation.ts:3-7 | a name is accepted exactly when its trimmed length is 1 to 120, and the accepted value is the trimmed string; each refusal says why |
| `Validation.IsUuid` | src/lib/validation.ts:19 | the UUID shape: 36 characters, hyphens at positions 8, 13, 18 and 23, hexadecimal digits elsewhere (`Validation.UuidExamples` shows it on concrete ids) |
| `Validation.UuidExamples` | src/lib/validation.ts:19 | a canonical UUID passes; the same digits without hyphens, or one digit short, do not |
| `Validation.ParseNameIdempotent` | src/lib/validation.ts:3-7 | an accepted name is accepted again unchanged |
| `Validation.ParseParentId` | src/lib/validation.ts:17-39 | a parent id passes exactly when it is a UUID, or it is missing on update |
| `Validation.ParseDescription` | src/lib/validation.ts:30 | a description passes when missing, null or a string of at most 3000 characters once trimmed, and is stored trimmed |
| `Validation.TrimEach` | src/lib/validation.ts:31 | every tag is trimmed, one result per tag, in order |
| `Validation.TagsWithinLimits` | src/lib/validation.ts:31 | the tag-list limits: at most 30 items, each 1 to 60 characters once trimmed (`Validation.ParsedTagsClean` states what an accepted list then satisfies) |
| `Validation.ParseTags` | src/lib/validation.ts:31 | tags pass when missing, null or at most 30 strings each 1 to 60 characters once trimmed, and are stored trimmed |
| `Validation.ParsedTagsClean` | src/lib/validation.ts:31 | accepted tags are at most 30, each non-empty, trimmed and at most 60 characters |
| `Validation.ParseArmyBody` | src/lib/validation.ts:9-15 | an army body is accepted exactly when its name is, with the trimmed name |
| `Validation.ParseSquadBody` | src/lib/validation.ts:17-25 | a squad body is accepted exactly when its name and its army id are |
| `Validation.ParseMiniBody` | src/lib/validation.ts:27-39 | a mini body is accepted exactly when name, squad id, description and tags all are, and yields each parsed field |
| `Validation.ParentIdOptionalOnUpdate` | src/lib/validation.ts:17-39 | a parent id must be a UUID on create and may be left out on update, for squads and minis |
| `Validation.ParseStage` | src/lib/validation.ts:41-47 | a stage string is accepted exactly when it is one of the five stage names |
| `Validation.ParseToggleBody` | src/lib/validation.ts:49-52 | a toggle body is accepted exactly when it has one of the five stage names and a boolean value |
| `Validation.ToggleBodyRoundTrip` | src/lib/validation.ts:41-52 | the body the client sends for any stage and value is accepted and gives back that stage and value |
| `Validation.NormalizeNullableText` | src/lib/validation.ts:56-63 | null for a non-string or a blank string, otherwise the trimmed, non-empty string |
| `Validation.NormalizeNullableTextIdempotent` | src/lib/validation.ts:56-63 | normalising a normalised text gives the same value |
| `Validation.NormalizeNullableTags` | src/lib/validation.ts:65-75 | null for a non-array or when every item is blank, otherwise the cleaned items, non-empty and no longer than the input |
| `Validation.NormalizeNullableTagsIdempotent` | src/lib/validation.ts:65-75 | normalising normalised tags gives the same value |
| `Dashboard.ToTagArray` | src/components/dashboard-client.tsx:55-62 | a non-null result is non-empty and each tag is non-empty, trimmed and free of commas |
| `Dashboard.ToTagArrayNoneIff` | src/components/dashboard-client.tsx:55-62 | the result is null exactly when the text holds nothing but commas and whitespace |
| `Dashboard.ToTagArrayAppend` | src/components/dashboard-client.tsx:55-62 | the tags of `a,b` are the tags of `a` followed by those of `b`: input order is kept |
| `Dashboard.EditFormTagsRoundTrip` | src/components/dashboard-client.tsx:467 | reopening a mini's tags in the edit form and parsing the text gives the same tags, when no tag has a comma |
| `Dashboard.EditFormTagsText` | src/components/dashboard-client.tsx:467 | no tags give the empty text; otherwise, when no tag has a comma, the text's comma-separated pieces are the tags, each after the first with a leading space |
| `Dashboard.MiniPayloadAccepted` | src/components/dashboard-client.tsx:205-210 | the server accepts the form's payload exactly when the name, squad, description and parsed tags meet the limits |
| `Dashboard.MiniPayload` | src/components/dashboard-client.tsx:205-210 | name and squad are sent as typed; the description is null exactly when it is all whitespace; the tags are null exactly when the tag text has only commas and whitespace; a non-null description is sent as typed and non-null tags are exactly the list `toTagArray` parses |
| `Dashboard.MiniPayloadStored` | src/components/dashboard-client.tsx:205-210 | what is stored is the trimmed description or null when blank, and exactly the tags parsed from the text |
| `Dashboard.StoredDescription` | src/components/dashboard-client.tsx:208 | the accepted description is stored as its trimmed text, or null when blank |
| `Dashboard.StoredTags` | src/components/dashboard-client.tsx:209 | accepted tags are stored exactly as parsed from the tag text |
| `Dashboard.SumProgress` | src/components/dashboard-client.tsx:85 | summing progress adds at most 5 per mini |
| `Dashboard.ProgressSum` | src/components/dashboard-client.tsx:85 | the summed progress is at most 5 per mini |
| `Dashboard.ProgressSumAppend` | src/components/dashboard-client.tsx:82-85 | summed progress is additive over concatenation |
| `Dashboard.StatsOf` | src/components/dashboard-client.tsx:90-97 | total is the number of minis; done never exceeds total; progress is 0 for no minis and otherwise the summed progress over 5·total, between 0 and 1 |
| `Dashboard.SquadStats` | src/components/dashboard-client.tsx:90-97 | the total is the squad's mini count and the done count its fully done minis; progress is 0 for an empty squad and otherwise the minis' summed progress over 5·total; all are shown done exactly when every mini is done, and none exactly when no mini is |
| `Dashboard.ArmyStats` | src/components/dashboard-client.tsx:81-88 | an army's total and done count are the sums of its squads', and its progress is 0 when it has no minis and otherwise their summed progress over 5·total |
| `Dashboard.OverallStats` | src/components/dashboard-client.tsx:119-127 | the dashboard's total and done count are the sums of its armies', and its progress is 0 when there are no minis and otherwise their summed progress over 5·total |
| `Dashboard.StatsExtremes` | src/components/dashboard-client.tsx:81-97 | the mean is full exactly when every mini is done, and 0 exactly when no mini has a completed stage |
| `Dashboard.ArmyStatsFromSquads` | src/components/dashboard-client.tsx:81-88 | over a squad list, the mini count, done count and summed progress are the sums of the squads' own |
| `Dashboard.OverallStatsFromArmies` | src/components/dashboard-client.tsx:119-127 | over an army list, the mini count, done count and summed progress are the sums of the armies' own |
| `Dashboard.WithStage` | src/components/dashboard-client.tsx:269-277 | the toggled stage's flag becomes the value, and its stamp becomes now when on or null when off; every other field stays |
| `Dashboard.WithStagePaired` | src/components/dashboard-client.tsx:273-274 | "flag set iff stamp set" holds for the toggled stage, and for the whole mini if it held before |
| `Dashboard.WithStageProgress` | src/components/dashboard-client.tsx:269-277 | the toggle changes the progress count only by swapping the old flag's contribution for the new one's |
| `Dashboard.ApplyToggle` | src/components/dashboard-client.tsx:264-280 | only minis with the given id change, each by one stage; all armies, squads and other minis keep their place and contents |
| `Dashboard.ToggleInMinis` | src/components/dashboard-client.tsx:269-277 | within a squad, each mini with the id gets the stage set and every other mini is kept, in place |
| `Dashboard.ToggleInSquads` | src/components/dashboard-client.tsx:267-278 | within an army, each squad keeps its place and its fields, with only its minis toggled |
| `Dashboard.ApplyToggleAbsent` | src/components/dashboard-client.tsx:264-280 | a tree with no mini of that id is unchanged |
| `Dashboard.ApplyTogglePaired` | src/components/dashboard-client.tsx:264-280 | the optimistic update keeps "flag set iff stamp set" across the whole tree |
| `Dashboard.ToggleKeyStringInjective` | src/components/dashboard-client.tsx:253 | different (mini, stage) pairs never share a pending-key string, so a set of pairs models the record |
| `Dashboard.ToggleKeyString` | src/components/dashboard-client.tsx:253 | the key is the mini id, a colon, then the stage name, which has no colon, so the last colon separates the two |
| `Dashboard.FailureMessage` | src/components/dashboard-client.tsx:290 | the banner shows the thrown error's message, or "Stage update failed" |
| `Dashboard.DashboardState.constructor` | src/components/dashboard-client.tsx:106-113 | the client starts with the given tree, nothing pending and no error |
| `Dashboard.DashboardState.BeginToggle` | src/components/dashboard-client.tsx:252-280 | an already pending key changes nothing and sends nothing; otherwise the error is cleared, the key added, the old tree kept as the snapshot and the optimistic update applied |
| `Dashboard.DashboardState.FinishToggle` | src/components/dashboard-client.tsx:282-297 | the key leaves the pending set and no other key changes; success keeps the tree and asks for a refresh; failure restores the snapshot and sets the error |
| `Dashboard.DashboardState.ToggleStage` | src/components/dashboard-client.tsx:252-298 | a whole toggle: sent exactly when the key was not pending; the pending set ends as it began; success leaves the optimistic tree, failure the original tree with an error; "flag set iff stamp set" is preserved |
| `Export.EscapeQuotes` | src/app/api/export/route.ts:8 | doubling quotes lengthens the value by its number of quotes |
| `Export.CsvEscape` | src/app/api/export/route.ts:7-10 | the escaped value starts and ends with a quote, has the doubled value inside, and has length \|s\| + quotes + 2 |
| `Export.CollapseEscape` | src/app/api/export/route.ts:8 | collapsing each `""` back to `"` undoes the doubling |
| `Export.CsvEscapeRoundTrip` | src/app/api/export/route.ts:7-10 | stripping the outer quotes and collapsing doubled quotes gives back the value |
| `Export.EscapeWithoutQuotes` | src/app/api/export/route.ts:8 | a value without quotes is left as it is inside the wrapping quotes |
| `Export.EscapeKeepsOtherChars` | src/app/api/export/route.ts:8 | any character other than `"` occurs in the escaped value exactly when it occurs in the value |
| `Export.BoolString` | src/app/api/export/route.ts:62-66 | `String(flag)`: "true" exactly when the flag is set and "false" exactly when it is not |
| `Export.DecimalString` | src/app/api/export/route.ts:67 | the rendering is a non-empty string of digits with no leading zero |
| `Export.DecimalRoundTrip` | src/app/api/export/route.ts:67 | the decimal rendering reads back as the number |
| `Export.PercentColumnValue` | src/app/api/export/route.ts:67 | the percent column is the decimal 20·k for k completed stages, at most 100 |
| `Export.PercentColumn` | src/app/api/export/route.ts:67 | the decimal rendering of the rounded percent (`Export.PercentColumnValue` shows it is 20·k) |
| `Export.HeaderColumnsOrder` | src/app/api/export/route.ts:23-47 | the header has 21 columns from armyId to miniUpdatedAt, with the five stage columns in stage order |
| `Export.HeaderLineColumns` | src/app/api/export/route.ts:23-47 | splitting the header line at commas gives the 21 column names |
| `Export.HeaderLine` | src/app/api/export/route.ts:23-47 | the header names joined with commas (`Export.HeaderLineColumns` reads them back) |
| `Export.EntryFields` | src/app/api/export/route.ts:52-76 | a row has one field per header column |
| `Export.EntryField` | src/app/api/export/route.ts:53-75 | column i of a row: flag text for the stages, the percent, otherwise the escaped value (`Export.EntryFieldsQuoted` and the `Export.EntryFields*` lemmas read each back) |
| `Export.NullableColumn` | src/app/api/export/route.ts:68-72 | a null value is written `""` and any other value reads back as itself |
| `Export.EntryFieldsQuoted` | src/app/api/export/route.ts:52-76 | every quoted column reads back as the value behind it |
| `Export.EntryFieldsNames` | src/app/api/export/route.ts:54-74 | the id, name and created/updated columns read back as the army's, squad's and mini's own values |
| `Export.EntryFieldsDescription` | src/app/api/export/route.ts:60 | a null description is written `""`; otherwise the column reads back as the description |
| `Export.EntryFieldsTags` | src/app/api/export/route.ts:61 | the tags column reads back as the tags joined with `\|` |
| `Export.EntryFieldsStages` | src/app/api/export/route.ts:62-67 | the five stage columns are the unquoted `true`/`false` flags in stage order; the percent column is 20·k |
| `Export.EntryFieldsStamps` | src/app/api/export/route.ts:68-72 | each stage timestamp column is `""` when null and otherwise reads back as the timestamp |
| `Export.EntryLine` | src/app/api/export/route.ts:52-76 | the fields joined with commas; without line breaks in the values the line has none (`Export.EntryLineSingle`) |
| `Export.MiniEntries` | src/app/api/export/route.ts:51 | one entry per mini of the squad, in order, naming that squad and army |
| `Export.RawValue` | src/app/api/export/route.ts:54-74 | the value behind each quoted column: ids and names, the description and timestamps with null as `""`, the tags joined with `|` (`Export.EntryFieldsQuoted` reads each back) |
| `Export.SquadEntries` | src/app/api/export/route.ts:50-51 | one entry per mini of an army's squads, squad by squad (`Export.SquadEntriesMinis` states its contents) |
| `Export.ArmyEntries` | src/app/api/export/route.ts:49-51 | one entry per mini of the armies, army by army (`Export.ArmyEntriesMinis` states its contents) |
| `Export.SquadEntriesMinis` | src/app/api/export/route.ts:50-51 | an army's entries list its squads' minis squad by squad, each under its own squad |
| `Export.ArmyEntriesMinis` | src/app/api/export/route.ts:49-51 | the entries list the armies' minis army by army, each under its own squad and army |
| `Export.EntriesFollowTree` | src/app/api/export/route.ts:49-79 | there is exactly one entry per mini, in army, squad, mini order |
| `Export.EntriesNested` | src/app/api/export/route.ts:49-79 | each entry's mini is in its squad, and that squad is in its army, which is in the tree |
| `Export.Entries` | src/app/api/export/route.ts:49-51 | one entry per mini of the tree (`Export.EntriesFollowTree` and `Export.EntriesNested` state order and nesting) |
| `Export.Lines` | src/app/api/export/route.ts:52-76 | one line per entry, each the joined fields of that entry |
| `Export.CsvLinesCount` | src/app/api/export/route.ts:22-79 | the export has one line more than the tree has minis |
| `Export.CsvLines` | src/app/api/export/route.ts:22-79 | the header line then one line per entry (`Export.CsvLinesCount` counts them, `Export.CsvRows` builds them by loops) |
| `Export.PushSquadRows` | src/app/api/export/route.ts:51-77 | the inner loop appends exactly the lines of the squad's minis, in order |
| `Export.PushArmyRows` | src/app/api/export/route.ts:50-78 | the middle loop appends exactly the lines of the army's squads, in order |
| `Export.CsvRows` | src/app/api/export/route.ts:22-79 | the rows built by the loops are the header followed by one line per mini, in army, squad, mini order |
| `Export.CsvDocumentLines` | src/app/api/export/route.ts:81 | when no value holds a line break, the body splits at line breaks into exactly the rows: 1 + (number of minis) lines |
| `Export.CsvDocument` | src/app/api/export/route.ts:81 | the lines joined with line breaks (`Export.CsvDocumentLines` splits it back) |
| `Export.ChooseFormat` | src/app/api/export/route.ts:17-21 | CSV is chosen exactly when the format parameter is present and equal to "csv"; JSON otherwise, including when it is missing |

## Left out

- Network and framework calls are not modelled: `fetch`/`sendJson`, `router.refresh`, React state batching, `useTransition` and `structuredClone`. A toggle's request becomes an `Outcome` parameter (confirmed, or failed with the thrown message). The refresh becomes a returned flag.
- `Dashboard.DashboardState.ToggleStage` is one sequential run. It does not model toggles that interleave while a request is outstanding. In the client, a toggle reads `pendingToggles` and snapshots `tree` from the render it was started in. The optimistic update is applied to the latest state. `BeginToggle` and `FinishToggle` can be called in any order, but they do not model stale reads of a closure.
- The clock becomes the `now` parameter of the toggle (`new Date().toISOString()`).
- `Validation.IsUuid` checks only the 8-4-4-4-12 hexadecimal shape. It does not check the version and variant digits that a given zod release may also check.
- String lengths are counted in characters, not in UTF-16 code units as in JavaScript. A name with characters outside the Basic Multilingual Plane is measured differently.
- `Progress.ToPercent` is modelled on an exact ratio `num / den` rather than on a floating-point product. For a single mini the two agree exactly: the result is 20·k.
- `Dashboard.StatsOf` keeps the mean progress as an exact ratio. The client computes a floating-point quotient.
- `Export.CsvDocumentLines` assumes no exported value holds a line break. A quoted value with a line break spans several physical lines, which is valid CSV but breaks the line count.
- `Dashboard.EditFormTagsRoundTrip` assumes no tag contains a comma. A tag stored with a comma (possible through the API, not through the form) comes back split in two.
- The army, squad and mini form submit handlers and the delete handler are left out (`src/components/dashboard-client.tsx:147-250`). They are network calls followed by a refresh. The mini form's payload is modelled (`Dashboard.MiniPayload`).
- All rendering is left out.
- The JSON export body and the response headers are left out. They are framework serialisation.
- The CRUD route handlers, the ownership lookups and the persistence layer are left out (`src/app/api/armies`, `squads`, `minis`, `src/lib/dashboard-data.ts`). So are authentication (`src/lib/auth.ts`, the login route) and the page shells. They are request plumbing around a database and an identity provider. The tree the export walks is taken as given.

# HuissierPro Congo — a Dafny model of the act-drafting core

HuissierPro drafts bailiff's acts for a study in Brazzaville. A bailiff:

1. picks an act type from a searchable list.
2. dictates the facts or types them into a short form (requérant, destinataire, field notes).
3. gets a draft from a local template engine.

The draft is saved as a legal act, opened in the editor, given a fee breakdown and evidence photos, and saved again. The dashboard counts the evidence and shows each act's status. Acts and the profile are persisted local-first: local storage first, then a best-effort remote upsert. The whole profile and all acts can be exported to a backup file and imported back.

The model has one module per core file:

| module | file | models |
|---|---|---|
| `FeeService` | `fee_service.dfy` | the base-fee table and its default |
| `Types` | `types.dfy` | the records (evidence, fee breakdown, legal act, profile) and the sixteen act types |
| `Editor` | `editor.dfy` | the fee arithmetic, attaching and removing evidence, the saved record, and the editor screen as a class |
| `Dashboard` | `dashboard.dfy` | the evidence total, the evidence cell and the status badge |
| `Recorder` | `recorder.dfy` | the `mm:ss` display, the speech-result loop, and the recorder as a class with start, result, stop and processing delay |
| `StorageService` | `storage_service.dfy` | reading and writing acts and profiles over a local cache and a remote table, as a class holding the cache and a trace of side effects |
| `GeminiService` | `gemini_service.dfy` | the drafter: field extraction by the label regular expression, the amount, thousands grouping, number words, the French date and the template slots |
| `App` | `app.dfy` | the act-type search, the icons, the prompt, the new act, backup export and import, and the session as a class with its handlers |

`Wrappers` (`wrappers.dfy`) holds `Option` and `Result`. `Text` (`text.dfy`) holds the string primitives the code relies on:
- JavaScript's `trim` whitespace set
- `includes`
- upper and lower case
- decimal numerals
- `padStart`

Some things are inputs to the model rather than modelled behaviour:
- **The remote database** is an oracle. Each query or upsert takes its reply as a parameter (`Reply`, `WriteReply`).
- **Local storage** is a map from key to what the stored text parses to: nothing, a value, or unparseable text.
- **Console errors and cache writes** are recorded in an event trace.
- **The clock and the locale** are parameters: today's date and ISO date, the time of day, the `Date.now()` id, and the `toLocaleString` rendering of an amount.
- **The template's fixed text** is not modelled. The model produces the values it interpolates (`ActTemplate`), and rendering them to text is a parameter.

## Model

| member | source | states |
|---|---|---|
| FeeService.CalculateFees | src/services/feeService.ts:4-16 | an act type that is a table key costs its listed amount; any other costs the 25000 default |
| FeeService.FeeBounds | src/services/feeService.ts:4-16 | every base fee, listed or default, lies between 20000 and 150000 |
| FeeService.ActTypeFees | src/services/feeService.ts:4-16 | of the sixteen offered act types only "Constat" is a table key (35000); every other one is charged the default |
| FeeService.SommationDePayerFee | src/services/feeService.ts:14-16 | a "Sommation de payer" is charged 25000 |
| Editor.WithEmoluments | src/components/Editor.tsx:179-184 | after an emoluments edit the tax is 18% of emoluments plus transport and the total is the sum of the four parts, whatever the previous state; the other entered amounts are kept |
| Editor.WithTransport | src/components/Editor.tsx:189-194 | the same for a transport edit |
| Editor.WithRegistration | src/components/Editor.tsx:199-203 | a registration edit recomputes only the total: the previous tax is carried over unchanged |
| Editor.RegistrationKeepsConsistency | src/components/Editor.tsx:199-203 | a consistent breakdown stays consistent after a registration edit |
| Editor.RegistrationKeepsStaleTax | src/components/Editor.tsx:199-203 | a stale tax stays stale after a registration edit; only the other two edits repair it |
| Editor.EditsPreserveConsistency | src/components/Editor.tsx:179-203 | each of the three edits keeps a consistent breakdown consistent |
| Editor.SommationScenario | src/components/Editor.tsx:179-203 | a summons at its base fee with 5000 transport and 2000 registration gives tax 5400 and total 37400 from any starting breakdown |
| Editor.AppendEvidence | src/components/Editor.tsx:29-44 | attaching adds exactly one item at the end and keeps the earlier ones in place |
| Editor.RemoveEvidence | src/components/Editor.tsx:243 | an item survives removal iff its id differs from the removed one; nothing changes when no item has that id |
| Editor.RemoveEvidenceAppend | src/components/Editor.tsx:243 | removal works piecewise, so survivors keep their relative order |
| Editor.AttachThenRemove | src/components/Editor.tsx:29-44 | removing a just-attached item with a fresh id restores the list |
| Editor.SavedAct | src/components/Editor.tsx:21-27 | the saved record carries the edited content, evidence and fees, is marked validated, and keeps id, title, type, date and transcription |
| Editor.InitialFeeValue | src/components/Editor.tsx:16 | as written: the act's breakdown when it has one, otherwise a bare number between 20000 and 150000 and no breakdown at all |
| Editor.FieldsOf | src/components/Editor.tsx:136-141 | a bare number has no fields; both fee records have `emoluments` |
| Editor.RendersOnlyBreakdown | src/components/Editor.tsx:136-141 | the document view renders iff the fee state is the five-field breakdown; a bare number or the four-field record lacks a field it formats |
| Editor.NoFeesOpensWithoutBreakdown | src/components/Editor.tsx:16 | as written: an act without fees opens with the bare base fee in place of a breakdown, which the document view cannot render |
| Editor.SeedFees | src/components/Editor.tsx:16 | a breakdown seeded from a base amount is consistent, with that amount as emoluments and no transport or registration |
| Editor.InitialFees | src/components/Editor.tsx:16 | corrected: the act's breakdown, or a consistent breakdown seeded with the base fee |
| Editor.InitialFeesRefinesCode | src/components/Editor.tsx:16 | the corrected state equals the code's breakdown when there is one, and otherwise holds the code's bare amount as emoluments; it always renders in the document view |
| Editor.EditorState.constructor | src/components/Editor.tsx:14-17 | corrected: the editor opens on the act's content and evidence (empty when missing), the corrected initial fees, and no save in progress |
| Editor.EditorState.EditContent | src/components/Editor.tsx:127 | typing replaces the content and nothing else |
| Editor.EditorState.EditEmoluments | src/components/Editor.tsx:179-184 | the fees become the emoluments edit of the previous fees; content, evidence and the save state are unchanged |
| Editor.EditorState.EditTransport | src/components/Editor.tsx:189-194 | the fees become the transport edit of the previous fees; nothing else changes |
| Editor.EditorState.EditRegistration | src/components/Editor.tsx:199-203 | the fees become the registration edit of the previous fees; nothing else changes |
| Editor.EditorState.AttachEvidence | src/components/Editor.tsx:29-44 | a chosen file is appended as an item with the clock's id and timestamp; no file leaves the list as it was |
| Editor.EditorState.RemoveEvidenceItem | src/components/Editor.tsx:243 | the evidence list becomes the list without the items of that id |
| Editor.EditorState.HandleSave | src/components/Editor.tsx:21-27 | with no save pending (the button is disabled otherwise, Editor.tsx:80), the record to hand over is fixed from the current state and the save becomes pending |
| Editor.EditorState.SaveTimerFires | src/components/Editor.tsx:23-26 | after the delay the record fixed at the click is handed to the save callback and the save is no longer pending |
| Dashboard.ReduceIsSum | src/components/Dashboard.tsx:15-18 | the left fold from an accumulator equals that accumulator plus the sum of the evidence counts |
| Dashboard.TotalEvidenceIsSum | src/components/Dashboard.tsx:15-18 | the dashboard total is the sum of the evidence-list lengths, and 0 for no acts |
| Dashboard.MissingEvidenceCountsZero | src/components/Dashboard.tsx:16 | an act with no evidence list adds nothing to the total |
| Dashboard.AppendAddsCount | src/components/Dashboard.tsx:15-18 | one more act adds exactly its evidence count, so the total never decreases |
| Dashboard.EvidenceCell | src/components/Dashboard.tsx:102-109 | the cell shows a number iff the act has at least one photo, and then shows the count |
| Dashboard.StatusBadge | src/components/Dashboard.tsx:112-119 | the badge reads "Acté" iff the act is final; every other status reads "Brouillon" |
| Recorder.TwoDigits | src/components/Recorder.tsx:96 | the padded numeral is all digits, at least two long, exactly two below 100, and reads back as the number; from 10 on it is the plain numeral, with no leading zero |
| Recorder.FormatTime | src/components/Recorder.tsx:93-97 | the display reads as whole minutes, a colon, and the remaining seconds (below 60) in two digits; from 10 minutes on the minutes are the plain numeral, so 100 minutes and more take three or more digits |
| Recorder.FormatTimeRoundTrip | src/components/Recorder.tsx:93-97 | below 100 minutes the display is five characters and reads back as the elapsed seconds |
| Recorder.FinalTextAppend | src/components/Recorder.tsx:31-37 | the final text of consecutive batches is the concatenation of their final texts |
| Recorder.InterimOnlyAddsNothing | src/components/Recorder.tsx:31-37 | interim-only results add nothing to the transcript |
| Recorder.Accumulate | src/components/Recorder.tsx:27-40 | from the result index on, the transcript grows by the final results' texts, each followed by a space, and the interim text is the non-final texts, in order |
| Recorder.RecorderState.constructor | src/components/Recorder.tsx:10-16 | not recording, timer 0, nothing pending, empty transcript |
| Recorder.RecorderState.StartRecording | src/components/Recorder.tsx:55-71 | without speech support only an alert is raised; otherwise recording starts from an empty transcript and a zero timer |
| Recorder.RecorderState.Tick | src/components/Recorder.tsx:68-70 | each second of recording adds one to the timer |
| Recorder.RecorderState.OnResult | src/components/Recorder.tsx:27-40 | corrected: the stored transcript grows by the batch's final texts, and the interim text is replaced by its non-final texts |
| Recorder.FirstFinalStops | src/components/Recorder.tsx:27-53 | as written: the first event that adds a final text to the transcript the handler captured leaves no recognizer running |
| Recorder.RetryIsStopped | src/components/Recorder.tsx:50-66 | as written: starting again over a non-empty transcript clears it, and that change stops the recognizer just started |
| Recorder.FirstPhraseStopsDictation | src/components/Recorder.tsx:18-66 | as written: of two phrases dictated in a row, the first stops the dictation, and a late second one replaces the first in the transcript |
| Recorder.BothPhrasesKept | src/components/Recorder.tsx:27-40 | with the transcript accumulated across events, the same two phrases are kept, in order |
| Recorder.RecorderState.StopRecording | src/components/Recorder.tsx:73-82 | recording stops and the text to hand over is fixed as transcript plus interim text at the moment of the stop |
| Recorder.RecorderState.ProcessingDelayElapsed | src/components/Recorder.tsx:81-90 | the text is delivered iff it trims to at least five characters, and it is delivered unchanged; otherwise a "dictation empty" alert is raised |
| StorageService.KeysSeparate | src/services/storageService.ts:30-84 | act keys and profile keys never collide, and each is one-to-one in the study id |
| StorageService.RowToAct | src/services/storageService.ts:15-24 | a remote row maps field by field, missing evidence becomes the empty list, and no fees are carried |
| StorageService.RemoteRoundTrip | src/services/storageService.ts:15-58 | writing an act remotely and reading it back loses its fees and nothing else |
| StorageService.ActsRead | src/services/storageService.ts:6-32 | the remote rows mapped to acts when the remote answers; otherwise the cached list, or the empty list when nothing is cached; failure iff the remote gave no data and the cached text does not parse |
| StorageService.RemoteDataIgnoresCache | src/services/storageService.ts:14-24 | when the remote answers, the cache is not consulted, and no act read carries fees |
| StorageService.OfflineEmptyIsNotCorrupt | src/services/storageService.ts:30-31 | offline, an empty cache reads as the empty list, while a corrupt one fails |
| StorageService.IndexOfId | src/services/storageService.ts:36 | the index is the first position holding the id, or -1 when no act has it |
| StorageService.FindIndex | src/services/storageService.ts:36 | the search loop returns the first position holding the id, or -1 |
| StorageService.Upsert | src/services/storageService.ts:35-38 | the act is in the result; the length is unchanged for an existing id and one more for a new one |
| StorageService.UpsertExisting | src/services/storageService.ts:37 | an existing id's first entry is replaced where it stands and everything else is untouched |
| StorageService.UpsertNew | src/services/storageService.ts:38 | a new id is appended after the unchanged list |
| StorageService.UpsertListsAct | src/services/storageService.ts:35-40 | after an upsert a lookup by id finds the saved version |
| StorageService.UpsertIdempotent | src/services/storageService.ts:35-38 | upserting the same act twice is the same as upserting it once |
| StorageService.ListAfterSaveOffline | src/services/storageService.ts:6-64 | saving then listing offline returns the list the save wrote, and it holds the saved act |
| StorageService.SaveOverRemoteRowsDropsFees | src/services/storageService.ts:35-40 | when the save's own read came from the remote, every other act in the cached list has lost its fees |
| StorageService.RemoteRowsDropOfflineSave | src/services/storageService.ts:34-40 | as written: an act saved while the remote is down is listed in the cache, but a later save of another act with the remote back rewrites the cache from the remote rows, and the first act is in neither store |
| StorageService.CachedSaveList | src/services/storageService.ts:35-40 | corrected: the list to write is read from the cache alone; it fails iff the cache is corrupt, lists the saved act, and keeps every cached act of another id |
| StorageService.UpsertKeepsOthers | src/services/storageService.ts:35-38 | every entry whose id differs from the saved act's survives an upsert |
| StorageService.CachedSavesKeepEarlierSave | src/services/storageService.ts:34-40 | corrected: with saves that read the cache, an act saved earlier is still listed after a save of another act |
| StorageService.UpsertKeepsListed | src/services/storageService.ts:35-38 | an upsert of another id leaves a listed act listed at the same version |
| StorageService.SavesKeepListed | src/services/storageService.ts:34-64 | a listed act stays listed through any later offline saves of other ids |
| StorageService.SavesOfflineListLatest | src/services/storageService.ts:34-64 | after any sequence of saves with the remote down, every saved act is listed at the version of its last save |
| StorageService.LatestListed | src/services/storageService.ts:34-64 | the act of a save that no later save overrides is listed after the whole sequence |
| StorageService.OfflineSaveStep | src/services/storageService.ts:6-64 | offline, a read returns the cached list, and after one save it returns that list with the act upserted, so the cache follows the chain of upserts |
| StorageService.ProfileRead | src/services/storageService.ts:66-81 | the remote profile when it answers, otherwise the cached one; null iff offline with nothing cached; failure iff offline with a corrupt cache |
| StorageService.UpsertLog | src/services/storageService.ts:59-63 | an accepted upsert logs nothing; a refused or throwing one logs one console error |
| StorageService.QueryLog | src/services/storageService.ts:26-28 | only a throwing query is logged |
| StorageService.Storage.constructor | src/services/storageService.ts:5 | the layer starts over the given caches with an empty trace |
| StorageService.Storage.GetActs | src/services/storageService.ts:6-32 | returns the act read of the remote reply and the cached entry, and logs only a thrown query |
| StorageService.Storage.SaveAct | src/services/storageService.ts:34-64 | a corrupt cache fails the save before anything is written; otherwise the study's entry becomes the upserted list, then the row is upserted and a failure logged |
| StorageService.Storage.GetProfile | src/services/storageService.ts:66-81 | returns the profile read of the remote reply and the cached entry |
| StorageService.Storage.SaveProfile | src/services/storageService.ts:83-98 | the profile is cached before the remote upsert, whose failure is only logged |
| StorageService.ProfileAfterSaveOffline | src/services/storageService.ts:66-98 | after a profile save, an offline read returns the saved profile |
| GeminiService.SeparatorsEnd | src/services/geminiService.ts:6-7 | the greedy `[:\s]*` run: every character in it is a separator and the next one is not |
| GeminiService.LineEnd | src/services/geminiService.ts:6-7 | the first line terminator at or after a position, or the end of input |
| GeminiService.Backtrack | src/services/geminiService.ts:6-7 | backtracking finds the longest separator prefix after which a one-line value ends at `\n` or the end, or reports that none exists |
| GeminiService.MatchAt | src/services/geminiService.ts:6-7 | a match at a position starts with the tag there; a tag followed directly by a value always matches |
| GeminiService.MatchAtIsMatch | src/services/geminiService.ts:6-7 | a match found is tag, separators, a non-empty one-line value, then `\n` or the end |
| GeminiService.FindMatch | src/services/geminiService.ts:6-7 | the match found is the leftmost one from the start position; none found means none starts anywhere |
| GeminiService.ExtractField | src/services/geminiService.ts:6-7 | no match gives the fallback; the first match gives its captured value trimmed, or the fallback when that is empty; so the result is the fallback or a non-empty trimmed value |
| GeminiService.MissingLabelGivesFallback | src/services/geminiService.ts:6-7 | a text without the tag yields the fallback |
| GeminiService.RemoveFrom | src/services/geminiService.ts:9 | the global replace never lengthens the text |
| GeminiService.RemoveNothing | src/services/geminiService.ts:9 | without the tag, the replace removes nothing |
| GeminiService.Notes | src/services/geminiService.ts:9 | the notes are never longer than the facts; what they hold is stated by `GeminiService.UnlabelledFactsAreNotes` and `App.WrittenNotes` |
| GeminiService.UnlabelledFactsAreNotes | src/services/geminiService.ts:9 | facts with neither tag are their own notes, trimmed |
| GeminiService.DotGroupsEnd | src/services/geminiService.ts:8 | `(?:\.\d{3})*` covers only digits and dots |
| GeminiService.FirstDigit | src/services/geminiService.ts:8 | where `\d+` first matches: a digit with no digit before it |
| GeminiService.WithoutMembers | src/services/geminiService.ts:8 | deleting a character keeps exactly the other characters |
| GeminiService.WithoutAppend | src/services/geminiService.ts:8 | deletion distributes over concatenation |
| GeminiService.AmountDigits | src/services/geminiService.ts:8 | the amount is a non-empty numeral; it is "0" from a text without digits, and from no other text without a "0" in it |
| GeminiService.AmountOfPlainNumeral | src/services/geminiService.ts:8 | the amount of a text whose first numeral is a run of digits followed by neither a digit nor a dot is that run |
| GeminiService.PlainAmountExample | src/services/geminiService.ts:8 | "Montant: 150000 FCFA" gives the amount "150000" |
| GeminiService.WithoutAbsent | src/services/geminiService.ts:8 | deleting a character that does not occur changes nothing |
| GeminiService.GroupSpec | src/services/geminiService.ts:33 | reference grouping: the first group has one to three digits and the later groups three each |
| GeminiService.UngroupSpec | src/services/geminiService.ts:33 | deleting the separators from a grouped numeral gives the numeral back |
| GeminiService.GroupFrom | src/services/geminiService.ts:33 | the global replace from a position on only inserts characters |
| GeminiService.GroupThousands | src/services/geminiService.ts:73 | the displayed figures are at least as long as the numeral |
| GeminiService.GroupThousandsSpec | src/services/geminiService.ts:33 | for a numeral, the regex grouping equals the reference grouping by spaces, and removing the spaces gives the numeral back |
| GeminiService.AmountOfDottedNumeral | src/services/geminiService.ts:8 | an amount written with dots between thousands is read back as its digits |
| GeminiService.ConvertNumberToFrench | src/services/geminiService.ts:22-34 | an amount outside the dictionary is shown as its locale rendering with the grouped figures in parentheses |
| GeminiService.DictionaryWins | src/services/geminiService.ts:22-33 | every dictionary amount has a non-empty phrase, which is always used |
| GeminiService.FiveThousandInWords | src/services/geminiService.ts:28 | 5000 reads "cinq mille" |
| GeminiService.FallbackShowsFigures | src/services/geminiService.ts:33 | an amount outside the dictionary shows figures that read back as the amount |
| GeminiService.FormatDateFrancais | src/services/geminiService.ts:37-42 | the date ends with the fixed year phrase |
| GeminiService.NamesDistinct | src/services/geminiService.ts:38-39 | weekday and month names are distinct single words |
| GeminiService.DateRoundTrip | src/services/geminiService.ts:37-42 | the written date reads back as the weekday, the day and the month it came from |
| GeminiService.GetActTemplate | src/services/geminiService.ts:45-118 | the payment-summons template is chosen for every act type; the title and both parties are upper-cased |
| GeminiService.TemplateIgnoresActType | src/services/geminiService.ts:118 | two act types give the same act except for the title |
| GeminiService.GenerateLegalAct | src/services/geminiService.ts:4-19 | the draft uses the summons template, titled by the upper-cased type; the parties are the upper-cased extracted fields and the notes the facts with both tagged segments cut out, under the separator class given; its figures read back as the amount and its words are that amount's number words; both parties are non-empty; its date reads back as today and the time is passed through |
| App.FilterTasks | src/App.tsx:298-300 | an entry is kept iff it contains the term, case-insensitively; no more entries than the input |
| App.FilterConcat | src/App.tsx:298-300 | filtering works entry by entry and keeps the order |
| App.FilterSingle | src/App.tsx:298-300 | a single entry is kept iff it matches |
| App.EmptyTermKeepsAll | src/App.tsx:298-300 | an empty term keeps every entry |
| App.FilteredTasks | src/App.tsx:298-300 | an act type is offered iff it is one of the sixteen and matches the search |
| App.EmptySearchOffersAll | src/App.tsx:21-38 | an empty search offers all sixteen types in order |
| App.RuleTable | src/App.tsx:542-551 | the seven keyword rules in order, none of which yields the fallback icon |
| App.GetTaskIcon | src/App.tsx:542-551 | the fallback icon is shown iff no keyword occurs in the type |
| App.IconIsFirstMatchingRule | src/App.tsx:542-551 | the icon is that of the first rule whose keyword occurs (case-sensitive) |
| App.FirstRuleStep | src/App.tsx:542-551 | each rule either fires or defers to the next |
| App.LowerCaseKeywordsGetFallback | src/App.tsx:542-551 | "Procédure d'expulsion" and "Dénonciation de saisie" get the fallback icon |
| App.ComposePrompt | src/App.tsx:154-157 | dictated content passes unchanged; the written form adds 45 characters of labels around the three fields |
| App.PromptLayout | src/App.tsx:156 | where each label, separator, field and line break sits in the written prompt |
| App.RequerantRoundTrip | src/App.tsx:156 | a one-line requérant not starting with a separator is read back, trimmed, under either separator class |
| App.DestinataireMatch | src/App.tsx:156 | the destinataire line matches at its tag and captures the typed value |
| App.NoDestinataireBefore | src/App.tsx:156 | the destinataire tag cannot occur before its line unless the requérant contains it |
| App.DestinataireRoundTrip | src/App.tsx:156 | the typed destinataire is read back, trimmed, when the requérant does not contain the tag |
| App.BlankRequerantTakesNextLine | src/App.tsx:156 | as written: an all-blank requérant makes the drafter take the whole destinataire line as the requérant |
| App.BlankRequerantMatch | src/App.tsx:156 | as written, the match runs over the blank value and the line break |
| App.CrossingField | src/services/geminiService.ts:6 | with line breaks as separators, a blank value is skipped and the next line is captured |
| App.TaggedLineTrim | src/services/geminiService.ts:6 | the captured line keeps its tag when trimmed, so it is not the default |
| App.BlankRequerantFallsBack | src/services/geminiService.ts:6 | corrected: with same-line separators a blank requérant yields the default |
| App.NoLabelJoin | src/services/geminiService.ts:6-7 | two texts without the tag, joined at a character the tag cannot cover, give a text without it |
| App.RemoveNoneFrom | src/services/geminiService.ts:9 | where the tag no longer occurs, the global replace leaves the text as it is |
| App.RemoveFirst | src/services/geminiService.ts:9 | the global replace cuts the first match out and resumes after it |
| App.RequerantFound | src/App.tsx:156 | the first requérant match of the written prompt is its first line |
| App.RequerantCut | src/services/geminiService.ts:9 | cutting the requérant out of the written prompt leaves the rest of the prompt from the line break on |
| App.DestinataireFound | src/App.tsx:156 | after the requérant value, the first destinataire match is the destinataire line |
| App.DestinataireCut | src/services/geminiService.ts:9 | cutting the destinataire out then leaves a line break followed by the notes line |
| App.NotesLineTrim | src/services/geminiService.ts:9 | trimming drops the two leading line breaks and keeps the notes line |
| App.TrimLeadingSpace | src/services/geminiService.ts:9 | a leading whitespace character makes no difference to `trim` |
| App.WrittenNotes | src/services/geminiService.ts:9 | the notes drawn from the written form are its notes line, label "NOTES DE TERRAIN:" included, trimmed |
| App.WrittenFormDrafted | src/App.tsx:154-159 | a written form with plain one-line parties and no tag of another field reaches the draft intact: both parties upper-cased and trimmed, and the notes line trimmed |
| App.NewAct | src/App.tsx:163-178 | a new act is a draft with no evidence and zero fees, keeping the type, the date, the prompt and the drafted content |
| App.GeneratedFeesBreakDocument | src/App.tsx:172-177 | as written: a new act's four-field fee record lacks `transport`, so the editor's document view cannot render it |
| App.NewActOpensClean | src/App.tsx:163-178 | corrected: a new act opens with a consistent zero breakdown that the document view renders, and shows as a draft with no evidence; its title reads as type, " - ", date |
| App.ExportBundle | src/App.tsx:218-224 | the backup holds the current profile and acts, the export date and version "1.0" |
| App.ValidateImport | src/App.tsx:250-261 | a file is accepted iff it parsed with a profile and an acts array; otherwise the error is the parser's message or "Format de fichier invalide." |
| App.ExportImportRoundTrip | src/App.tsx:218-258 | importing an exported backup restores exactly its profile and acts |
| App.SavedActIsShownOffline | src/App.tsx:181-191 | offline, a save that could read the list shows the saved act; a corrupt cache leaves the list shown unchanged |
| App.Session.constructor | src/App.tsx:41-73 | the session starts logged out on the dashboard, with no acts, an empty form, the default profile and the loading screen up |
| App.Session.ExportData | src/App.tsx:218-224 | the backup of the current state imports back to the current profile and acts |
| App.Session.MirrorProfile | src/App.tsx:75-80 | while logged in, the profile is mirrored into local storage |
| App.Session.InitApp | src/App.tsx:83-113 | the saved profile and then the saved login are restored and the acts loaded; unparseable saved text leaves the loading screen up |
| App.Session.HandleLogin | src/App.tsx:115-134 | the user is attached to the demonstration study and remembered, the saved profile restored, and the acts loaded (empty on failure) |
| App.Session.HandleLogout | src/App.tsx:136-140 | the user is forgotten and the dashboard is shown |
| App.Session.ResetFlow | src/App.tsx:142-148 | the new-act form is empty |
| App.Session.SaveAndRefresh | src/App.tsx:181-191 | the list shown becomes the re-read list, or stays as it was on failure; the cache gains the act, upserted into the list read, iff the save could read it; the log records the read, the cache write, the remote upsert and the re-read, in that order |
| App.Session.ProcessGeneration | src/App.tsx:150-202 | corrected: without a chosen type or a user nothing changes, neither the spinners nor the stores; otherwise the generated act is saved (the cache and the log as for `App.Session.SaveAndRefresh`), opened in the editor, and the form reset |
| App.Session.RecordGenerated | src/App.tsx:180-200 | the act is saved (the cache and the log as for `App.Session.SaveAndRefresh`), the list refreshed, the act opened in the editor, the spinners stopped and the form reset |
| App.Session.OpenGenerated | src/App.tsx:193-200 | the act is open in the editor, loading has stopped and the form is empty |
| App.Session.HandleSaveAct | src/App.tsx:204-216 | without a user nothing changes, neither the sync flag nor the stores; otherwise the act is saved (the cache and the log as for `App.Session.SaveAndRefresh`), the list refreshed, and the dashboard shown |
| App.Session.ImportData | src/App.tsx:236-265 | without a file or confirmation nothing changes; a valid file replaces the profile and acts with a success alert; an invalid one only raises an error alert |
| App.ExportThenImport | src/App.tsx:218-265 | exporting then importing leaves the profile and acts unchanged and reports success |

## Left out

- The remote database, local storage, the clock, the locale and the file picker are parameters. JSON encoding is taken as lossless (`App.Encode`). The parsing of stored text is reduced to "nothing, a value, or unparseable".
- Concurrency between the asynchronous handlers is not modelled. Each handler runs to completion. The `isLoading` spinner is set and cleared within `App.Session.ProcessGeneration`.
- The fixed text of the act templates is not modelled. The model keeps the values the template interpolates, and rendering is a parameter of `App.GeneratedAct`. The "default" template is unreachable because the summons template is a non-empty string (geminiService.ts:118), so only its kind is modelled.
- `generateLegalAct` never throws, so the error branch of `processGeneration` (App.tsx:195-197) cannot be reached and is not modelled.
- Number words are looked up only among the dictionary's own keys. A key such as "constructor", inherited from the object prototype, cannot occur because the amount is a numeral.
- `toUpperCase`/`toLowerCase` are modelled one character to one, for ASCII and Latin-1 letters and for µ (U+00B5, whose upper case is U+039C). The code turns ß into the two letters "SS", so a name with ß grows by one character; `Text.UpperChar` leaves ß alone, and `Text.ToUpper` keeps the length. Letters outside Latin-1 are left as they are.
- Fee arithmetic uses exact reals where the code uses floating point.
- The generated act's fee record in App.tsx:172-177 has four fields (`emoluments`, `debours`, `tva`, `total`), following src/types.ts:65-70. The editor uses the five-field record of types.ts:17-23. `App.NewAct` uses the five-field record with every amount zero; the four-field one appears only in `App.GeneratedFeesBreakDocument` (see the findings).
- Editor.EditorState.constructor: opens on the corrected fee state `Editor.InitialFees`. The code's state, a bare number for an act without fees, is `Editor.InitialFeeValue`, and the findings show that it breaks the document view.
- App.Session.ProcessGeneration: runs the corrected drafter and fee record. `App.GeneratedAct` extracts the fields with same-line separators, and the new act carries the five-field zero breakdown. The behaviour as written is stated by `App.BlankRequerantTakesNextLine` and `App.GeneratedFeesBreakDocument`.
- App.GeneratedAct: drafts with the same-line separator class, the corrected one. `GeminiService.GenerateLegalAct` takes the class as a parameter, and its contract holds for the class as written too.
- StorageService.Storage.SaveAct: models the save as written. It reads the list through `getActs` and can lose an earlier offline save (see the findings); `StorageService.CachedSaveList` is the corrected read.
- StorageService.Storage.SaveAct: the local write always succeeds. In the code `localStorage.setItem` can throw when the quota is exceeded. `saveAct` then rejects before the remote upsert, and App.tsx:187 and 211 swallow the rejection, so the act is stored nowhere.
- Recorder.RecorderState.ProcessingDelayElapsed: counts the trimmed dictation in characters. JavaScript's `.length` counts UTF-16 code units, so the code counts a character outside the Basic Multilingual Plane (an emoji, say) twice toward the five-character threshold.
- The year in the French date is the fixed phrase "deux mil vingt-cinq" whatever the date. The model keeps it as written.
- Recorder.RecorderState.OnResult: models the intended recognizer, which appends each event to the current transcript and keeps running. As written (Recorder.tsx:18-53), the handler appends to the transcript captured when the recognizer was built, and every change of the transcript stops the recognizer and installs a new one that is never started. `Recorder.StartAsWritten` and `Recorder.ResultAsWritten` model that on values (see the findings).
- The Web Speech API is not modelled. Its result events are the parameter of `Recorder.RecorderState.OnResult`. The recognizer's own error handler, which calls stop, is not modelled separately.
- The remote act query is ordered by date, newest first (storageService.ts:12). The model takes the rows in the order the reply gives them.
- A remote query that returns an error without throwing is not logged (storageService.ts:14, 74). The model logs only a thrown query, as the code does.
- The settings screen, the layout, the login form and the Supabase client set-up are outside this model.
- Editor.EditorState.HandleSave: requires no pending save, because the button is disabled while one is (Editor.tsx:80).
- GeminiService.ConvertNumberToFrench: the locale rendering of the amount (`toLocaleString('fr-FR')`) is a parameter, so its contract does not say how that rendering groups digits.

## Findings

| source | as written | input that shows it | evidently intended | confidence | as-written member | corrected member |
|---|---|---|---|---|---|---|
| src/components/Editor.tsx:16 | an act without fees opens the editor with the bare number `calculateFees(type)` as its fee state, which has no emoluments, tax or total, so the document view throws at Editor.tsx:136 | any act read back from the remote table, since rows carry no fees | a breakdown seeded with the base fee as emoluments, with consistent tax and total | not executed | Editor.NoFeesOpensWithoutBreakdown | Editor.InitialFeesRefinesCode |
| src/services/geminiService.ts:6 | the separator class `[:\s]` also matches line breaks, so a blank field value lets the match run into the next line | the written form with requérant " " (the form refuses only the empty string, App.tsx:509) | the next line is not captured, and the field falls back to "LE CRÉANCIER" | not executed | App.BlankRequerantTakesNextLine | App.BlankRequerantFallsBack |
| src/App.tsx:172-177 | a generated act carries the four-field fee record (`emoluments`, `debours`, `tva`, `total`), while the editor's document view formats `transport`, `registration` and `tax` (Editor.tsx:137-139) | any newly generated act opened on the document tab: `fees.transport` is undefined and `toLocaleString` throws | the editor's five-field breakdown, all zero | not executed | App.GeneratedFeesBreakDocument | App.NewActOpensClean |
| src/services/storageService.ts:35 | the save reads the list through `getActs`, which prefers the remote rows, and writes that list back to the cache | save act A with the remote down (its upsert fails), then save act B with the remote answering: the cache becomes the remote rows plus B, and A is in neither store | read the cached list, replace or append by id, and write it back, so any saved act stays listed from the cache | not executed | StorageService.RemoteRowsDropOfflineSave | StorageService.CachedSavesKeepEarlierSave |
| src/components/Recorder.tsx:18-53 | the result handler appends to `fullTranscript` as captured when the recognizer was built, and the effect keyed on `fullTranscript` stops the running recognizer at the first change and installs a fresh one that is never started | dictate "Le débiteur", then "doit 5000": the first final result stops the dictation; a second event from the stopped recognizer replaces the transcript with "doit 5000 " | the whole dictation is accumulated while recognition keeps running | not executed | Recorder.FirstPhraseStopsDictation | Recorder.RecorderState.OnResult |

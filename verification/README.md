# Verified model of the exam import, sync and quota code

This project models the parts of the school platform where a small mistake damages an exam, a
result or a student record, and proves what those parts keep:

* **Question documents.** The regular expressions that find answers, options, question numbers
  and theory headings (`Markers`), the three text parsers built on them (`QuestionParsers`,
  `ParagraphBlocks`), the canonical text that one parser prints for the others to read
  (`CanonicalText`, `YorubaPaper`), the normaliser stack behind the parsers (`NormalizeRows`,
  `AnswerSlots`), and the line-by-line parser for structured documents (`DocxRows`
  with its expressions in `DocxShapes`, `DocxPapers`, `DocxSources`, `DocxAbsence`,
  `DocxTexts`, `DocxExact`).  Text is a sequence of characters and every match is computed on
  characters.
* **Rich text.** Styled runs, their HTML, and the cursor loop that renders a range of
  characters (`RichText`, `RichSlices`).
* **Practice bank.** The SQL row scanner (`SqlTuple`), answer inference and rotation
  (`AnswerInference`), sorting raw rows (`QuestionCollector`), bulk linking (`AnswerBank`).
* **Delta replication.** Export, import and cursor of the manual updates (`ManualUpdates`),
  whole runs of edits, deletions and pushes (`Replication`), and repeated exports of one model
  (`Paging`).
* **Request quota.** The counter in a shared cache, for every interleaving of cache calls
  (`RateLimit`).
* **Exam rebuild.** Parking, deleting, creating and renumbering links under the unique order
  constraint (`ExamRebuild`), and splitting twenty marks in cents (`MarkSplit`).
* **Historical results.** The score table loop and the stored scores (`HistoricalScores`), and
  the back-fill of teacher assignments (`AssignmentBackfill`).

Code that changes state step by step is a method or a class proved against a function or a
relation on values; the theorems are lemmas about those.  Where a property the code is meant to
have does not hold in general, the model keeps the code as it is and states exactly when the
property holds: `ParsersAgree`, `NumbersAgree`, `StackIdempotent`, `RunSafeExactly`,
`ReflagSafeExactly`, `DrainComplete`, `ValuesRoundTrip`, `RoundTripExactly` and
`TeacherSettledExactly` are equivalences with a condition on the input, and each has a lemma
beside it with an input that fails; `ExpiryRaceAdmitsAll` and `StaleRaceAdmitsAll` show the conditions of the quota bounds to
be needed.

`dafny verify dfyconfig.toml` checks everything.

## Model

| member | source | states |
|---|---|---|
| Chars.NumeralRoundTrip | scripts/import_third_term_exams_20260629.py:466 | the question numbers that the printer writes read back as the same numbers |
| Chars.CollapseIsCollapsed | scripts/import_ca23_third_term_20260624.py:229-238 | collapsing leaves nothing or words with one blank between them, whatever the text |
| Markers.SearchIsFirst | scripts/import_ca23_third_term_20260624.py:226-246 | a search finds the leftmost place where the pattern matches, or there is none |
| Markers.FindAllOrdered | scripts/import_ca23_third_term_20260624.py:264-285 | the matches of a scan are in order and do not overlap, for any pattern |
| QuestionParsers.ParseObjectiveChunk | scripts/import_ca23_third_term_20260624.py:226-246 | the loop over option markers computes the row of a chunk: the first answer marker gives the key, a label keeps its last text, all four options or nothing |
| QuestionParsers.ParseTheoryRows | scripts/import_first_ca_third_term_20260518.py:424-452 | the flushing loop computes one row per numbered group of lines |
| QuestionParsers.ParseNumberedTextRows | scripts/import_ca23_third_term_20260624.py:249-261 | the loop over question starts computes the parser function the theorems speak of |
| QuestionParsers.ParseAnswerTerminatedRows | scripts/import_ca23_third_term_20260624.py:264-285 | the loop over answer ends, with its number marker search, computes the parser function the theorems speak of |
| CanonicalText.PrintCanonical | scripts/import_third_term_exams_20260629.py:465-473 | the nested loops print exactly the lines the round trip is about |
| CanonicalText.ChunkOfBlock | scripts/import_ca23_third_term_20260624.py:226-246 | a printed block, cut anywhere a parser cuts it, parses to its row: no stem or option line is taken for another marker |
| CanonicalText.SplitPaper | scripts/import_ca23_third_term_20260624.py:264-267 | the theory split of a printed paper falls exactly on the printed heading, never inside a question |
| CanonicalText.RoundTrip | scripts/import_third_term_exams_20260629.py:465-473 | print, then parse: the answer-terminated parser gives back exactly the printed stems, options and keys under numbers 1 to n, and the theory questions, for any rows with collapsed texts and any theory text |
| CanonicalText.NumberedParserKeepsCapitals | scripts/import_ca23_third_term_20260624.py:249-261 | on a printed paper the parser that cuts at question starts returns exactly the rows whose stem starts with an ASCII capital, under their own numbers |
| CanonicalText.ParsersAgree | scripts/import_ca23_third_term_20260624.py:249-285 | the two parsers agree on a printed paper if and only if every stem starts with an ASCII capital |
| CanonicalText.SmallLetterDivides | scripts/import_ca23_third_term_20260624.py:249-285 | one paper on which they differ: a single question with a small first letter |
| ParagraphBlocks.ParseParagraphs | scripts/import_ca23_third_term_20260624.py:326-364 | the paragraph loop with its flushes computes the segmentation and its rows |
| ParagraphBlocks.SegmentationConserves | scripts/import_ca23_third_term_20260624.py:332-358 | chunks and then theory lines are exactly the non-blank, non-heading paragraphs in order, and only the last paragraph of a chunk bears an answer |
| ParagraphBlocks.ParagraphRoundTrip | scripts/import_ca23_third_term_20260624.py:326-364 | the paragraph parser too gives back a printed paper, whatever the first letters of the stems |
| YorubaPaper.ParseYoruba | scripts/import_third_term_exams_20260629.py:398-479 | the block loop returns rows and text that belong together |
| YorubaPaper.ObjectiveRowsPrintable | scripts/import_third_term_exams_20260629.py:409-462 | whatever the paper holds, every row built from it satisfies what the printer needs |
| YorubaPaper.TextCarriesRows | scripts/import_third_term_exams_20260629.py:398-479 | end to end, for every paper: the text handed on re-parses to the stems, options and keys of the rows handed on |
| YorubaPaper.SkipIgnoresNumber | scripts/import_third_term_exams_20260629.py:409-462 | a block has no row exactly when its four lettered lines leave no stem line in front or an empty option, or when it has no four lettered lines and fewer than five lines |
| YorubaPaper.NumbersAgree | scripts/import_third_term_exams_20260629.py:409-466 | the source numbers of rows and text agree if and only if no block is kept behind a skipped one |
| YorubaPaper.LoneAnswerShiftsNumbers | scripts/import_third_term_exams_20260629.py:409-466 | one kind of paper on which they differ: a lone answer line in front of a question |
| NormalizeRows.NormalizeBase | scripts/import_first_ca_third_term_20260518.py:505-523 | valid objectives in order with their own label or the next one found, then the valid theory rows |
| NormalizeRows.NormalizeKeys | scripts/import_ca23_third_term_20260624.py:167-204 | the wrapper keys and cleans exactly the objective rows, in place, and leaves the others |
| NormalizeRows.MergeTheory | scripts/import_third_term_exams_20260629.py:232-244 | all theory rows become at most one, their inked stems joined by blank lines |
| NormalizeRows.NormalizeExamRows | scripts/import_third_term_exams_20260629.py:222-245 | the three layers together: the rows, the number of valid objective rows, and the number of theory rows, which is at most one |
| NormalizeRows.StackTwice | scripts/import_third_term_exams_20260629.py:222-245 | a second pass with the same text keeps order, options, keys and the theory row and only cleans stems once more |
| NormalizeRows.StackIdempotent | scripts/import_third_term_exams_20260629.py:222-245 | the stack is idempotent on a paper if and only if no valid objective row of the paper has two option marks in front of its stem |
| NormalizeRows.DoubleMarkIsCleanedTwice | scripts/import_ca23_third_term_20260624.py:203 | one row on which it is not: the stem "A) B) x" |
| AnswerSlots.SlotsAreKeys | scripts/import_ca23_third_term_20260624.py:170-179 | when the printed text has as many answer slots as rows, its slots are the printed keys in order |
| AnswerSlots.KeysSurvive | scripts/import_ca23_third_term_20260624.py:167-204 | the normaliser never changes the key of a row whose printed text it is given |
| AnswerSlots.YorubaKeysSurvive | scripts/import_third_term_exams_20260629.py:614-618 | from the block parser through printer and normaliser, a Yoruba paper keeps questions, options, keys and theory text, whatever the theory text contains |
| AnswerSlots.FoundIsWell | scripts/import_ca23_third_term_20260624.py:145-192 | whatever the source text, the labels and slots that the expressions find in it are letters and never blank |
| AnswerSlots.StackIdempotentOnText | scripts/import_third_term_exams_20260629.py:222-245 | with the three expressions run on any source text, the stack is idempotent on a paper if and only if no valid objective row of the paper has two option marks in front of its stem |
| RichText.EscapedIsCharwise | scripts/import_thursday_ca.py:181-183 | the six replacements one after the other do what one pass over the characters does |
| RichText.HtmlDecodes | scripts/import_thursday_ca.py:174-200 | rendered runs stand for exactly their styled characters |
| RichSlices.SafeIdempotent | scripts/import_thursday_ca.py:118-130 | the character replacements are idempotent and keep non-empty texts non-empty |
| RichSlices.SafeConcat | scripts/import_thursday_ca.py:235-236 | the replacements distribute over concatenation, so run texts can be made safe one by one |
| RichSlices.ParagraphRows | scripts/import_thursday_ca.py:489-511 | one row per non-blank paragraph in order, its text the concatenation of its run texts |
| RichSlices.ParagraphText | scripts/import_thursday_ca.py:493-509 | the text of a row is the safe text the paragraph shows, and its runs are not empty |
| RichSlices.CutIsWindow | scripts/import_thursday_ca.py:209-223 | the cursor arithmetic over runs is plain slicing of the styled characters |
| RichSlices.SlicesConcatenate | scripts/import_thursday_ca.py:202-224 | slices at any split point denote, together, the whole slice |
| RichSlices.FullCut | scripts/import_thursday_ca.py:198-224 | a slice over all characters renders the runs as they are |
| RichSlices.WholeSlice | scripts/import_thursday_ca.py:198-224 | without bounds the slice is the whole rendering and all characters of the row |
| RichSlices.StripTrims | scripts/import_thursday_ca.py:224 | the final strip takes away exactly the blanks outside every tag at both ends; line breaks stay |
| RichSlices.SliceHtml | scripts/import_thursday_ca.py:202-224 | the result denotes exactly the styled characters from max(start, 0) up to end, less the untagged blanks at the ends; without bounds it is the stripped rendering of the row |
| RichSlices.RichTextDecodes | scripts/import_thursday_ca.py:239-240 | rich text of a plain value stands for its safe characters, unstyled |
| DocxShapes.ParseDocument | scripts/import_thursday_ca.py:602-771 | the stateful loop, with its closing of questions and its key filling, computes for the expressions of the script the rows and the instructions of the transition function run over all paragraphs |
| DocxRows.Parser.Parse | scripts/import_thursday_ca.py:602-771 | the same for any heading, marker and answer expressions, which the theorems below are proved for |
| DocxRows.Parser.TakeParagraph | scripts/import_thursday_ca.py:646-756 | one paragraph changes the parser state as the transition function says, branch by branch |
| DocxRows.Parser.FinalizeCurrent | scripts/import_thursday_ca.py:613-644 | closing a question adds a row only with a stem and, for objectives, four options |
| DocxRows.RowsAreComplete | scripts/import_thursday_ca.py:602-771 | for any document: stems are not empty, objective rows have exactly the options A to D, rows follow the document order and no paragraph is part of two rows |
| DocxSources.RowsComeFromParagraphs | scripts/import_thursday_ca.py:602-771 | for any document: the stem of an objective row is its first paragraph and each option one of its other paragraphs or what stands there behind the letter, unless the whole question stands in one paragraph; a theory stem is its paragraphs joined |
| DocxSources.StemIsSettled | scripts/import_thursday_ca.py:518-519 | cleaning a stem twice changes nothing |
| DocxSources.OptionIsStable | scripts/import_thursday_ca.py:514-515 | cleaning an option twice changes nothing, whatever blanks and dashes stand at its ends |
| DocxRows.KeyFillsFirst | scripts/import_thursday_ca.py:760-765 | the trailing key fills exactly the first waiting rows, the n-th with the n-th letter, and changes no other row |
| DocxPapers.RoundTrip | scripts/import_thursday_ca.py:602-771 | a readable paper, with any mix of answer lines, a theory section and an answer key, comes back question by question and row by row |
| DocxExact.RoundTripExactly | scripts/import_thursday_ca.py:602-771 | every paper that can be printed, whatever its texts, its heading and the expressions for headings and markers, comes back row by row if and only if it is readable: texts that the clean-up leaves alone, no printed line taken for a heading, an answer line, an option or a whole question, theory questions divided by their numbers, and no long statement first |
| DocxAbsence.LostAt | scripts/import_thursday_ca.py:646-756 | a paragraph that one step leaves out of a place in the rows never gets there later, so rows that should have it there do not come back |
| DocxTexts.RowsAreCleaned | scripts/import_thursday_ca.py:514-519 | for any document: every stem and every option of an emitted row stays as it is under a second clean-up |
| DocxShapes.RoundTripExactly | scripts/import_thursday_ca.py:141-163 | with the expressions of the script, every printed document comes back if and only if it is legible: an option line is lost only when it holds the word question among at most four words, and an answer line never is |
| DocxShapes.OptionHeading | scripts/import_thursday_ca.py:663-698 | an option line is taken for a heading exactly when it holds the word question among at most four words |
| DocxShapes.OptionNeverInline | scripts/import_thursday_ca.py:549-599 | no option line is taken for a whole question, wherever an answer word cuts it |
| DocxShapes.LongStemIsLost | scripts/import_thursday_ca.py:700-702 | one document that is not legible: with a stem of 121 letters the question is lost, with 120 it comes back |
| DocxShapes.QuestionOptionIsLost | scripts/import_thursday_ca.py:687-693 | another: a question with the option "No question" is lost |
| SqlTuple.ScanFields | scripts/rebuild_jamb_review_bank.py:200-236 | the scan with steps of one or two terminates and computes the field function |
| SqlTuple.LiteralSqlTuple | scripts/rebuild_jamb_review_bank.py:200-246 | scan and normalisation together compute the values of a chunk |
| SqlTuple.RoundTrip | scripts/rebuild_jamb_review_bank.py:200-246 | every printed row comes back, whatever mixture of doubled and backslash-escaped quotes and outer blanks was used, up to trimming and the reading of NULL-like and number-like texts |
| SqlTuple.ValuesRoundTrip | scripts/rebuild_jamb_review_bank.py:236-246 | a row of values comes back unchanged if and only if no text has blanks at an end or looks like NULL or a number |
| SqlTuple.NullTextChanges | scripts/rebuild_jamb_review_bank.py:236-246 | one row that changes: the text null |
| SqlTuple.RescanIsStable | scripts/rebuild_jamb_review_bank.py:200-246 | for any text at all, printing the scanned values and scanning again changes nothing |
| AnswerInference.InferCorrectIndex | scripts/import_examguide_all_to_jamb.py:150-176 | the result is the one option with a score of at least five and two ahead of every other, or none when there is no such option |
| AnswerInference.SortDescending | scripts/import_examguide_all_to_jamb.py:171 | the ranking holds the same pairs, best first |
| AnswerInference.OrderDoesNotMatter | scripts/import_examguide_all_to_jamb.py:150-176 | for any permutation of the options inference picks the same option, or none in both orders |
| AnswerInference.RotateOptions | scripts/import_examguide_all_to_jamb.py:179-185 | the turned options are the same options, and the label is the first place of the correct text |
| AnswerInference.RotationKeepsTheAnswer | scripts/import_examguide_all_to_jamb.py:179-185 | inference on the turned options picks the labelled place, the only one with the correct text |
| QuestionCollector.CollectRows | scripts/import_examguide_all_to_jamb.py:209-262 | the loop accepts per subject exactly the first clean row of each stem, with its turned options and key, and rejects all other requested rows with the right reason |
| QuestionCollector.EveryRowOnce | scripts/import_examguide_all_to_jamb.py:214-261 | every raw row of a requested subject is accepted or rejected, exactly once and in order, and rows of other subjects are neither |
| QuestionCollector.DistinctStems | scripts/import_examguide_all_to_jamb.py:226-243 | accepted stems of a subject have pairwise different signatures |
| QuestionCollector.CleanStemsSurvive | scripts/import_examguide_all_to_jamb.py:226-243 | no clean question is lost: an accepted row with its stem stands at its place or before |
| QuestionCollector.StoredAnswerIsInferred | scripts/import_examguide_all_to_jamb.py:150-185 | inference on a row as stored gives its stored answer again |
| AnswerBank.Bank.BulkCreate | scripts/import_examguide_all_to_jamb.py:286-366 | the bulk inserts and the dictionaries of ids leave every table as stated, row by row |
| AnswerBank.OneCorrectLink | scripts/import_examguide_all_to_jamb.py:311-366 | each stored question has exactly its four options, one answer and one link, which names the option with the correct text |
| AnswerBank.AnswerKeysAreRight | scripts/import_examguide_all_to_jamb.py:209-366 | end to end: the linked option of every stored question is the one its explanation points to in the raw row |
| ManualUpdates.NormalizedChannels | core/manual_updates.py:174-192 | the requested channels, or the allowed ones, or those from the LAN to the cloud, when none is requested, each once in order of first mention; with an unknown or refused one among them, exactly those as the error |
| ManualUpdates.MentionsInOrder | core/manual_updates.py:174-201 | first mentions hold every item once, in the order of their first places |
| ManualUpdates.ModelLabels | core/manual_updates.py:195-201 | the models of the channels, each once, in order of first mention |
| ManualUpdates.SortSorts | core/manual_updates.py:264-272 | the queryset order sorts by timestamp and key and keeps the rows |
| ManualUpdates.PageRows | core/manual_updates.py:275-285 | a page holds only exportable rows, and all of them when they fit the clamped limit |
| ManualUpdates.ExportRows | core/manual_updates.py:275-297 | an export is the pages of its models and nothing else |
| ManualUpdates.GateIsFilter | apps/sync/policies.py:22-40 | model by model, the gate lets a row of the result models pass exactly when its export queryset keeps it |
| ManualUpdates.GateDropsNothing | core/manual_updates.py:222-287 | so in no mode does the gate drop a row of an exported page |
| ManualUpdates.BuildPayload | core/manual_updates.py:275-297 | the export loop returns the pages and the largest timestamp of what it returns |
| ManualUpdates.Receiver.Apply | core/manual_updates.py:300-334 | the import upserts exactly the allowed items that do not raise, accounts for every item, and reports the largest timestamp it imported |
| Replication.RunSync | apps/dashboard/management/commands/push_lan_updates_to_cloud.py:44-79 | export, import and cursor of one run of the command |
| Replication.SafeRun | core/manual_updates.py:275-334 | a run that leaves no row behind the new cursor keeps a synced receiver synced |
| Replication.RunSafeExactly | core/manual_updates.py:275-334 | a run keeps every synced receiver synced if and only if, on the tables and pages before it, every row that will go through is older than the first row cut from any model and than every row that will be refused or raise |
| Replication.GuardIsExact | core/manual_updates.py:264-334 | that guard says exactly that no tracked row is left undelivered at or below the new cursor |
| Replication.SingleModelExactly | core/manual_updates.py:264-297 | a run of one model is safe if and only if its page does not end between two rows of one timestamp |
| Replication.FittingRunDelivers | core/manual_updates.py:275-334 | when no page is cut and nothing raises, everything newer is delivered and no row is left behind |
| Replication.SingleModelSafe | core/manual_updates.py:264-297 | a run of one model is safe at any limit when no two newer rows share a timestamp |
| Replication.FailedRowIsLost | apps/dashboard/management/commands/push_lan_updates_to_cloud.py:60-79 | the cursor is saved although an item failed, so a run can leave that row behind |
| Replication.CutRowIsLost | core/manual_updates.py:275-297 | the limit cuts each model but the cursor is shared, so a run can leave a cut row behind |
| Replication.ReflagSafeExactly | core/manual_updates.py:222-262 | a change of the sheet, the person or the submission behind a row, which gives the row no new timestamp, keeps a synced system synced if and only if it does not make a row exportable that the cursor has passed and the receiver lacks |
| Replication.LatePublicationIsLost | core/manual_updates.py:225-232 | one run that is not synced any more: a score is published after a push has passed its timestamp |
| Replication.ReplicationSafe | core/manual_updates.py:204-334 | in every state reached by edits, deletions, changes of status or role and pushes in any order, each tracked row up to the cursor is on the receiver in its current version, as long as the guard held before every push and no change showed a row late |
| Replication.OnlyAllowedModels | core/manual_updates.py:300-318 | no run writes a row of a model outside the allowed channels |
| Replication.ThreeRunsHeal | apps/dashboard/management/commands/pull_cloud_admissions_delta.py:36-98 | an empty delta resets the cursor, so three undisturbed runs repair any receiver when the tables fit the limit |
| Paging.DrainIsPages | core/manual_updates.py:264-297 | repeated exports, each from the returned timestamp, end and are the pages of the sorted table |
| Paging.DrainComplete | core/manual_updates.py:264-297 | they yield every eligible row exactly once in order, for any limit, if and only if no page ends between two rows of one timestamp |
| Paging.TiedRowIsLost | core/manual_updates.py:264-297 | one table on which a row is lost: two rows of one timestamp and a limit of one |
| Paging.DistinctCuts | core/manual_updates.py:264-297 | distinct timestamps are enough for that |
| Paging.UsersBehindLimitNeverExported | apps/accounts/models.py:26 | the user table has no timestamp, so a user behind the limit is in no export |
| RateLimit.Cache.ConsumeQuota | core/security.py:105-122 | a request that runs alone takes the four cache calls of the interleaved model in a row and touches no other key |
| RateLimit.AdmittedBudget | core/security.py:105-122 | over every interleaving, each entry lifetime and each stale overwrite admits at most the limit |
| RateLimit.QuotaBound | core/security.py:105-122 | in any span as long as the window at most twice the limit is admitted, plus one limit per stale overwrite |
| RateLimit.QuotaBoundAtomic | core/security.py:105-122 | with atomic increments and no expiry inside a request, at most twice the limit |
| RateLimit.QuotaBoundFallback | core/security.py:113-121 | the same bound for undisturbed reads and rewrites, although each rewrite starts the time to live again |
| RateLimit.LifetimeAdmits | core/security.py:105-122 | one entry lifetime admits exactly the smaller of the limit and the number of its requests |
| RateLimit.LifetimeEarliestFirst | core/security.py:105-122 | within a lifetime an answer is yes if and only if no more than the limit have been given by then, so the earliest are admitted |
| RateLimit.LifetimeExact | core/security.py:105-122 | while an entry lives its counter counts the answered requests and decides each answer |
| RateLimit.ExpiryRaceExceedsTwice | core/security.py:113-121 | for every rule some run exceeds twice the limit when an entry expires inside requests, so that condition is needed |
| RateLimit.ExpiryRaceAdmitsAll | core/security.py:113-121 | for every rule and every number of requests, some run with atomic increments admits all of them at one moment when the entry expires between add and increment |
| RateLimit.StaleRaceAdmitsAll | core/security.py:117-121 | for every limit above one and every number of requests, interleaved reads and rewrites of the fallback can admit all of them |
| MarkSplit.MarksAreExact | scripts/finalize_third_term_all_papers_20260702.py:725-730 | the marks of any count sum to exactly 2000 cents, never increase and differ by a cent at most |
| MarkSplit.ZeroUnkeyed | scripts/publish_all_recoverable_third_term_exams_20260701.py:195-220 | the loop leaves the marks alone without a key, and otherwise scatters the split over the keyed places with zeros elsewhere |
| MarkSplit.KeyedMarksAreExact | scripts/publish_all_recoverable_third_term_exams_20260701.py:195-220 | for every keyed subset that is not empty the marks sum to exactly 2000 cents |
| MarkSplit.AllKeyed | scripts/repair_priority_math_papers_20260703.py:398-404 | with every question keyed the two scripts give the same marks |
| ExamRebuild.Exam.Rebuild | scripts/finalize_third_term_all_papers_20260702.py:733-778 | refuses attempted exams; otherwise succeeds exactly when every link in the parking area is a theory link not behind the one whose place it takes and the new questions fit below the area, and then leaves objectives 1 to n and theory behind them in their old order |
| ExamRebuild.Exam.Renumber | scripts/finalize_third_term_all_papers_20260702.py:741-743 | saving links one by one keeps orders unique at every step and succeeds if and only if every link on the new numbers is one of the links, not behind the one that gets its number |
| ExamRebuild.Exam.DeleteLinks | scripts/finalize_third_term_all_papers_20260702.py:719-722 | deletes the links and exactly those of their questions that no other exam links |
| ExamRebuild.Exam.CreateObjectives | scripts/finalize_third_term_all_papers_20260702.py:749-774 | creates the questions on 1 to n with their marks and keys, and succeeds if and only if those places are free |
| ExamRebuild.Exam.InOrder | scripts/finalize_third_term_all_papers_20260702.py:736-740 | the links asked for, each once, by increasing order |
| ExamRebuild.RebuiltState | scripts/finalize_third_term_all_papers_20260702.py:733-778 | filling a parked exam and bringing the theory back gives the end state |
| ExamRebuild.ParkedAgain | scripts/finalize_third_term_all_papers_20260702.py:741-743 | theory links that are all above 10000 can be parked exactly when no other link stands in the parking area |
| ExamRebuild.MixedTheoryBlocks | apps/cbt/models.py:580-591 | theory links on 5 and 10001 cannot be parked: the second stands on the place of the first |
| ExamRebuild.RebuiltMarks | scripts/finalize_third_term_all_papers_20260702.py:749-774 | in a rebuilt exam the objective links stand on 1 to n, their marks total exactly twenty, and each new question has the stem, options and marks of its place and is keyed to one of its own options, the one its row names |
| HistoricalScores.ParseRows | scripts/import_historical_term_results.py:228-307 | the row loop uses up a line in every turn that does not stop, and returns the rows and issues of the table function |
| HistoricalScores.RowsReconcile | scripts/import_historical_term_results.py:253-289 | every stored row adds up to its printed total within 0.05 or its difference is among the issues, in all three token cases |
| HistoricalScores.RoundTrip | scripts/import_historical_term_results.py:228-303 | a printed table of records with four or more numbers comes back row by row, up to the stop line |
| HistoricalScores.StoredScoresAddUp | scripts/import_historical_term_results.py:410-443 | objective and theory marks always make up the exam mark within their bounds, and the parts make up the printed total unless that was reported |
| AssignmentBackfill.Assignments.Backfill | scripts/import_historical_term_results.py:447-498 | one pass is a run of turns over the sheets; it creates exactly the missing assignments of taught subjects, with teachers of the class in a later term or else of the latest term the subject was taught in before the pass, and counts the rest |
| AssignmentBackfill.Assignments.Source | scripts/import_historical_term_results.py:463-488 | the source of one sheet by the three rules in turn, none exactly when nobody teaches the subject |
| AssignmentBackfill.ResolvedExactly | scripts/import_historical_term_results.py:447-498 | after a pass a sheet has an assignment if and only if its subject was taught in the session |
| AssignmentBackfill.OrderDoesNotMatter | scripts/import_historical_term_results.py:447-498 | the created keys and the unresolved count do not depend on the order of the sheets |
| AssignmentBackfill.ClassTeacherWins | scripts/import_historical_term_results.py:464-481 | when the class itself had a later teacher, the created teacher does not depend on the order either |
| AssignmentBackfill.TeacherSettledExactly | scripts/import_historical_term_results.py:447-498 | the teacher of a created assignment is the same in every run over the sheets, in two orders and with any choice among sources that tie, if and only if the class had a later teacher or all latest assignments of the subject have one teacher |
| AssignmentBackfill.RunWith | scripts/import_historical_term_results.py:463-498 | for each latest assignment of a subject some run gives its teacher to every created assignment of the subject in a class without a later teacher |
| AssignmentBackfill.TwoTeachersDiffer | scripts/import_historical_term_results.py:482-488 | one table that leaves it open: with two teachers of the subject in its latest term, one run ends with either |
| AssignmentBackfill.SecondPassIdle | scripts/import_historical_term_results.py:447-498 | a second pass over the same sheets, in any order, creates nothing |

## Left out

- Django models, transactions and roll-back, storage, HTTP, signatures, PDF and document decoding: in-memory tables, maps and sequences stand for them.  After a failed rebuild the database rolls back; the model keeps the state at the failing write.
- Characters outside ASCII as digits, word characters or upper and lower case letters in regular expressions, the mojibake alternatives of the answer markers, and the Python-only case folds of two letters.
- Markers.FindAllOrdered: the expressions are matchers written by hand for the shapes they have; a general expression engine is not modelled.
- The plain-option parser (scripts/import_ca23_third_term_20260624.py:288-323), the choice among parsers by row count, and the Igbo parser: further parsers of the same shape.
- YorubaPaper.ParseYoruba: the search for the objective and theory sections in the document (scripts/import_third_term_exams_20260629.py:363-388) is an input.
- NormalizeRows.NormalizeKeys: what the expressions find is an input here; AnswerSlots.FoundIn computes it from the text.  The order in which a row lists its options stays an input.
- DocxShapes.ParseDocument: the HTML of stems is not kept with the rows; RichSlices models how it is rendered.
- DocxRows.Parser.Parse: likewise.
- DocxExact.RoundTripExactly: rows are compared with the paragraphs they were made from, which the script does not keep.
- The parser for text overrides (scripts/import_thursday_ca.py:283-487) and the underline tags inside them.
- SqlTuple.RoundTrip: the expression that cuts a dump into tuples is not modelled; it starts from one chunk.
- AnswerInference.InferCorrectIndex: clean-up of HTML, signatures and word sets are inputs; the weights, ranking and margin are modelled.
- `stable_options` and the SQL half of the practice bank (scripts/rebuild_jamb_review_bank.py:282-366): the correct text is put first there, and the linking repeats AnswerBank.
- ManualUpdates.Receiver.Apply: an upsert replaces the row with its key; the merging of score rows and sheets inside the sync service is not part of this model.
- Replication.ReplicationSafe: timestamps are integers, each save stamps a fresh one in every table but that of the users, and deletions are not propagated by the code.
- ManualUpdates.NormalizedChannels: requested names are taken trimmed, in lower case and not empty.
- RateLimit.QuotaBound: choosing the rule and the identity of a request is not modelled; one key is followed, since other keys are not touched.
- ExamRebuild.Exam.Rebuild: rich stems, topics and snapshots of questions are not kept; the second script of the same scheme parks a single theory link on 1000 and is not repeated.
- HistoricalScores.ParseRows: finding the table header, the column titles and the rounding of decimals are inputs.
- Matching students and subjects of historical results, and the school's hard-coded corrections, manifests and timetables: finite data.
- AI fallback parsing, upload scanning, reports, certificates, metrics and load scripts.

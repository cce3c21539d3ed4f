# Quizfuze core in Dafny

This project models four parts of the Quizfuze study app and proves properties of them.

The main part is the **Learn-mode session store** (`apps/next/src/stores/use-learn-store.ts`). It is a one-learner state machine over a list of terms:

- grading moves a term between unstudied (0), familiar (1), mastered (2) and missed (-1);
- each round is built from four priority tiers, cut at the round capacity;
- each question offers a shuffled list of choices, made of the term and its distractors;
- answers grow or shrink the round timeline, advance the cursor, and end in a round summary or in completion.

The other three parts are small rules inside I/O-heavy request handlers:

- which of a folder's study sets a viewer may see (`src/server/api/routers/folders.ts`);
- the Quizlet URL import: the set id from the path, paged download, card-side parsing and rank numbering (`src/server/api/routers/import.ts`);
- the bulk flashcard import endpoint: batches of 50, password and size guards, the card-to-term mapping, and stopping at the first failure (`apps/next/src/pages/api/import.ts`).

## Layout

| file | module | contents |
|---|---|---|
| `common.dfy` | `Common` | `Option`, `Result`, `Outcome`. JavaScript-style `filter` and `slice`, and subsequences. |
| `learn_model.dfy` | `LearnModel` | Terms, distractors, questions, the three grading updates and the counts over terms. |
| `round_scheduler.dfy` | `RoundScheduler` | Tiers, the round's selection, and stamping of `appearedInRound`. |
| `choice_builder.dfy` | `ChoiceBuilder` | Distractor lookup and padding, choice lists, and `initialize`'s default distractors. |
| `learn_session.dfy` | `LearnSession` | The session as a value (`Session`), with one function per transition and its invariants. |
| `learn_store.dfy` | `LearnStore` | The store as a class (`Store`). Each method is proved to follow the matching `LearnSession` function. |
| `folders.dfy` | `Folders` | Study-set visibility and the folder `get` query. |
| `quizlet_import.dfy` | `QuizletImport` | Path splitting, pagination, parsing and ranks. |
| `flashcard_import.dfy` | `FlashcardImport` | Batching, `importFlashcards`, `handleImport` and the endpoint. |

### How the store is modelled

- The store keeps its terms in a sequence. A question holds the *index* of its term, not a copy.
  - The source mutates term objects shared between `studiableTerms` and the timeline (`active.term.correctness = …`).
  - With indices, a grading through the timeline is seen by the term list, as in the source while the timeline's questions were built from the current list (see `LearnStore.Store.Initialize` under "## Left out" for the one state where they were not).
- The one-second timer in `answerCorrectly` is an explicit second step, `FinishCorrectAnswer`.
- Randomness is nondeterministic choice.
  - `shuffleArray` becomes "some sequence with the same multiset of elements".
  - The `Math.random()` answer mode becomes "either `Definition` or `Word`".
  - The contracts hold for every outcome.
- Two source behaviours become an explicit `Fail` outcome:
  - a `TypeError` from reading a question that is not there;
  - the "No round information" exception.
  The Left out section says what state each failure leaves.

### Behaviours of the code worth knowing

Five behaviours of the store are easy to miss when reading it. The model keeps each of them:

1. A cooled-down familiar term is listed in two tiers, so the selection can hold it twice. See `RoundScheduler.CooledTermTwice` and `RoundScheduler.CooledFamiliarSelection`.
2. With four or more matching distractors, shuffle-then-slice can drop the term itself from its own choices (`ChoiceBuilder.TargetMayBeCut`). The term is guaranteed among its choices only with at most three distractors (`ChoiceBuilder.TargetSurvives`).
3. The last question of a round is detected by `roundProgress == termsThisRound - 1`, not by the cursor. Inside a round where every wrong answer is re-queued, the two tests agree (`LearnSession.BalancedCursor`).
4. A correct answer to a choice question always sets the term to familiar, even when it was familiar already. Every round question is a choice question, so correct answers alone never master a term: only contesting a miss does (`LearnSession.ChoiceCorrectNeverMasters`).
5. A term given no distractors is padded in `initialize` with distractors of the configured mode. When that mode is `Both`, these never match a question's resolved mode (`ChoiceBuilder.BothPaddingNeverMatches`). Such questions are padded from the whole term list instead.

## Model

| member | source | states |
|---|---|---|
| LearnModel.GradeCorrect | apps/next/src/stores/use-learn-store.ts:160-165 | A correct answer sets only the active term's correctness: familiar for a choice question, mastered otherwise. Its miss count and every other term are unchanged. |
| LearnModel.GradeIncorrect | apps/next/src/stores/use-learn-store.ts:184-190 | An acknowledged miss sets the active term to missed and adds exactly one to its miss count. Every other term is unchanged. |
| LearnModel.GradeOverride | apps/next/src/stores/use-learn-store.ts:197-200 | A contested miss masters the active term whatever the question kind. Every other term is unchanged. |
| LearnModel.MasteredCount | apps/next/src/stores/use-learn-store.ts:217-220 | The mastered count is at most the term count. It equals the term count exactly when every term is mastered. |
| LearnModel.StudiedCount | apps/next/src/stores/use-learn-store.ts:234-235 | The count is exactly the number of positions whose term is not unstudied. So it equals the term count iff no term is unstudied, and is 0 iff every term is. |
| LearnModel.MasteredCountUpdate | apps/next/src/stores/use-learn-store.ts:217-220 | Overwriting one term with a non-mastered value never raises the mastered count. |
| RoundScheduler.TierUpTo | apps/next/src/stores/use-learn-store.ts:293-312 | A tier lists exactly the terms that belong to it, each once, in list order. |
| RoundScheduler.Candidates | apps/next/src/stores/use-learn-store.ts:293-316 | Every candidate is a real term that is missed, unstudied or familiar. Every such term is a candidate. |
| RoundScheduler.Selection | apps/next/src/stores/use-learn-store.ts:309-317 | The round holds at most K entries, each a real term that is not mastered. |
| RoundScheduler.Stamped | apps/next/src/stores/use-learn-store.ts:319-321 | Stamping keeps the list's length, and every term's content, correctness and miss count. |
| RoundScheduler.SelectionBounds | apps/next/src/stores/use-learn-store.ts:309-317 | The round has min(K, number of candidates) entries. Each names a real term that is missed, unstudied or familiar. A term listed twice is familiar, so missed and unstudied terms never repeat. |
| RoundScheduler.RepeatIsFamiliar | apps/next/src/stores/use-learn-store.ts:293-316 | Two positions of the candidate list that name the same term name a familiar term. Every other tier lists a term once and shares no term with the others. |
| RoundScheduler.MissedFirst | apps/next/src/stores/use-learn-store.ts:309-317 | Every missed term of the round comes before every term of the round that is not missed. |
| RoundScheduler.MissedHavePriority | apps/next/src/stores/use-learn-store.ts:309-317 | A missed term is left out only when the round is full and made entirely of missed terms. |
| RoundScheduler.FillerComesLast | apps/next/src/stores/use-learn-store.ts:309-317 | A familiar term still in its cool-down is chosen only after every missed, cooled-down and unstudied term. |
| RoundScheduler.EmptyRound | apps/next/src/stores/use-learn-store.ts:309-317 | The round is empty iff K is 0 or no term is missed, unstudied or familiar. |
| RoundScheduler.CooledTermTwice | apps/next/src/stores/use-learn-store.ts:309-317 | A concrete list: one cooled-down familiar term with K = 2 gives the round [0, 0]. |
| RoundScheduler.AllUnstudiedSelection | apps/next/src/stores/use-learn-store.ts:309-317 | With every term unstudied, the round is the first K terms in list order. |
| RoundScheduler.UncooledFamiliarSelection | apps/next/src/stores/use-learn-store.ts:309-317 | With every term familiar and none cooled down, the round is again the first K terms in list order. |
| RoundScheduler.CooledFamiliarSelection | apps/next/src/stores/use-learn-store.ts:309-317 | With every term familiar and cooled down, and K at least twice the term count, the round lists every term twice. |
| RoundScheduler.WholeSelection | apps/next/src/stores/use-learn-store.ts:309-317 | When K is at least the number of candidates, the round is every candidate, in tier order. |
| RoundScheduler.StampedEffect | apps/next/src/stores/use-learn-store.ts:319-321 | Stamping sets appearedInRound to the round exactly for selected unstudied terms. Nothing else changes. |
| RoundScheduler.StampedStep | apps/next/src/stores/use-learn-store.ts:319-321 | Stamping one more selected entry stamps that term if it is unstudied and changes nothing else. |
| RoundScheduler.StampedKeepsRoundInfo | apps/next/src/stores/use-learn-store.ts:303-321 | If every studied term knows its first round, it still does after stamping, and so does every selected term. |
| RoundScheduler.ConsistentNeverLacks | apps/next/src/stores/use-learn-store.ts:303-307 | If every studied term knows its first round, the "No round information" error cannot occur. |
| ChoiceBuilder.DistractorIds | apps/next/src/stores/use-learn-store.ts:331-333 | An id is listed iff some recorded distractor of the resolved mode names it. |
| ChoiceBuilder.Distractors | apps/next/src/stores/use-learn-store.ts:334-343 | Three or more recorded distractors are kept as they are. Fewer are kept in front. They are followed by exactly the first 3 − (recorded) entries of allTerms that are neither the term nor recorded, in list order. |
| ChoiceBuilder.WithDefaultDistractors | apps/next/src/stores/use-learn-store.ts:112-126 | A term with distractors is unchanged. A term without gets min(3, number of other terms) distractors, each of the configured mode. They point at the first other terms of allTerms, in list order. |
| ChoiceBuilder.ChoiceCount | apps/next/src/stores/use-learn-store.ts:345-347 | A question has between 1 and 4 choices, and at most one more than it has distractors. |
| ChoiceBuilder.ShufflePrefixIsChoiceList | apps/next/src/stores/use-learn-store.ts:345-347 | The first min(4, distractors + 1) entries of any shuffle of the term and its distractors form a valid choice list. |
| ChoiceBuilder.TargetSurvives | apps/next/src/stores/use-learn-store.ts:345-347 | With at most 3 distractors, the choices are a permutation of the term and its distractors, so the term is among them. |
| ChoiceBuilder.TargetMayBeCut | apps/next/src/stores/use-learn-store.ts:345-347 | A concrete term with 4 matching distractors has a valid choice list without the term itself. |
| ChoiceBuilder.ChoicesDistinct | apps/next/src/stores/use-learn-store.ts:331-347 | If allTerms has distinct ids and the term is not its own distractor, no two choices share an id. |
| ChoiceBuilder.DistractorsDistinct | apps/next/src/stores/use-learn-store.ts:331-343 | If allTerms has distinct ids, so do the question's distractors, recorded and padded alike. |
| ChoiceBuilder.DistractorsAvoidTarget | apps/next/src/stores/use-learn-store.ts:331-343 | A term that is not its own recorded distractor is never among its distractors, since padding skips the term itself. |
| ChoiceBuilder.AllRecorded | apps/next/src/stores/use-learn-store.ts:331-343 | When each of three or more entries of allTerms is recorded as a distractor of the resolved mode, the distractors are exactly allTerms, in order. |
| ChoiceBuilder.BothPaddingNeverMatches | apps/next/src/stores/use-learn-store.ts:112-122 | Default distractors given in `Both` mode never match a question's resolved mode. |
| LearnSession.Dedup | apps/next/src/stores/use-learn-store.ts:231-233 | The summary's term list has no repeats and holds exactly the timeline's terms. |
| LearnSession.EndQuestion | apps/next/src/stores/use-learn-store.ts:215-251 | Exactly one of three outcomes: (1) every term mastered gives completion and hasMissedTerms; (2) the round's last question gives a deduplicated summary whose progress is exactly the number of terms not unstudied, and whose total is the term count; (3) otherwise the cursor moves on and progress counts a correct answer. |
| LearnSession.AnswerCorrectly | apps/next/src/stores/use-learn-store.ts:153-158 | The terms, the timeline and the cursor are unchanged, so well-formedness and the active question are kept. The status is correct and no miss is pending. |
| LearnSession.FinishCorrectAnswer | apps/next/src/stores/use-learn-store.ts:160-168 | The session stays well formed and the timeline is unchanged. Only the active term is regraded: familiar after a choice question, mastered otherwise. |
| LearnSession.AnswerIncorrectly | apps/next/src/stores/use-learn-store.ts:170-183 | The active question is appended exactly once iff progress is not on the round's last question. The terms are unchanged. |
| LearnSession.AcknowledgeIncorrect | apps/next/src/stores/use-learn-store.ts:184-193 | The session stays well formed and the timeline is unchanged. Only the active term is regraded: it becomes missed and its miss count grows by one. A miss never completes the session. |
| LearnSession.OverrideCorrect | apps/next/src/stores/use-learn-store.ts:197-214 | The active term becomes mastered with its miss count kept, and no other term changes. The last timeline entry is removed exactly under the condition under which a miss re-queued it. No miss is pending afterwards, and the session stays well formed. |
| LearnSession.CorrectFromUnknown | apps/next/src/stores/use-learn-store.ts:253-266 | The session stays well formed, the timeline is unchanged and no miss is pending. Only the active term is regraded, as a correct answer grades it. |
| LearnSession.IncorrectFromUnknown | apps/next/src/stores/use-learn-store.ts:267-288 | The active question is appended iff progress is not on the round's last question. Only the active term is regraded: missed, with one more miss. A miss is pending, and the session is not completed by it. |
| LearnSession.IsNextRound | apps/next/src/stores/use-learn-store.ts:289-376 | The specification of `nextRound`: the selected terms stamped, one legal choice question per selected term in selection order, the round counters reset, and completion iff the round is empty. Its consequences are `NextRoundFacts`. |
| LearnSession.Prepared | apps/next/src/stores/use-learn-store.ts:128-146 | `initialize`'s first update stores the padded terms and their count, and keeps the timeline. |
| LearnSession.BalancedCursor | apps/next/src/stores/use-learn-store.ts:227 | Inside a balanced round a question is at the cursor, and progress is on the last question iff the cursor is on the last entry. |
| LearnSession.CorrectAnswerKeepsBalance | apps/next/src/stores/use-learn-store.ts:153-168 | A correct answer and its deferred step keep the round balanced: the cursor and progress both advance, or the round ends, or the session completes. |
| LearnSession.WrongAnswerKeepsBalance | apps/next/src/stores/use-learn-store.ts:170-193 | A wrong, acknowledged answer keeps the round balanced. It re-queues the question unless it was the round's last; the cursor moves but progress does not. |
| LearnSession.ContestedAnswerKeepsBalance | apps/next/src/stores/use-learn-store.ts:197-214 | A wrong answer, then contested, counts as correct and leaves the timeline as it was before the miss. |
| LearnSession.UnknownThenCorrectKeepsBalance | apps/next/src/stores/use-learn-store.ts:253-266 | "Don't know", then marked right, counts as a correct answer and keeps the round balanced. |
| LearnSession.UnknownThenWrongKeepsBalance | apps/next/src/stores/use-learn-store.ts:267-288 | "Don't know", then marked wrong, counts as an acknowledged miss and keeps the round balanced. |
| LearnSession.NextRoundFacts | apps/next/src/stores/use-learn-store.ts:289-375 | A new round: round number +1 unless first; at most K questions, each a choice question with 1 to 4 choices; completed iff empty; otherwise starts balanced; round information stays consistent. |
| LearnSession.NextRoundShape | apps/next/src/stores/use-learn-store.ts:289-376 | The round number, the round size bounded by K, completion iff the round is empty, and a balanced start for a non-empty round. |
| LearnSession.NextRoundQuestions | apps/next/src/stores/use-learn-store.ts:323-357 | Every question of a new round is a choice question with one to four choices. |
| LearnSession.NextRoundConsistent | apps/next/src/stores/use-learn-store.ts:319-321 | A new round keeps every studied term's first round, and every question's term has one. |
| LearnSession.RegradeKeepsConsistent | apps/next/src/stores/use-learn-store.ts:160-190 | Regrading a term that knows its first round keeps every studied term's round information. |
| LearnSession.CorrectKeepsConsistent | apps/next/src/stores/use-learn-store.ts:160-168 | The deferred correct-answer step keeps round information consistent. |
| LearnSession.IncorrectKeepsConsistent | apps/next/src/stores/use-learn-store.ts:170-193 | A miss and its acknowledgement keep round information consistent. |
| LearnSession.OverrideKeepsConsistent | apps/next/src/stores/use-learn-store.ts:197-214 | A contested miss keeps round information consistent. |
| LearnSession.UnknownKeepsConsistent | apps/next/src/stores/use-learn-store.ts:253-288 | Both self-gradings after "don't know" keep round information consistent. |
| LearnSession.FreshSessionHasRoundInfo | apps/next/src/stores/use-learn-store.ts:303-307 | A session whose terms all arrive unstudied can always build its first round. |
| LearnSession.ChoiceCorrectNeverMasters | apps/next/src/stores/use-learn-store.ts:160-165 | A correct answer to a choice question leaves its term familiar and never raises the mastered count. |
| LearnStore.Store.constructor | apps/next/src/stores/use-learn-store.ts:63-78 | A new store holds the default properties. |
| LearnStore.Store.Initialize | apps/next/src/stores/use-learn-store.ts:84-152 | Stores the padded terms, then builds the first round without advancing the round number. It fails, keeping the stored terms, iff a familiar term lacks round information. |
| LearnStore.Store.NextRound | apps/next/src/stores/use-learn-store.ts:289-376 | Fails with no change iff a familiar term lacks round information. Otherwise the new state is a next round of the old one, and well formed when the term count matched the list. |
| LearnStore.Store.Load | apps/next/src/stores/use-learn-store.ts:128-146 | `initialize`'s first update: it sets the configuration, the padded terms, their count and the round, and changes nothing else. |
| LearnStore.Store.StartRound | apps/next/src/stores/use-learn-store.ts:361-374 | `nextRound`'s update: the new timeline with its cursor and progress at zero, no summary, answer or status. The round is complete iff it is empty. The missed flag and the round number are as given. |
| LearnStore.Store.SetTimeline | apps/next/src/stores/use-learn-store.ts:362-366 | The timeline part of `nextRound`'s update. Nothing else changes. |
| LearnStore.Store.ClearAnswers | apps/next/src/stores/use-learn-store.ts:361-373 | The answer part of `nextRound`'s update. Nothing else changes. |
| LearnStore.Store.StampSelected | apps/next/src/stores/use-learn-store.ts:319-321 | The in-place stamping loop yields the stamped term list and changes nothing else. |
| LearnStore.Store.BuildTimeline | apps/next/src/stores/use-learn-store.ts:323-357 | One choice question per selected term, in selection order. |
| LearnStore.Store.BuildQuestion | apps/next/src/stores/use-learn-store.ts:324-356 | The question's mode is legal for the configured mode. Its choices are a prefix of a shuffle of the term and its distractors. |
| LearnStore.Store.AnswerCorrectly | apps/next/src/stores/use-learn-store.ts:153-158 | Only the answer, the status and the previous-answer flag change. |
| LearnStore.Store.FinishCorrectAnswer | apps/next/src/stores/use-learn-store.ts:160-168 | Grades the active term and ends the question. It fails, with no change, iff no question is at the cursor. |
| LearnStore.Store.AnswerIncorrectly | apps/next/src/stores/use-learn-store.ts:170-183 | Follows `LearnSession.AnswerIncorrectly`. It fails, with no change, iff no question is at the cursor while the round is not on its last question. |
| LearnStore.Store.AcknowledgeIncorrect | apps/next/src/stores/use-learn-store.ts:184-193 | Records the miss and ends the question. It fails, with no change, iff no question is at the cursor. |
| LearnStore.Store.AnswerUnknownPartial | apps/next/src/stores/use-learn-store.ts:194-196 | Only the status changes. |
| LearnStore.Store.OverrideCorrect | apps/next/src/stores/use-learn-store.ts:197-214 | The new state is `LearnSession.OverrideCorrect` of the old one: the active term is mastered with its miss count kept, no other term changes, the re-queued question is withdrawn, the question ends as correct and no miss is pending. It fails, with no change, iff no question is at the cursor. |
| LearnStore.Store.EndQuestion | apps/next/src/stores/use-learn-store.ts:215-252 | Follows `LearnSession.EndQuestion` and keeps the store well formed. |
| LearnStore.Store.Complete | apps/next/src/stores/use-learn-store.ts:220-225 | The session becomes complete with the given missed flag. Nothing else changes. |
| LearnStore.Store.ShowSummary | apps/next/src/stores/use-learn-store.ts:227-240 | The given round summary is shown and the status cleared. Nothing else changes. |
| LearnStore.Store.Advance | apps/next/src/stores/use-learn-store.ts:242-250 | The cursor moves one on. Progress grows by one iff the answer was correct. The answer and status are cleared, and nothing else changes. |
| LearnStore.Store.KeepTimeline | apps/next/src/stores/use-learn-store.ts:209-212 | `overrideCorrect`'s returned update: the trimmed timeline, with no previous miss. Nothing else changes. |
| LearnStore.Store.CorrectFromUnknown | apps/next/src/stores/use-learn-store.ts:253-266 | Sets the answer, grades correct and ends the question. With no question at the cursor, only its first update happens. |
| LearnStore.Store.IncorrectFromUnknown | apps/next/src/stores/use-learn-store.ts:267-288 | Sets the answer, re-queues as a miss does, records the miss and ends the question. It fails, with no change, iff no question is at the cursor. |
| Folders.VisibleSets | src/server/api/routers/folders.ts:63-77 | The visible sets are an order-preserving subsequence of the folder's sets, holding exactly those the viewer may see. |
| Folders.CanSee | src/server/api/routers/folders.ts:64-77 | The visibility rule for one set. `VisibilityRules` states it case by case. |
| Folders.VisibilityRules | src/server/api/routers/folders.ts:64-77 | Public is always visible. Unlisted is visible iff the viewer owns the set or the folder. Private is visible iff the viewer owns the set. Any other value is not visible. |
| Folders.FolderOwnerCannotSeeOthersPrivate | src/server/api/routers/folders.ts:72-74 | Owning the folder does not reveal another user's private set. |
| Folders.OwningOnlyWidens | src/server/api/routers/folders.ts:62-77 | What a viewer sees in someone else's folder is a subsequence of what they would see as its owner. |
| Folders.GetFolder | src/server/api/routers/folders.ts:15-104 | NOT_FOUND iff the user or the folder is missing. FORBIDDEN, with its message, iff the folder has sets and none is visible. Otherwise the folder's title, description, owner view and the visible sets in order. |
| Folders.EmptyFolderIsVisible | src/server/api/routers/folders.ts:79-84 | An empty folder is returned, not refused. |
| Folders.PublicSetPreventsRefusal | src/server/api/routers/folders.ts:65-84 | A folder holding a public set is never refused. |
| QuizletImport.Split | src/server/api/routers/import.ts:28 | `split("/")` returns at least one piece, no piece holds the separator, and joining the pieces gives back the string. |
| QuizletImport.SetIdFromPath | src/server/api/routers/import.ts:27-32 | The id is a non-empty path segment without `/`. Otherwise the result is "Malformed URL". |
| QuizletImport.SetIdRoundTrip | src/server/api/routers/import.ts:27-32 | `/<id>` and `/<id>/<rest>` both yield the id back. |
| QuizletImport.EmptyFirstSegmentRefused | src/server/api/routers/import.ts:28-31 | `/` and any path starting with `//` are refused as malformed. |
| QuizletImport.MorePages | src/server/api/routers/import.ts:52-63 | No request is made after a page shorter than 100 items. The first further request carries the page number and the last token. |
| QuizletImport.PagesCount | src/server/api/routers/import.ts:50-54 | Later requests ask for consecutive page numbers, starting at 2. |
| QuizletImport.NextRequestFollowsFullPage | src/server/api/routers/import.ts:52-62 | A request after the first is made only after a response with a page of at least 100 items, not ended by error 410, and it carries that page's token. |
| QuizletImport.FetchAll | src/server/api/routers/import.ts:36-63 | A first response without pages is "Something went wrong while importing.". Otherwise the items are page 1 followed by the later pages, and the request log matches. |
| QuizletImport.FirstIndex | src/server/api/routers/import.ts:78-79 | `find` returns the first side carrying the label, or nothing iff no side carries it. |
| QuizletImport.ParseItems | src/server/api/routers/import.ts:76-90 | Fails iff some item has no card sides. Otherwise parsed plus skipped equals the item count. |
| QuizletImport.ParseItem | src/server/api/routers/import.ts:77-89 | An item breaks the parse iff it has no card sides. A skipped item gives its own rank. A parsed term is the first media text of the first word side and of the first definition side. |
| QuizletImport.EveryItemAccounted | src/server/api/routers/import.ts:76-90 | Every item's term is among the parsed terms, and every skipped item's rank is among the skipped ranks. |
| QuizletImport.ParseAll | src/server/api/routers/import.ts:76-90 | The loop, with `continue`, computes `ParseItems`. |
| QuizletImport.ParsedTermsInOrder | src/server/api/routers/import.ts:81-89 | The parsed terms and the skipped ranks are those the items yield, each in item order. |
| QuizletImport.ItemSkipRule | src/server/api/routers/import.ts:77-84 | An item is skipped iff its word side or definition side, or that side's first media, is missing. The skipped rank is the item's own. |
| QuizletImport.Ranked | src/server/api/routers/import.ts:105-110 | Saved term i has rank i and the word and definition of parsed term i. |
| QuizletImport.ImportFromUrl | src/server/api/routers/import.ts:26-127 | The whole mutation: malformed path, failed first page, no card sides at all, an item without sides, or the ranked parsed terms. |
| FlashcardImport.AssetUrl | apps/next/src/pages/api/import.ts:65 | The asset URL is null iff the source image is absent or empty. Otherwise it is the source image. |
| FlashcardImport.TermsToCreate | apps/next/src/pages/api/import.ts:62-67 | One term per card with its word, its definition, its asset URL and rank = its index. |
| FlashcardImport.ImageIgnored | apps/next/src/pages/api/import.ts:62-67 | A card's `image` field has no effect on the created terms. |
| FlashcardImport.Batches | apps/next/src/pages/api/import.ts:131-134 | Concatenating the batches gives the sets in order. Each batch has 1 to 50 sets, and all but the last exactly 50. |
| FlashcardImport.RunAll | apps/next/src/pages/api/import.ts:55-93 | A run never records more sets than it was given. |
| FlashcardImport.ImportStep | apps/next/src/pages/api/import.ts:55-92 | A failed run is left alone. Otherwise at most one set is recorded after the earlier ones. A failure names this set. A success records this set with its terms. |
| FlashcardImport.RunAllAppend | apps/next/src/pages/api/import.ts:55-93 | Importing a then b, not starting b if a failed, is the same as importing a + b in one run. |
| FlashcardImport.RunStopsAtFirstFailure | apps/next/src/pages/api/import.ts:55-93 | The run fails with the first failing set's title, and nothing after that set is written. |
| FlashcardImport.AllWritten | apps/next/src/pages/api/import.ts:55-93 | When every write succeeds, the run succeeds and records each set with its terms, in order. |
| FlashcardImport.ImportFlashcards | apps/next/src/pages/api/import.ts:43-96 | A wrong password is refused first, then more than 50 sets. Otherwise the sets are imported in order until the first failure, with its message. |
| FlashcardImport.HandleImport | apps/next/src/pages/api/import.ts:99-106 | A thrown error becomes success false with its message. Normal completion becomes success true. |
| FlashcardImport.ImportBatches | apps/next/src/pages/api/import.ts:136-142 | Batch by batch, until the first failing batch, is the same as one run over all the sets. |
| FlashcardImport.Handler | apps/next/src/pages/api/import.ts:110-158 | Non-POST gives 405. An invalid body gives 400. Otherwise 500 with the first failure's message or 200, and exactly the sets of one ordered run are written. |
| FlashcardImport.ExpectedResponse | apps/next/src/pages/api/import.ts:110-158 | 405 iff the method is not POST. A JSON response succeeds iff its status is 200. The status is 200 iff the body is valid and either has no sets, or the password matches and no set fails. |
| FlashcardImport.TooManyNeverReported | apps/next/src/pages/api/import.ts:49-51 | The endpoint never answers with the "more than 50" message. |
| FlashcardImport.EmptyImportIgnoresPassword | apps/next/src/pages/api/import.ts:131-144 | An empty set list succeeds with any password, because no batch runs. |
| FlashcardImport.WrongPasswordRefused | apps/next/src/pages/api/import.ts:44-46 | A wrong password with at least one set gives 500 with the password message. |

## Left out

- `specialCharacters` in `initialize`: it depends on a regular expression and a `word` helper that are not part of this model. It is never read by the modelled transitions.
- Distractor record ids and dates, `console.log`, `setFeedbackBank` and the feedback bank, and the React context and zustand plumbing: these are storage or logging and have no effect on the session's logic.
- The one-second timer in `answerCorrectly`: it becomes the separate step `LearnStore.Store.FinishCorrectAnswer`, called explicitly. Races between the timer and other actions are not modelled.
- `shuffleArray` and `Math.random`: each is an arbitrary choice. The model proves its contracts for every outcome and makes no claim about distribution.
- `Initialize` builds the padded term list with a sequence comprehension rather than a loop, as the source uses `map`.
- `LearnStore.Store.AnswerIncorrectly`: with no question at the cursor and the round not on its last question, the source appends `undefined` to the timeline. The model refuses with `NoActiveQuestion` and changes nothing, because a timeline entry must be a question. On the last question the source reads no question, and the model then records the answer as the source does.
- `LearnStore.Store.IncorrectFromUnknown`: with no question at the cursor, the source's first update still happens before the `TypeError`. The model refuses, with no change, for the same reason.
- `LearnStore.Store.Initialize`: when the first round cannot be built, the old timeline stays. It may then name terms the new list no longer has, so the store's well-formedness is promised only on success. In that state the source's old questions still point at the old term objects, which `map` replaced, so a later grading through them changes none of the new terms while `endQuestionCallback` counts over the new list. The model's questions hold indices instead, so, where an old index is still in range, the same grading changes the new term at that position.
- The store's methods require the store to be well formed: the term count matches the list and every question names a term of the list. The constructor and `Initialize` (on success) establish this, and every answer transition keeps it. `LearnStore.Store.NextRound` does not require it, because `initialize` calls it before the old timeline is replaced. It promises well-formedness after a successful round when the term count matches the list beforehand.
- `LearnStore.Store.constructor`: `createLearnStore(initProps)` spreads optional initial properties over the defaults. The model covers only the call without them, because the initial properties may be any partial store and no caller of it is part of this model.
- Folder and user lookups, and the `create` mutation with `slugify`: these are database calls or a foreign library. The lookups' results are inputs to `Folders.GetFolder`.
- Input validation with zod (username pattern, URL pattern, body schema): a request body that fails validation is `None`. The URL's pathname is given directly, without URL parsing.
- `QuizletImport.FetchAll`: the network is a finite list of later responses. When the list runs out the download stops without a further request, whereas the source would keep requesting while pages are full. The response for a request does not depend on its page number or token.
- The auto-save upsert, its `nanoid` ids and its fixed title, description, tags and visibility: `QuizletImport.ImportFromUrl` returns the ranked terms it would write.
- `generateSetId`, the database writes, `$connect`/`$disconnect`, the fixed owner id, description and visibility of created sets: the outcome of each set's two writes is a function `write` of the set. A set whose term writes fail is recorded with no terms.
- `IMPORT_PASSWORD` is the parameter `expected`; `None` stands for an unset variable, which every password fails.
- The 400 response carries the boolean `true` as its message, as the source's `error instanceof Error` does (`Message.Flag`).

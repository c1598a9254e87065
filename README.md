# Frequency tuning questionnaire — a Dafny model

This project models the questionnaire pipeline of the frequency-portal web
app. A user picks some of the seven life domains. The app then picks questions
from a fixed catalog of thirty-four: the general ones, plus those tied to a
picked domain. It shuffles them within each of the six notes and interleaves
the notes round by round. It records one answer per question, and turns the
answers into a resonance value per note and an overall vibrancy. The results
page shows each value with a label and a colour intensity.

The modules follow the source files:

| file | module | models |
|---|---|---|
| `types.dfy` | `Types` | the enumerations, the records and the note and domain tables of `src/types/index.ts` |
| `catalog.dfy` | `Catalog` | the question catalog of `src/lib/questions.ts` (ids, notes, domains, option ids, resonance and tension) |
| `selection.dfy` | `QuestionSelection` | the domain filter, the note filter and the note invitations |
| `roundrobin.dfy` | `RoundRobin` | the round-robin interleave as a function, and what it promises |
| `shuffle.dfy` | `QuestionShuffle` | the grouping, Fisher–Yates and interleave loops of `shuffleQuestionsWithinNotes` |
| `store.dfy` | `SessionStore` | the session store as a class `TuningStore`, with its actions and selectors |
| `questioncard.dfy` | `QuestionCard` | `calculateResults` as a method proved against a results function, and the card's handlers |
| `tune.dfy` | `TunePage` | the domain picker, the kick-off of a session, the reset on landing and the page's view |
| `results.dfy` | `ResultsPage` | the label and colour-intensity bands, the per-note default and the no-session branch |

Some things are parameters instead of being drawn inside the model:
- the session id (`crypto.randomUUID`);
- the clock readings (`Date.now`);
- the random index of the shuffle (`Math.random`), which is a nondeterministic choice `j :| 0 <= j <= i`.

Scores are exact Dafny `real`s. Every weight is a multiple of a quarter. The source
computes the means in floating point, so a mean that sits exactly on a label
threshold can differ; see `QuestionCard.CalculateResults` under "## Left out".

## Model

| member | source | states |
|---|---|---|
| Types.NotesListEachNoteOnce | src/types/index.ts:155-198 | the note table has six entries, lists every note exactly once, in declaration order |
| Types.NoteKeysListEachNote | src/types/index.ts:3 | the declaration-order list of notes holds every note |
| Types.NoteTriads | src/types/index.ts:155-198 | safety, pleasure and power are the feminine triad, light, now and heat the masculine one |
| Types.DomainsListEachDomainOnce | src/types/index.ts:107-143 | the domain table has seven entries, lists every domain exactly once, in declaration order |
| Catalog.SafetyGroup | src/lib/questions.ts:5-96 | the safety questions have distinct ids prefixed `S`, all measure safety and offer five options `a` to `e` |
| Catalog.PleasureGroup | src/lib/questions.ts:100-178 | the same for the pleasure questions, prefixed `P` |
| Catalog.PowerGroup | src/lib/questions.ts:182-260 | the same for the power questions, prefixed `PW` |
| Catalog.LightGroup | src/lib/questions.ts:264-329 | the same for the light questions, prefixed `L` |
| Catalog.NowGroup | src/lib/questions.ts:333-398 | the same for the now questions, prefixed `N` |
| Catalog.HeatGroup | src/lib/questions.ts:402-467 | the same for the heat questions, prefixed `H` |
| Catalog.CatalogIsWellFormed | src/lib/questions.ts:471-478 | the catalog holds 34 questions with pairwise distinct ids, each id's prefix naming the question's note, each with five options |
| Catalog.AllQuestions | src/lib/questions.ts:470-477 | the six note blocks joined in the order safety, pleasure, power, light, now, heat; its shape is stated by `CatalogIsWellFormed` |
| QuestionSelection.FilterByDomains | src/lib/questions.ts:486-493 | a question is kept iff it is in the input and is general or has a selected domain; the result is an order-preserving subsequence of the input |
| QuestionSelection.GetQuestionsForDomains | src/lib/questions.ts:486-493 | a catalog question is in the session list iff it is general or its domain is selected, in catalog order |
| QuestionSelection.QuestionsForDomainsAreUniqueSelection | src/lib/questions.ts:486-493 | the session list is an order-preserving subsequence of the catalog without repeated ids; it holds every general question, and a domain question iff its domain is selected |
| QuestionSelection.FilterByNote | src/lib/questions.ts:498-500 | a question is kept iff it is in the input and measures the note; the result is an order-preserving subsequence |
| QuestionSelection.GetQuestionsForNote | src/lib/questions.ts:498-500 | a catalog question is returned iff it measures the note, in catalog order |
| QuestionSelection.QuestionsForNoteAreItsGroup | src/lib/questions.ts:498-500 | the catalog questions of a note are exactly that note's group, in catalog order |
| QuestionSelection.GetNoteInvitation | src/lib/questions.ts:505-515 | every note has a non-empty invitation |
| QuestionSelection.FilterByNoteConcat | src/lib/questions.ts:531-533 | filtering by note distributes over concatenation, so grouping can proceed question by question |
| RoundRobin.RoundEmpty | src/lib/questions.ts:544-556 | a round emits nothing exactly when its index has reached the longest bucket, which is where the loop stops |
| RoundRobin.RoundPrefixNeighboursDiffer | src/lib/questions.ts:546-551 | within one round, neighbouring questions measure different notes |
| RoundRobin.InterleavingOfNote | src/lib/questions.ts:541-556 | restricted to one bucket's note, the interleave is that bucket in its own order |
| RoundRobin.OnlyOneBucketLeft | src/lib/questions.ts:544-556 | once every other bucket is used up, the remaining rounds hold only the last bucket's note |
| RoundRobin.InterleavingRepeatsOnlyAtTail | src/lib/questions.ts:544-556 | two neighbours of the interleave share a note only where every later question has that same note |
| QuestionShuffle.ShuffleArray | src/lib/questions.ts:561-568 | the swap loop returns a permutation of its input, which it leaves untouched |
| QuestionShuffle.GroupByNote | src/lib/questions.ts:524-533 | every note gets a bucket holding exactly the input questions of that note, in input order |
| QuestionShuffle.ShuffleBuckets | src/lib/questions.ts:536-538 | every bucket is replaced by a permutation of itself |
| QuestionShuffle.InterleaveByNoteOrder | src/lib/questions.ts:541-556 | the while loop with its round loop computes the round-robin interleave of the buckets in note order, and terminates |
| QuestionShuffle.InterleavingIsPermutation | src/lib/questions.ts:520-559 | the interleave of per-note shuffles of a list is a permutation of that list |
| QuestionShuffle.ShuffleQuestionsWithinNotes | src/lib/questions.ts:520-559 | the result is the round-robin interleave, in the note order safety, light, pleasure, now, power, heat, of one shuffle per note of that note's questions; hence a permutation of the input, each note's restriction its shuffle, and neighbours repeat a note only in the tail of one note |
| SessionStore.FindAnswer | src/stores/tuningStore.ts:155 | an answer is found iff some answer has the question's id, and the found one has that id |
| SessionStore.WithAnswer | src/stores/tuningStore.ts:86-100 | the new answer is in the list and every answer to another question keeps its position |
| SessionStore.WithAnswerRecordsIt | src/stores/tuningStore.ts:86-100 | after the upsert, the answer found for the question is the new one |
| SessionStore.WithAnswerKeepsOthers | src/stores/tuningStore.ts:86-100 | the upsert leaves the answer to every other question as it was |
| SessionStore.WithAnswerLength | src/stores/tuningStore.ts:86-100 | the answer list grows by one exactly when the question had no answer yet |
| SessionStore.WithAnswerKeepsUnique | src/stores/tuningStore.ts:86-100 | the upsert keeps the answers free of repeated question ids |
| SessionStore.FoundAnswerIsTheOnlyOne | src/stores/tuningStore.ts:86-100 | with no repeated question ids, the answer found for a question is its only answer |
| SessionStore.WithAnswerTwice | src/stores/tuningStore.ts:86-100 | answering a question twice is the same as answering it once with the second option |
| SessionStore.PrependCapped | src/stores/tuningStore.ts:158-162 | the new history starts with the session, continues with the old history, and is at most 50 long |
| SessionStore.PrependCappedDropsOnlyOldest | src/stores/tuningStore.ts:158-162 | below the limit nothing is lost; at the limit only the oldest entry is dropped |
| SessionStore.TuningStore.constructor | src/stores/tuningStore.ts:45-50 | the initial state: no session, welcome phase, index 0, empty question list and history |
| SessionStore.TuningStore.SetPhase | src/stores/tuningStore.ts:52-54 | sets the phase and nothing else |
| SessionStore.TuningStore.StartSession | src/stores/tuningStore.ts:56-70 | a fresh session for the domains, with no answers, not completed; index 0 and phase tuning; questions and history untouched |
| SessionStore.TuningStore.SetSessionQuestions | src/stores/tuningStore.ts:72-74 | sets the question list and nothing else |
| SessionStore.TuningStore.AnswerQuestion | src/stores/tuningStore.ts:76-108 | without a session nothing changes; otherwise the answer is upserted, and afterwards it is the answer found for the question |
| SessionStore.TuningStore.NextQuestion | src/stores/tuningStore.ts:110-115 | moves forward by one unless on the last question; stays within the list |
| SessionStore.TuningStore.PreviousQuestion | src/stores/tuningStore.ts:117-122 | moves back by one unless on the first question |
| SessionStore.TuningStore.CompleteSession | src/stores/tuningStore.ts:124-141 | without a session nothing changes; otherwise the session gets its results and is completed, the phase becomes results, and the session heads the history |
| SessionStore.TuningStore.ResetSession | src/stores/tuningStore.ts:143-150 | drops the session and its questions, index 0, welcome phase; the history stays |
| SessionStore.TuningStore.GetAnswerForQuestion | src/stores/tuningStore.ts:152-156 | an answer is returned iff there is a session holding an answer to the question; it is the first such answer, and under the store's invariant the only one |
| SessionStore.TuningStore.AddToHistory | src/stores/tuningStore.ts:158-162 | the history becomes the capped prepend; nothing else changes |
| SessionStore.TuningStore.ClearHistory | src/stores/tuningStore.ts:164-166 | empties the history and nothing else |
| SessionStore.TuningStore.CurrentQuestion | src/stores/tuningStore.ts:179-182 | there is a current question iff the index is inside the list, and it is the list's entry at the index |
| SessionStore.ProgressWithinList | src/stores/tuningStore.ts:179-193 | while there is a current question its one-based position lies between one and the total, and equals the total exactly on the last question |
| SessionStore.TuningStore.IsLastQuestion | src/stores/tuningStore.ts:191-193 | the position is the last of the list or past it |
| SessionStore.TuningStore.IsFirstQuestion | src/stores/tuningStore.ts:195-197 | the position is the first |
| SessionStore.TuningStore.HasAnsweredCurrent | src/stores/tuningStore.ts:199-205 | there is a current question, a session, and an answer to that question in it; tied to the answer lookup by `AnsweredCurrentIffAnswerFound` |
| SessionStore.AnsweredCurrentIffAnswerFound | src/stores/tuningStore.ts:199-205 | the current question counts as answered iff the store returns an answer for it |
| QuestionCard.Weight | src/components/tuning/QuestionCard.tsx:133-139 | high is 1, each level down is a quarter less, so every weight is on the 0-1 scale |
| QuestionCard.FindById | src/components/tuning/QuestionCard.tsx:142-145 | the question (or option) lookup finds nothing iff no element has the id; what it finds has the id and is drawn from the list |
| QuestionCard.FindByIdIsFirstMatch | src/components/tuning/QuestionCard.tsx:142-145 | the lookup returns the element at the first position whose id matches |
| QuestionCard.Resolve | src/components/tuning/QuestionCard.tsx:142-148 | an answer scores iff both its question and its option are found, and its weight is on the 0-1 scale |
| QuestionCard.NoteResults | src/components/tuning/QuestionCard.tsx:152-162 | every note has a result |
| QuestionCard.TallyAnswers | src/components/tuning/QuestionCard.tsx:124-150 | the tally loop leaves, for every note, the summed weight and the number of answers that score it |
| QuestionCard.AverageNotes | src/components/tuning/QuestionCard.tsx:152-167 | the averaging loop builds every note's result, and the sum and number of the values of the notes that have answers |
| QuestionCard.SessionResults | src/components/tuning/QuestionCard.tsx:114-175 | the results function: without a session no note results and vibrancy 0.5; otherwise every note's mean and the vibrancy; its bounds are stated by `ResultsInUnitInterval` |
| QuestionCard.CalculateResults | src/components/tuning/QuestionCard.tsx:114-175 | the two loops compute the results function: no notes and vibrancy 0.5 without a session, otherwise every note's mean and the mean over answered notes |
| QuestionCard.TotalWithinCount | src/components/tuning/QuestionCard.tsx:148-149 | a note's summed weight lies between zero and its answer count |
| QuestionCard.NoteValueInUnitInterval | src/components/tuning/QuestionCard.tsx:158 | every note value lies on the 0-1 scale |
| QuestionCard.VibrancyInUnitInterval | src/components/tuning/QuestionCard.tsx:163-172 | the overall vibrancy lies on the 0-1 scale |
| QuestionCard.ResultsInUnitInterval | src/components/tuning/QuestionCard.tsx:114-175 | for any session, the domain results are empty and every note value and the vibrancy lie on the 0-1 scale |
| QuestionCard.NoAnswersReadNeutral | src/components/tuning/QuestionCard.tsx:152-172 | with no answers, every note reads 0.5 with none answered, and so does the vibrancy |
| QuestionCard.UnresolvedAnswerIsSkipped | src/components/tuning/QuestionCard.tsx:142-146 | an answer whose question or option is missing changes no note result |
| QuestionCard.UniformAnswersReadTheirWeight | src/components/tuning/QuestionCard.tsx:141-172 | when every answer scores the same weight, every answered note and the vibrancy read exactly that weight |
| QuestionCard.HandleSelectOption | src/components/tuning/QuestionCard.tsx:79-82 | the option becomes the selection and is upserted for the card's question |
| QuestionCard.HandleContinue | src/components/tuning/QuestionCard.tsx:84-100 | nothing without a selection; on the last question the session is completed with the computed results, or nothing changes when there is no session; otherwise the next question with session, phase and history kept |
| QuestionCard.HandleBack | src/components/tuning/QuestionCard.tsx:102-111 | nothing on the first question, otherwise the previous one |
| TunePage.Without | src/app/tune/page.tsx:35 | every occurrence of the domain is gone and every other domain keeps its multiplicity, in order |
| TunePage.ToggleDomain | src/app/tune/page.tsx:32-38 | the domain's membership flips, no other domain's changes, and an absent domain is appended at the end |
| TunePage.ToggleKeepsNoDuplicates | src/app/tune/page.tsx:32-38 | toggling keeps a selection free of duplicates |
| TunePage.ToggleTwiceRestores | src/app/tune/page.tsx:32-38 | toggling an unselected domain twice gives back the selection |
| TunePage.SelectAllDomains | src/app/tune/page.tsx:40-42 | the selection becomes the ids of the domain table, in table order |
| TunePage.SelectAllIsEveryDomain | src/app/tune/page.tsx:40-42 | select all gives the seven domains once each, in declaration order |
| TunePage.QuestionCount | src/app/tune/page.tsx:210 | the shown count never exceeds the catalog size |
| TunePage.AllDomainsCountWholeCatalog | src/app/tune/page.tsx:210 | with every domain selected the count is the whole catalog, 34 |
| TunePage.CountGrowsWithSelection | src/app/tune/page.tsx:210 | selecting more domains never lowers the count |
| TunePage.SelectionNeverEmpty | src/app/tune/page.tsx:52-54 | every selection yields at least one question |
| TunePage.OnMount | src/app/tune/page.tsx:26-30 | landing in the results phase resets the session; otherwise nothing changes |
| TunePage.HandleBeginTuning | src/app/tune/page.tsx:44-61 | nothing with an empty selection; otherwise a fresh session in the tuning phase at index 0, whose questions are the round-robin interleave in the fixed note order of per-note shuffles of the selection's questions, a permutation of them |
| TunePage.View | src/app/tune/page.tsx:64 | the picker shows outside the tuning phase or without a session; a question shows iff the index is inside the list, and it is the question at the index |
| TunePage.BeginShowsFirstQuestion | src/app/tune/page.tsx:221-229 | right after a kick-off the page shows the first question of the new list |
| ResultsPage.GetResonanceLabel | src/app/results/page.tsx:36-42 | the label's rank is the number of the thresholds 0.2, 0.4, 0.6, 0.8 the value reaches |
| ResultsPage.LabelMonotone | src/app/results/page.tsx:36-42 | a higher value never earns a lower label |
| ResultsPage.GetColorIntensity | src/app/results/page.tsx:45-49 | the intensity's rank is the number of the thresholds 0.4, 0.7 the value reaches |
| ResultsPage.SwatchIntensity | src/app/results/page.tsx:110-121 | the inline swatch and percentage colour band: high from 0.7, mid from 0.4, low below |
| ResultsPage.IntensityMonotone | src/app/results/page.tsx:45-49 | a higher value never gets a weaker intensity, in the function and in the inline swatch |
| ResultsPage.SwatchMatchesIntensity | src/app/results/page.tsx:110 | the inline swatch and text colour use the same bands as the intensity function |
| ResultsPage.NoteDisplay | src/app/results/page.tsx:97-99 | a card shows the note's value and count, or 0.5 and 0 when the note has no result |
| ResultsPage.View | src/app/results/page.tsx:12 | the no-session branch shows iff there is no session or it has no results; otherwise those results are shown |
| ResultsPage.DisplayOfComputedResults | src/app/results/page.tsx:97-99 | for computed results every card shows its note's computed value and count; without a session, 0.5 and 0 |
| ResultsPage.DisplayedValuesInUnitInterval | src/app/results/page.tsx:97-121 | every value a card shows for computed results lies on the 0-1 scale |

## Left out

- Display text is not modelled: question and option wording, note names in copy, and the JSX. Only the note invitations are kept.
- Timers are not modelled. The 400 ms and 500 ms delays before a handler's store call become an immediate call, and the entry and exit animation flags are dropped.
- Persistence is left out: the zustand `persist` middleware, localStorage, and the Supabase session storage. The history is a plain field.
- Authentication is left out. The user id passed to `completeSession` is ignored by the store, so sessions never carry a user id.
- The uniformity of the shuffle is not claimed. The random index is a nondeterministic choice, and the id and clock are parameters.
- The `Math.round` percentages on the results page are not modelled; values are shown as exact reals.
- The `?? 0.5` fallback in the weight lookup of `calculateResults` is not modelled. Every resonance level has a weight, so it cannot fire.
- The `byNote[note][index]` truthiness test is modelled as an index bound. A question object is always truthy, so the two agree.
- The account page's copy of the resonance-label function is not modelled separately; it is identical to `ResultsPage.GetResonanceLabel`.
- `noteColors`, the merkaba page, and the share button are presentation only.
- QuestionSelection.GetNoteInvitation: states only that each invitation is non-empty, not its wording.
- SessionStore.TuningStore.Progress: states only that the position is at least one; its meaning is stated by `ProgressWithinList`.
- QuestionCard.CalculateResults: computes the means with exact reals, while the source divides IEEE doubles (src/components/tuning/QuestionCard.tsx:158 and 172). A mean that is exactly on a threshold can land just below it in doubles: safety 1.5 over 2, pleasure 4.5 over 5 and power 0.75 over 1 give a vibrancy of exactly 0.8 here, but (0.75 + 0.9 + 0.75) / 3 is 0.7999999999999999 in doubles. So the model's `ResultsPage.GetResonanceLabel` says Activated where the app says Flowing. The same holds for the intensity bands. A value farther from every threshold than the rounding error gets the same label and band in both.
- The card's local selection state is modelled as a parameter of `HandleContinue`. It is initialised from the stored answer on entry, and that initialisation is not modelled.

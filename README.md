# vocalearn core in Dafny

This project models two parts of the vocalearn backend and proves properties about them.

**Pronunciation assessment** (`vocalearn/views.py`). The speech recognizer's callbacks gather the recognised word records and the per-utterance fluency score, prosody score and duration. They stop when the session stops or is cancelled. The reference text is then tokenised. A diff of reference words against the lower-cased recognised words (the matcher's opcodes) drives the miscue merge. The merge re-tags, in place, those recognised words of insert/replace spans whose error type is `None` as `Insertion`; words with any other error type keep it. It adds an `Omission` word per reference word of delete/replace spans. The view then reports four scores: accuracy, prosody, fluency and completeness.

**Transcription** (`vocalearn/views.py`). Continuous transcription joins the final recognised texts by single spaces. The single-shot helper `get_transcribed_text` maps the one result's reason to a response.

**Data-model rules** (`vocalearn/models.py`):
- the saved-item type tags and the text extracted from an item's content;
- the spaced-repetition defaults and the ease-factor validator;
- the cached collection item count and the two uniqueness constraints;
- the review-quality range and the duration of a study session.

Modules, one per component:

- `Wrappers`: `Option` and `Result`.
- `Recognition`: the recognizer's events, shared by both views; `session_stopped` and `canceled` end the wait.
- `Text`: Python's `str.lower()`, `str.split()`, `str.strip(string.punctuation)` and `' '.join`, and the reference tokeniser.
- `Miscue`:
  - `Word` is a class whose `errorType` field is updated in place, so it is shared between `recognized_words` and `final_words`.
  - The opcode contract says the opcodes tile both sequences from (0,0), `insert` has `i1 == i2`, `delete` has `j1 == j2`, and `equal` spans pair equal words.
  - The merge is a method. It is specified by a layout of `final_words` (`Layout`) and by the re-tagged error types (`Retagged`).
- `Scores`: accuracy, prosody, fluency and completeness as exact reals. A division by zero is a `Failure`.
- `Assessment`:
  - the callback state as a class;
  - the event loop;
  - the whole view, which is proved equal to the pure specification `Assess`.
- `Transcription`: the transcription callback state, its event loop and its response, and the single-shot helper.
- `Models`: the rules of `vocalearn/models.py`. Database tables are sequences of rows.

The speech SDK is replaced by what it delivers:
- a finite list of session events;
- for each recognised utterance: its word objects, fluency score, optional prosody score and word durations.

The matcher's opcodes and, for `zh-CN`, the segmenter's reference words are inputs. A session that never delivers a terminal event makes the view poll forever; this is the `Waiting` response.

The merge requires the recognised word objects to be pairwise distinct (`Miscue.Distinct`). This assumes that the SDK builds a new word object for every word of every result. If one object appeared twice in `recognized_words`, a re-tag through one position would be seen at the other.

The completeness cap at vocalearn/views.py:269 never changes the result for well-formed opcodes. No recognised word left untagged lies outside an `equal` span, and those spans hold at most as many words as the reference (`Miscue.MatchedWithinReference`, `Assessment.AssessCompletenessExact`). The code also checks for a missing reference text only after computing the scores (vocalearn/views.py:272). As a result, an empty reference text outside zh-CN gives a division-by-zero server error, not the "Something is missing" answer (`Assessment.EmptyReferenceIsServerError`).

A synthesised Omission entry is not an `Insertion`, so its accuracy enters the accuracy mean. That accuracy is the SDK's default for a new word result; here it is the parameter `omissionAccuracy` (`Assessment.FoxScenario`).

## Model

| member | source | states |
|---|---|---|
| `Text.Lower` | vocalearn/views.py:226 | `str.lower()` keeps the length, leaves no capital, keeps every other character, and maps each capital to the small letter at the same place in the alphabet |
| `Text.LowerIdempotent` | vocalearn/views.py:226 | lower-casing twice is lower-casing once |
| `Text.SplitChunksAreWords` | vocalearn/views.py:226 | every chunk of `Split` (Python's `str.split()`) is non-empty and contains no whitespace |
| `Text.SplitWord` | vocalearn/views.py:226 | `Split` of one non-empty word without whitespace is that word alone |
| `Text.SplitAtSpace` | vocalearn/views.py:226 | `Split` at any whitespace character splits the two sides independently and concatenates the results |
| `Text.JoinSnoc` | vocalearn/views.py:146 | `Join` (Python's `sep.join`) of one more part appends the separator and that part: parts stay in arrival order |
| `Text.SplitJoin` | vocalearn/views.py:146 | words without whitespace, `Join`ed by single spaces, `Split` back into the same words |
| `Text.StripLeading` | vocalearn/views.py:226 | leading strip yields a suffix, removes only punctuation, and leaves no leading punctuation |
| `Text.StripTrailing` | vocalearn/views.py:226 | trailing strip yields a prefix, removes only punctuation, and leaves no trailing punctuation |
| `Text.Strip` | vocalearn/views.py:226 | `str.strip(string.punctuation)`: an infix of the word with only punctuation removed at both ends, neither beginning nor ending with punctuation |
| `Text.StripIdempotent` | vocalearn/views.py:226 | stripping twice equals stripping once |
| `Text.StripAllPunct` | vocalearn/views.py:226 | a word made only of punctuation strips to the empty token |
| `Text.ReferenceTokensSpec` | vocalearn/views.py:226 | `ReferenceTokens` (the comprehension) gives one token per whitespace-separated chunk of the lower-cased text, in order; each token is its chunk with end punctuation removed, has no whitespace or capital, and may be empty (kept, not dropped) |
| `Text.StripSpec` | vocalearn/views.py:226 | the strip of a chunk without whitespace or capitals keeps both properties and satisfies the token description |
| `Text.ChunkOfLowerHasNoUpper` | vocalearn/views.py:226 | the chunks of a text without capitals have no capitals |
| `Recognition.StopsAfter` | vocalearn/views.py:136-137 | inserting an event other than `session_stopped`/`canceled` does not change whether the session ends |
| `Miscue.LowerTexts` | vocalearn/views.py:229 | the matcher's second sequence has one entry per recognised word, each that word's text lower-cased |
| `Miscue.TilesBounds` | vocalearn/views.py:231 | tiling opcodes have ordered spans that lie inside both sequences |
| `Miscue.RecTagFindsOwner` | vocalearn/views.py:231-236 | `RecTag` attributes a recognised word of an opcode's span to exactly that opcode |
| `Miscue.RecTagTotal` | vocalearn/views.py:231-247 | every recognised word lies in some opcode's span (`RecTag` is defined), never in a delete span |
| `Miscue.RetaggedBySpan` | vocalearn/views.py:232-247 | in `Retagged`, a word of an insert/replace span tagged `None` becomes `Insertion` and other tags stay; in an equal span no tag changes; no recognised word lies in a delete span |
| `Miscue.CountNoErrorConcat` | vocalearn/views.py:268 | the count of `None` tags adds up over concatenation |
| `Miscue.CountNoErrorPositions` | vocalearn/views.py:268 | the count of `None` tags is the number of positions that hold `None` |
| `Miscue.MatchedWithinReference` | vocalearn/views.py:268-269 | after re-tagging, the recognised words still tagged `None` are no more than the reference words |
| `Miscue.LayoutConcat` | vocalearn/views.py:231-247 | the `Layout` of two opcode runs is the two layouts in order |
| `Miscue.LayoutSnoc` | vocalearn/views.py:231-247 | one more opcode appends exactly its own entries to the `Layout` |
| `Miscue.IndicesConcat` | vocalearn/views.py:231-247 | recognised and omitted indices of concatenated layouts concatenate |
| `Miscue.IndicesPartition` | vocalearn/views.py:231-247 | every layout entry is either a recognised word or an omission |
| `Miscue.RunIndices` | vocalearn/views.py:233-245 | a run of recognised (omitted) entries lists exactly its index range |
| `Miscue.OpIndices` | vocalearn/views.py:232-247 | the entries of one opcode list its recognised span (unless delete) and its reference span (for delete/replace) |
| `Miscue.LayoutIndices` | vocalearn/views.py:231-247 | in `Layout`, the recognised words appear exactly once each, in their original order; the omissions are the reference words of delete/replace spans, in order |
| `Miscue.FinalWordsShape` | vocalearn/views.py:231-247 | `final_words` has one entry per recognised word plus one per reference word of a delete/replace span |
| `Miscue.ReplaceSpanOrder` | vocalearn/views.py:232-245 | within a replace span the recognised words come before that span's Omission entries |
| `Miscue.Word.constructor` | vocalearn/views.py:239-244 | a new word record carries its text, accuracy and error type |
| `Miscue.AppendMiscueSpan` | vocalearn/views.py:232-236 | appends `recognized[j1:j2]` to `final_words` and re-tags exactly those words that were `None` as `Insertion`, on the shared objects |
| `Miscue.AppendOmissions` | vocalearn/views.py:237-245 | appends one new word per reference word of the span, tagged Omission, with the omission accuracy |
| `Miscue.MergeOpcode` | vocalearn/views.py:231-247 | one opcode appends exactly its layout entries and re-tags only miscue-span words |
| `Miscue.Merge` | vocalearn/views.py:228-247 | `final_words` realises `Layout(ops)`: recognised entries are the shared objects, all others are new Omission words of the right reference text; every recognised word's new tag is its `Retagged` value |
| `Scores.SumBounds` | vocalearn/views.py:258 | a sum of bounded terms is bounded by the count times the bounds |
| `Scores.Mean` | vocalearn/views.py:258 | the mean fails exactly on an empty list, and otherwise times the count equals the sum |
| `Scores.MeanBounds` | vocalearn/views.py:258 | a mean lies within the bounds of its terms |
| `Scores.ScoredConcat` | vocalearn/views.py:251-256 | `ScoredAccuracies` (`final_accuracy_scores`) of two word runs concatenate, so an Insertion anywhere contributes nothing |
| `Scores.ScoredEmptyIff` | vocalearn/views.py:251-258 | nothing is scored exactly when every final word is an Insertion |
| `Scores.ScoredFromWords` | vocalearn/views.py:251-256 | every scored accuracy comes from a non-Insertion word |
| `Scores.AccuracySpec` | vocalearn/views.py:251-258 | `Accuracy` raises `ZeroDivisionError` exactly when every final word is an Insertion, and otherwise lies within the bounds of the non-Insertion accuracies |
| `Scores.CollectAccuracies` | vocalearn/views.py:251-256 | the loop collects the accuracy of each non-Insertion word, in order |
| `Scores.Prosody` | vocalearn/views.py:261-264 | prosody is `"nan"` exactly when no utterance reported one, and otherwise times the count equals the sum |
| `Scores.ProsodyBounds` | vocalearn/views.py:261-264 | a numeric prosody lies within the bounds of the utterances' prosody scores |
| `Scores.Fluency` | vocalearn/views.py:266 | fluency fails exactly when the total duration is zero, and otherwise times the total duration equals the duration-weighted sum `Weighted` |
| `Scores.WeightedBounds` | vocalearn/views.py:266 | the duration-weighted sum `Weighted` is bounded by the total duration times the bounds |
| `Scores.FluencyBounds` | vocalearn/views.py:266 | fluency is a weighted mean: within the bounds of the utterances' scores |
| `Scores.WeightedUniform` | vocalearn/views.py:266 | with one duration for all utterances, `Weighted` is that duration times the plain sum |
| `Scores.FluencyEqualDurations` | vocalearn/views.py:266 | utterances of one non-zero duration weigh equally: fluency is the plain mean |
| `Scores.Completeness` | vocalearn/views.py:268-269 | fails exactly when there are no reference words; otherwise in [0,100], the exact percentage up to the reference count, 100 from there on |
| `Scores.MatchedCount` | vocalearn/views.py:268 | the count is the number of positions of `recognized_words` whose word's error type is `None` |
| `Assessment.AbsorbDescribes` | vocalearn/views.py:196-207 | one callback (`Absorb`) adds one fluency score, one duration (the sum of word durations), the prosody score if reported, and the utterance's words |
| `Assessment.CollectFromDescribes` | vocalearn/views.py:196-218 | the callbacks' state after a run of events (`CollectFrom`) is the description of all utterances heard up to the first terminal event |
| `Assessment.CollectSpec` | vocalearn/views.py:196-218 | what is gathered is exactly: one fluency score and one duration per utterance heard before the session ended, position by position; the reported prosody scores; all words in order |
| `Assessment.CollectStopsAtTerminal` | vocalearn/views.py:213-218 | events after the first stop or cancel are never seen |
| `Assessment.CollectIgnoresStart` | vocalearn/views.py:210 | session-started events contribute nothing |
| `Assessment.ReportedEmptyIff` | vocalearn/views.py:201-202 | no prosody score is gathered exactly when no heard utterance reported one |
| `Assessment.RecognitionState.constructor` | vocalearn/views.py:184-188 | the callback state starts empty and not done |
| `Assessment.RecognitionState.OnRecognized` | vocalearn/views.py:196-207 | the callback extends the four lists as `Absorb` says and leaves `done` alone |
| `Assessment.RecognitionState.OnStop` | vocalearn/views.py:190-194 | the stop callback sets `done` and writes nothing else |
| `Assessment.RecognitionState.Listen` | vocalearn/views.py:209-218 | the waiting loop ends exactly when a terminal event arrives, with the state that the callbacks' fold gives |
| `Assessment.Answer` | vocalearn/views.py:258-276 | a server error exactly when accuracy, fluency or completeness divides by zero; otherwise the 400 "Something is missing" answer exactly when the language or the reference text is empty, and the 200 answer, carrying exactly the four computed scores, exactly when both are non-empty |
| `Assessment.ScoresOfRealized` | vocalearn/views.py:251-256 | the accuracies read off the merged `final_words` are `SlotScores`, those its layout predicts from the re-tagged error types |
| `Assessment.SlotScoresWithin` | vocalearn/views.py:251-256 | `SlotScores` of a layout lie within the bounds of the word and omission accuracies |
| `Assessment.AssessBounds` | vocalearn/views.py:251-266 | in `Assess`, a reported accuracy, fluency and numeric prosody lie within the bounds their inputs respect |
| `Assessment.AssessCompletenessExact` | vocalearn/views.py:268-269 | a reported completeness is in [0,100] and is `Completeness` of the words still `None` after the merge, a count that never exceeds the reference words; with `Completeness`'s contract it is exactly 100 × that count / (reference words), so the cap never fires |
| `Assessment.EmptyReferenceIsServerError` | vocalearn/views.py:226-273 | with `ReferenceWords` of an empty reference text outside zh-CN, the view always ends in a division-by-zero server error, never in the 400 answer |
| `Assessment.FoxOpcodesWellFormed` | vocalearn/views.py:228-229 | the scenario's opcodes meet the matcher's contract for "the quick brown fox" against "the quick fox jumps" |
| `Assessment.FoxLayout` | vocalearn/views.py:231-247 | in that scenario `final_words` is the, quick, Omission(brown), fox, jumps |
| `Assessment.FoxRetagged` | vocalearn/views.py:232-236 | in that scenario only "jumps", in the insert span, can be re-tagged |
| `Assessment.FoxScores` | vocalearn/views.py:251-256 | in that scenario the scored accuracies are those of the, quick, the omission and fox |
| `Assessment.FoxScenario` | vocalearn/views.py:228-276 | in that scenario the view succeeds with completeness 75 and accuracy the mean of the three matched words and the omission |
| `Assessment.Respond` | vocalearn/views.py:220-276 | after the session ends, the answer is `Assess` of the gathered values, the `ReferenceWords` (segmenter's for zh-CN, tokeniser's otherwise) and the words' pre-merge error types |
| `Assessment.PronunciationAssessment` | vocalearn/views.py:156-276 | the whole view: no answer without a terminal event, otherwise `Assess` of what the callbacks gathered |
| `Transcription.TranscriptionState.constructor` | vocalearn/views.py:123-124 | the transcription state starts empty and not done |
| `Transcription.TranscriptionState.Listen` | vocalearn/views.py:131-143 | the waiting loop ends exactly when a terminal event arrives, having appended the `FinalTexts` seen before it |
| `Transcription.ContinuousTranscription` | vocalearn/views.py:123-148 | the answer (`Transcribe`) is the final texts joined by single spaces once a terminal event arrives, and no answer otherwise |
| `Transcription.InterimIgnored` | vocalearn/views.py:131 | interim `recognizing` events change neither `FinalTexts` nor `Transcribe` |
| `Transcription.IgnoredAfterTerminal` | vocalearn/views.py:136-143 | events after the first stop or cancel are never seen |
| `Transcription.BothEndingsSucceed` | vocalearn/views.py:136-148 | stopping and cancelling give the same success answer: the texts received before, space-joined |
| `Transcription.FinalTextsSnoc` | vocalearn/views.py:132 | a final text received while the session runs is appended to `FinalTexts`, and after the end it is ignored |
| `Transcription.TranscriptGrows` | vocalearn/views.py:132-146 | while the session runs, a further final text extends the transcription by a space and that text |
| `Transcription.TranscriptSplits` | vocalearn/views.py:146 | single-word final texts split back out of the transcription unchanged and in order |
| `Transcription.TranscribedText` | vocalearn/views.py:92-104 | `get_transcribed_text`: status 200 with the result's text exactly for recognised speech, 400 exactly for no match, otherwise a 500 naming the reason |
| `Transcription.OnceAgreesWithContinuous` | vocalearn/views.py:86-148 | one recognised utterance transcribes like a continuous session delivering that text and then stopping |
| `Models.ParseItemType` | vocalearn/models.py:14-22 | the `choices` validation accepts a type string exactly when it is one of the three tags |
| `Models.ItemTagRoundTrip` | vocalearn/models.py:14-22 | every type tag parses back to its type and fits `max_length=20` |
| `Models.ParseSessionType` | vocalearn/models.py:140-149 | the `choices` validation accepts a session type exactly when it is one of the four tags |
| `Models.SessionTagRoundTrip` | vocalearn/models.py:140-149 | every session tag parses back to its type and fits `max_length=30` |
| `Models.JoinParts` | vocalearn/models.py:77 | `' '.join` succeeds exactly when every part is a string |
| `Models.SavedItem.constructor` | vocalearn/models.py:42-50 | a new item has ease factor 2.50, interval 0, no repetitions and no next review date |
| `Models.SavedItem.GetTextContent` | vocalearn/models.py:68-77 | the three appends give `TextContent`: the present text fields in the fixed order, joined |
| `Models.PresentPartsUnfold` | vocalearn/models.py:70-76 | `PresentParts` is text, translation, transcription, each if present, in that order |
| `Models.TextContentEmpty` | vocalearn/models.py:68-77 | `TextContent` of content with none of the three keys is `""` |
| `Models.TextContentIgnoresOtherKeys` | vocalearn/models.py:68-77 | keys other than the three have no effect on `TextContent` |
| `Models.TextContentOrder` | vocalearn/models.py:68-77 | with all three as strings, `TextContent` is text, translation and transcription separated by single spaces |
| `Models.TextContentSplits` | vocalearn/models.py:68-77 | single-word values split back out of the extracted text, in key order |
| `Models.DecimalFitsRange` | vocalearn/models.py:42-44 | `DecimalFits` (`max_digits=3, decimal_places=2`) holds exactly from -9.99 to 9.99 |
| `Models.ValidEaseFactorAsWrittenRange` | vocalearn/models.py:42-46 | as written, the validators accept an ease factor exactly from 1.31 to 9.99 |
| `Models.EaseFactorFloorRejected` | vocalearn/models.py:46 | 1.30 is rejected as written and accepted by the corrected `ValidEaseFactor` |
| `Models.ValidEaseFactorRange` | vocalearn/models.py:42-47 | with the 1.3 floor inclusive, `ValidEaseFactor` holds exactly from 1.30 to 9.99, and the default 2.50 is valid |
| `Models.NewReview` | vocalearn/models.py:192-198 | validation accepts a review exactly when its quality is 0 to 5 (`ValidQuality`), and `was_correct` defaults to false |
| `Models.AddToCollection` | vocalearn/models.py:128 | adding an existing (collection, item) pair raises an integrity error; otherwise the row is added and uniqueness is kept |
| `Models.CreateCollection` | vocalearn/models.py:98 | a second collection with the same name for a user raises an integrity error; otherwise uniqueness is kept |
| `Models.MemberCountIsItems` | vocalearn/models.py:105-128 | under the (collection, item) constraint, a collection's row count `MemberCount` is its number of distinct items |
| `Models.MemberCountSnoc` | vocalearn/models.py:105 | a new row adds one to its own collection's `MemberCount` only |
| `Models.AddToCollectionCount` | vocalearn/models.py:105-128 | a successful add raises its collection's count by one and no other count |
| `Models.Collection.constructor` | vocalearn/models.py:80-90 | a new collection has an item count of 0 |
| `Models.Collection.UpdateItemCount` | vocalearn/models.py:103-106 | the cached count becomes the number of membership rows of this collection, and no other field is written |
| `Models.DurationMinutes` | vocalearn/models.py:164-170 | no duration while the session is open; otherwise the duration times 60 is the elapsed seconds |
| `Models.DurationNonNegative` | vocalearn/models.py:164-170 | a session that ended after it started has a non-negative duration |

## Findings

| source | as written | input that shows it | evidently intended | confidence | as-written member | corrected member |
|---|---|---|---|---|---|---|
| vocalearn/models.py:46 | `MinValueValidator(1.3)` compares the field's decimal with the float `1.3`. Python compares the two exactly, and that float is slightly above 1.3. | ease factor 1.30, the SM-2 floor | 1.30 is the smallest valid ease factor | medium, not executed | `Models.ValidEaseFactorAsWritten`, `Models.EaseFactorFloorRejected` | `Models.ValidEaseFactor`, `Models.ValidEaseFactorRange` |

## Left out

- The translator HTTP call (vocalearn/views.py:31-65): network I/O.
- Speech SDK configuration and recognition (vocalearn/views.py:86-121, 164-182). Their outputs are inputs here: event lists, the single-shot result's reason and text, word objects, scores and durations.
- The callback threads and the `time.sleep` polling: the event stream is a finite list handled in order.
- `difflib.SequenceMatcher`'s choice of alignment. Any opcodes that meet the library's documented contract are accepted.
- zh-CN segmentation with `jieba`/`zhon` (vocalearn/views.py:220-224): the segmenter's reference words are an input.
- JSON parsing of the `NBest` result (vocalearn/views.py:204-206): word durations are given as natural numbers, the SDK's non-negative ticks.
- The `enable_miscue` else branch (vocalearn/views.py:248-249): the flag is the constant `True`, so the branch never runs.
- The accuracy of a synthesised Omission word is the SDK constructor's default. Here it is the parameter `omissionAccuracy`.
- `Text.Lower`: only ASCII letters are lower-cased. Python's full Unicode case mapping is not modelled.
- Request-field presence (missing audio file or a `None` reference text, which raise earlier) and the duplicated audio check of `speech_to_text_view`. Only the empty-string cases of the missing-field check at vocalearn/views.py:272 are modelled.
- An exception raised inside the SDK (the `except` branches at vocalearn/views.py:106-108 and :150-152) is not modelled.
- Audio conversion, file writes and directory cleanup (vocalearn/views.py:280-306), including the cleanup calls of `get_transcribed_text`.
- Model validation versus saving: Django's `save()` runs neither the field validators nor the `choices` check, and no database constraint enforces them. A row with quality 9, ease factor 1.00 or an unknown type tag can be stored. The validators and choices are modelled as what `full_clean()`, a model form or a serializer accept.
- ORM persistence:
  - the search vector and its GIN index;
  - `auto_now` timestamps, UUID generation and orderings;
  - the user model, admin and URL routing.
- Floating point: scores and durations are exact reals. The one place where the model's results depend on a float's exact value, the ease-factor floor, is written out (`Models.FloatOnePointThree`).
- `Models.DurationMinutes`: the 2-decimal `round` is dropped, so the result is the exact number of minutes.
- `Models.ValidEaseFactorRange`: the ease factor is integer hundredths, so values with more than two decimal places cannot be represented and the decimal-places check is not modelled.
- `Models.SavedItem.GetTextContent`: content that is not a JSON object (a list or a string stored in the field) is not modelled.
- No spaced-repetition update, quota or position compaction exists in the source. Only the fields are present, so only their defaults and validators are modelled.

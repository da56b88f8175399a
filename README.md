# ViSoLex core, modelled in Dafny

ViSoLex is a toolkit for normalising Vietnamese social-media text. It finds
"non-standard words" (NSW), such as `j` for `gì` or `dzô` for `vô`, and
predicts a standard form for each of them. This project models five parts of
the toolkit and proves properties of the model:

- **NSW detection** (`detect.dfy`, module `Detect`):
  - the detector drops special tokens;
  - it keeps tokens flagged as NSW as character spans of the detokenized
    text;
  - it can merge spans that touch into one;
  - the detector object loads a checkpoint lazily.
- **Sentence normalisation** (`normalize.dfy`, module `Normalize`):
  - runs the student model once;
  - in detection mode it also attaches a prediction and a confidence to each
    span;
  - its result shape depends on the detection flag.
- **Rule-based preprocessing** (`preprocessing.dfy`, module `Preprocessing`):
  - tone normalisation by ordered substring replacement;
  - removal of dots that do not end a sentence;
  - flattening of nested lists;
  - keeping only non-empty stripped strings;
  - spacing out emoji;
  - the protected-pattern tokenizer.
- **The basic normaliser** (`basic_normalizer.dfy`, module
  `BasicNormalizer`). It is the composition of the preprocessing steps, with
  optional lowercasing first.
- **The training driver** (`trainer.dfy`, module `Trainer`):
  - supervised, semi-supervised and weakly supervised training;
  - a warm-up round;
  - per-round downsampling of the pseudo-labelled dataset;
  - checkpoint promotion whenever a round sets a strict new maximum;
  - the final report built at the last best development epoch.

Support modules:

- `wrappers.dfy`: `Option` and `Result`, and the three Python exceptions the
  core raises.
- `collaborators.dfy`:
  - the special-token list and the deletion of special tokens;
  - the tokenizer seen as two functions;
  - a small `Student` class that records which checkpoint is loaded and how
    often inference runs.

Neural networks are never modelled. Every model call is a function parameter
(an oracle):

- the student's inference output;
- the trainer's train, predict and evaluate results;
- the downsampling choice.

The theorems therefore hold for every possible model.

Where the code and its documentation or tests disagree, the model follows
the code. In particular:

- `normalize_sentence` returns the spans as they were *before* merging; the
  merged spans are computed and then discarded.
- Spans that touch (one ends where the next starts) are fused only by
  `concatenate_nsw_spans`.
- `detect_nsw` (visolex/lexnorm/detect.py:80) sets its character cursor to the
  length of the detokenized prefix. After an empty piece it is that length
  plus one, so an empty piece shifts only the NEXT span, which can then
  overlap its successor. `DetectExamples.EmptyPieceShiftsNextSpan` shows
  spans [1,3) "ab" and [2,3) "c" of the text "abc".
- A span's `index` is the token's position among the tokens left after
  special tokens are deleted (detect.py:75), and `normalize_sentence` relies
  on it (normalize.py:38). tests/lexnorm/test_detector.py:58-60 and 87-89
  instead expect span ordinals 0, 1, 2.
- `simple_tokenize` slices the text at the bad spans in the order the
  patterns return them, not in text order. Out-of-order matches therefore
  repeat text (`Preprocessing.UnorderedMatchesRepeatText`).

The code has slips that would stop it before the modelled behaviour is
reached. The model departs from the code as written and follows what the
code plainly means:

- `__init__(args, logger, ...)` has no `self` parameter at
  visolex/lexnorm/detect.py:6, visolex/lexnorm/normalize.py:9 and
  visolex/lexnorm/basic_normalizer.py:7. The model's constructors take the
  arguments as meant.
- `self.logger = self.logger` at detect.py:8, normalize.py:11 and
  basic_normalizer.py:9 reads an attribute that does not exist yet. Logging
  is not modelled.
- `concatenate_nsw_spans(nsw_spans)` (detect.py:33) has no `self` and no
  `@staticmethod`, yet it is called as a bound method at detect.py:84 and
  normalize.py:45. The model calls it as a plain function.
- The word-boundary test at detect.py:68 compares with a mis-encoded literal:
  the three characters U+201A U+00F1 U+00C5, which no SentencePiece token
  starts with. As written, the cursor is never advanced for a word start.
  `Detect.StartOf` and `Detect.SpanOf` read it as the intended marker U+2581
  (`Collaborators.WordBoundaryMarker`), which moves the start of every span
  led by the marker one character to the right, past the space.
- The fine-tuning steps at visolex/framework_components/trainer.py:160 and
  :235 train on `self.newtraindataset`. That attribute is never set; only
  the local `newtraindataset` of trainer.py:106 exists. So as written,
  semi-supervised training with `num_iter >= 1` raises AttributeError at
  trainer.py:160. The model fine-tunes on the labeled data
  (`Trainer.LabeledData`).
- `teacher_dev_res_list.append(...)` at trainer.py:214 lacks `self.`. So as
  written, weakly supervised training with `num_iter >= 1` raises NameError
  there, after the round's `train_ran` (:203) and `predict_ran` (:210) calls.
  The model appends to the teacher's dev history.
- `Student.save` and `Student.load` build their folder from a bare `args`
  (`args.training_mode`, `args.rm_accent_ratio`) at
  visolex/framework_components/student.py:51 and :60. `student.py` neither
  imports nor defines `args`; `self.args` is meant. So as written, every
  checkpoint save (trainer.py:98, 113, 173, 248) and every checkpoint load
  (detect.py:18, 28, 30; normalize.py:20, 22) raises NameError. The model
  records each save and load as succeeding
  (`Collaborators.Student.Load`, `Trainer.TrainedSaves`,
  `Trainer.FinishedReportsLastBestEpoch`, `Trainer.TrainFailsOnlyForUnknownMode`).

The model takes `evaluate` results in the two forms the code uses. A call
without a mode argument is used as one record (trainer.py:116, 164, 239).
A call with `"test"` or `"ran"` is used as a record plus predictions
(trainer.py:123, 167, 213, 216, 242).

## Model

| member | source | states |
|---|---|---|
| Collaborators.KeepIndices | visolex/lexnorm/detect.py:60 | The kept positions ascend strictly, point at non-special tokens, and include every non-special position (special tokens are listed in global_variables.py:26). |
| Collaborators.DeleteSpecialTokens | visolex/lexnorm/detect.py:60 | The kept tokens are exactly the tokens at the kept positions, none of them special, and there is one position per kept token. |
| Collaborators.SelectAt | visolex/lexnorm/detect.py:61 | Selecting labels by position succeeds exactly when every position is in range. On success it returns the labels at those positions in order; the error path models Python's IndexError. |
| Collaborators.Student.constructor | visolex/framework_components/student.py:7-14 | A new student holds the given model, no checkpoint, no loads and no inference calls. |
| Collaborators.Student.Load | visolex/framework_components/student.py:57-64 | Loading makes the named checkpoint current and appends it to the load history; the inference count is unchanged. The `_last`/`_best` version suffix is left out (see below). |
| Collaborators.Student.Inference | visolex/framework_components/student.py:44-46 | The output is the model applied to the current checkpoint and the input; exactly one inference call is recorded. |
| Detect.SpanOf | visolex/lexnorm/detect.py:72-79 | The span for token i records index i, the cursor as start, the detokenized piece as its text, and no prediction or confidence. Its end minus its start is the text's length. |
| Detect.AlignedSpans | visolex/lexnorm/detect.py:65-80 | Every span comes from an emitted NSW token. Every span is the span of its token and is well formed, and the token indices increase strictly. |
| Detect.AlignedSpansComplete | visolex/lexnorm/detect.py:67-79 | Every token flagged NSW whose detokenized text is non-empty gets a span. |
| Detect.AlignSpans | visolex/lexnorm/detect.py:65-80 | The loop produces exactly the aligned spans of all tokens, and each returned span is well formed and flagged 1. |
| Detect.PrefixGrows | visolex/lexnorm/detect.py:70-71 | With a concatenating detokenizer, a longer token prefix detokenizes to an extension of a shorter one. |
| Detect.CursorIsPrefixLength | visolex/lexnorm/detect.py:80 | When no piece is empty, the cursor after i tokens equals the length of the detokenized first i tokens. |
| Detect.OffsetsMatchDetokenizedText | visolex/lexnorm/detect.py:66-80 | Assume no piece is empty and the detokenizer concatenates: every word-initial token renders as a space followed by its own text, the first token included. Then every span's offsets lie inside the detokenized text and slice out exactly its NSW text, and spans do not overlap. A detokenizer that drops the leading space breaks this at token 0 (`DetectExamples.TrimmedFirstTokenShiftsSpan`). |
| Detect.Merged | visolex/lexnorm/detect.py:33-47 | Merging keeps the first span's index and start and the last span's end, and never lengthens the list. |
| Detect.Absorb | visolex/lexnorm/detect.py:38-44 | One merge step fuses the next span into the last one when the last one ends where the next starts; otherwise the next span is appended. |
| Detect.ConcatenateNswSpans | visolex/lexnorm/detect.py:33-47 | The loop raises IndexError on an empty list (the `nsw_spans[0]` read); otherwise it returns the merged spans. |
| Detect.AbsorbPreservesText | visolex/lexnorm/detect.py:40 | A merge step appends the next span's text to the concatenated NSW text. |
| Detect.MergedPreservesText | visolex/lexnorm/detect.py:33-47 | Merging never changes the concatenation of the spans' NSW texts. |
| Detect.MergedUnadjacentIsIdentity | visolex/lexnorm/detect.py:42-44 | Spans of which no neighbour ends where the next starts are returned unchanged. |
| Detect.MergedHasNoAdjacentNeighbours | visolex/lexnorm/detect.py:37-45 | After merging, no span ends where its successor starts. |
| Detect.MergedIsIdempotent | visolex/lexnorm/detect.py:33-47 | Merging twice equals merging once. |
| Detect.MergedKeepsWellFormed | visolex/lexnorm/detect.py:39-41 | Merging well-formed spans gives well-formed spans (a non-empty text whose length is end minus start). |
| Detect.FilteredLabelsStayParallel | visolex/lexnorm/detect.py:60-61 | After special tokens are deleted, the NSW labels are selected at the same positions. The selection fails exactly when a position is out of range; on success tokens and labels stay parallel. |
| Detect.DetectionShape | visolex/lexnorm/detect.py:82-86 | Without merging, detection returns the aligned spans. With merging, an empty result raises IndexError. Otherwise it returns the merged spans, which are no more numerous and carry the same text. |
| Detect.NswDetector.constructor | visolex/lexnorm/detect.py:6-20 | The tokenizer defaults to the pretrained one. `loaded` is set exactly when no normalizer is passed in; then a fresh student is created and `student_best` is loaded into it. A passed-in normalizer is used as is, with `loaded` false. |
| Detect.NswDetector.Load | visolex/lexnorm/detect.py:22-31 | Loading sets `loaded`. An unloaded detector loads `student_last` or `student_best`; an already loaded detector's student is unchanged. |
| Detect.NswDetector.DetectNsw | visolex/lexnorm/detect.py:49-86 | Loads `student_best` only if not loaded. With neither input nor output it raises AssertionError. Otherwise it runs inference only when no output is given, and returns the detection of that output (merged exactly when an input string is given). |
| DetectExamples.EmptyPieceShiftsNextSpan | visolex/lexnorm/detect.py:80 | For the tokens "", "ab", "c" flagged 0, 1, 1, the spans come out at offsets 1-3 and 2-3 of the text "abc": the cursor advances by one for the empty piece. |
| DetectExamples.TrimmedFirstTokenShiftsSpan | visolex/lexnorm/detect.py:66-79 | For the single NSW token "\u2581ab" and a detokenizer that renders it as "ab" without the leading space, the span is [1, 3): shifted by one and running past the two-character text. |
| Normalize.AnnotateSpans | visolex/lexnorm/normalize.py:36-39 | Annotation succeeds exactly when every span's index plus one is within the predictions and probabilities; otherwise it raises IndexError. On success each span gets its own annotation and keeps all other fields. |
| Normalize.FinishWithPredictions | visolex/lexnorm/normalize.py:36-46 | The detection branch's tail returns exactly the specified result: the annotated spans and the post-processed string of the prediction without special tokens. |
| Normalize.ResultShapeFollowsFlag | visolex/lexnorm/normalize.py:33-51 | Without detection the call always succeeds. A successful result carries spans exactly when detection was requested. |
| Normalize.ReturnedSpansAreUnmerged | visolex/lexnorm/normalize.py:35-46 | The spans the normaliser returns are the unmerged detection spans, one for one. Each carries as prediction the detokenized predicted token right after its index, and as confidence the probability at that same position. |
| Normalize.UnmergedSpansAreBare | visolex/lexnorm/detect.py:72-79 | Spans fresh from detection carry no prediction and no confidence. |
| Normalize.WithPredictionsAnnotates | visolex/lexnorm/normalize.py:36-39 | When annotation succeeds on bare spans, it returns one span per input span. Each is the same span with the prediction and the confidence (`proba[index + 1]`) for the token after its index, and the span list is non-empty. |
| Normalize.MergedFullLengthIsIdentity | visolex/lexnorm/detect.py:33-47 | A merge that does not shorten the list returns it unchanged. |
| Normalize.MergeShortensTouchingSpans | visolex/lexnorm/detect.py:39-41 | If some span ends where its successor starts, merging shortens the list. |
| Normalize.NormalizerKeepsTouchingSpansApart | visolex/lexnorm/normalize.py:44-46 | When detection yields touching spans, the normaliser returns strictly more spans than the discarded merge would (as in tests/lexnorm/test_normalizer.py:72-79). |
| Normalize.NoSpansFailsInDetectMode | visolex/lexnorm/normalize.py:44-45 | When detection finds no span, detection mode raises IndexError (from the discarded merge). |
| Normalize.KeepIndicesWithoutSpecials | visolex/lexnorm/normalize.py:40-41 | Without special tokens, deleting them keeps every position. |
| Normalize.BranchesAgreeWithoutSpecialTokens | visolex/lexnorm/normalize.py:40-50 | When the prediction holds no special token, both branches produce the same normalised string. |
| Normalize.ViSoLexNormalizer.constructor | visolex/lexnorm/normalize.py:9-14 | A new normaliser holds the pretrained tokenizer and a fresh, unloaded student; it is not loaded and has no detector. |
| Normalize.ViSoLexNormalizer.Load | visolex/lexnorm/normalize.py:16-23 | Loading sets `loaded` and loads `student_last` or `student_best` into the student. |
| Normalize.ViSoLexNormalizer.NormalizeSentence | visolex/lexnorm/normalize.py:25-51 | Loads `student_best` if needed and runs inference exactly once. The result is the specified output for that inference. In detection mode a fresh loaded detector shares the normaliser's student and reloads `student_best` into it. |
| Preprocessing.Strip | visolex/framework_components/preprocessing.py:83-84 | The stripped string has no leading or trailing whitespace and is no longer. |
| Preprocessing.LStripIsSuffix | visolex/framework_components/preprocessing.py:83-84 | Left-stripping removes a prefix made only of whitespace. |
| Preprocessing.RStripIsPrefix | visolex/framework_components/preprocessing.py:83-84 | Right-stripping removes a suffix made only of whitespace. |
| Preprocessing.LStripDropsSpaces | visolex/framework_components/preprocessing.py:83-84 | Every character that left-stripping removes is whitespace. |
| Preprocessing.RStripDropsSpaces | visolex/framework_components/preprocessing.py:83-84 | Every character that right-stripping removes is whitespace. |
| Preprocessing.StripEmptyIffBlank | visolex/framework_components/preprocessing.py:83-84 | A string strips to empty exactly when it is all whitespace. |
| Preprocessing.StripKeepsStripped | visolex/framework_components/preprocessing.py:83-84 | Stripping an already stripped string changes nothing. |
| Preprocessing.SplitYieldsWords | visolex/framework_components/preprocessing.py:154 | Whitespace splitting yields only non-empty pieces without whitespace. |
| Preprocessing.SplitOfStripped | visolex/framework_components/preprocessing.py:154 | Splitting a stripped string gives the same words as splitting the original. |
| Preprocessing.ToneNormalization | visolex/framework_components/preprocessing.py:20-22 | The loop returns the text with each pair's replacement applied in map order. |
| Preprocessing.ToneNormalizedSequential | visolex/framework_components/preprocessing.py:20-22 | Applying two concatenated maps equals applying the first map, then the second. |
| Preprocessing.ToneNormalizedFixesCleanText | visolex/framework_components/preprocessing.py:20-22 | Text containing none of the map's (non-empty) source patterns is left unchanged. |
| Preprocessing.ToneNormalizedSkipsIdentityPair | visolex/framework_components/preprocessing.py:21 | A pair that replaces a string by itself has no effect. |
| Preprocessing.ReplaceWithoutOccurrence | visolex/framework_components/preprocessing.py:21 | Replacing a non-empty needle that does not occur leaves the text unchanged. |
| Preprocessing.ReplaceBySelf | visolex/framework_components/preprocessing.py:21 | Replacing a needle by itself leaves the text unchanged, the empty needle included. |
| Preprocessing.DotsRemoved | visolex/framework_components/preprocessing.py:35-39 | Same length, and only "." entries can become "". The last item is kept. A leading "." is blanked when more items follow. An inner "." is kept exactly when `isUpper` holds of the next item. `isUpper` stands for Python's `str.isupper()` of the whole item. |
| Preprocessing.RemoveDotNotEnd | visolex/framework_components/preprocessing.py:35-39 | The in-place loop leaves the array equal to the specified dot removal of its old contents. |
| Preprocessing.FlattenAppend | visolex/framework_components/preprocessing.py:52 | Flattening distributes over concatenation. |
| Preprocessing.FlattenOfLeaves | visolex/framework_components/preprocessing.py:52 | A list of plain items flattens to itself. |
| Preprocessing.FlattenIsIdempotent | visolex/framework_components/preprocessing.py:52 | Flattening an already flat list changes nothing. |
| Preprocessing.FlattenHoldsExactlyTheLeaves | visolex/framework_components/preprocessing.py:52 | An item is in the flattened list exactly when some element of the input holds it at some depth. |
| Preprocessing.NonEmptyStripped | visolex/framework_components/preprocessing.py:82-86 | Every kept item is non-empty and stripped; no more items come out than went in. |
| Preprocessing.NonEmptyStrippedAppend | visolex/framework_components/preprocessing.py:82-86 | Filtering distributes over concatenation. |
| Preprocessing.NonEmptyStrippedKeepsCleanItems | visolex/framework_components/preprocessing.py:82-86 | A list of non-empty stripped items is kept unchanged. |
| Preprocessing.AddNonEmpty | visolex/framework_components/preprocessing.py:71-86 | The loop returns the target list followed by the stripped, non-empty items of the source, in order. |
| Preprocessing.SplitEmojiTextAt | visolex/framework_components/preprocessing.py:100 | Each emoji character is replaced by itself with a space on either side; every other character is kept. |
| Preprocessing.SplitEmojiTextAppend | visolex/framework_components/preprocessing.py:100 | Spacing out emoji distributes over concatenation. |
| Preprocessing.SplitEmojiTextWithoutEmoji | visolex/framework_components/preprocessing.py:100 | Text without emoji is unchanged. |
| Preprocessing.WordPartsAt | visolex/framework_components/preprocessing.py:116-117 | For each character of a word, the inner loop emits that character if it is an emoji, and the whole word otherwise. |
| Preprocessing.WordEntries | visolex/framework_components/preprocessing.py:113-120 | A word without emoji contributes itself once; a word with emoji contributes one entry per character. |
| Preprocessing.EmojiWordParts | visolex/framework_components/preprocessing.py:116-117 | The inner loop returns the specified parts of the word. |
| Preprocessing.SplitEmojiEmoji | visolex/framework_components/preprocessing.py:102-120 | The nested loops return the specified entries of every word, in order. |
| Preprocessing.SplitEmojiWordsAppend | visolex/framework_components/preprocessing.py:113-120 | Splitting emoji words distributes over concatenation. |
| Preprocessing.SplitEmojiWordsWithoutEmoji | visolex/framework_components/preprocessing.py:118-119 | Words without emoji are returned unchanged. |
| Preprocessing.SplitEmojiWordOfEmojiWord | visolex/framework_components/preprocessing.py:115-117 | A word holding an emoji becomes one entry per character: the emoji itself, or the whole word for any other character. |
| Preprocessing.NonZeroWidth | visolex/framework_components/preprocessing.py:142 | Only matches with start different from end survive, and each comes from the input. |
| Preprocessing.NonZeroWidthKeepsWide | visolex/framework_components/preprocessing.py:142 | Matches that are all wide are kept unchanged. |
| Preprocessing.BadSpans | visolex/framework_components/preprocessing.py:138-144 | Every collected protected span has non-zero width. |
| Preprocessing.CollectBadSpans | visolex/framework_components/preprocessing.py:138-144 | The loop collects the specified spans, in pattern order, and one text per span. |
| Preprocessing.SpanIndices | visolex/framework_components/preprocessing.py:147-150 | The index list is 0, then each span's start and end, then the text length. |
| Preprocessing.SplitGoods | visolex/framework_components/preprocessing.py:153-156 | The loop returns, for each gap between consecutive indices, the split words of that slice. |
| Preprocessing.GapFromIndices | visolex/framework_components/preprocessing.py:153-156 | The j-th pair of indices slices out exactly the j-th text between protected spans. |
| Preprocessing.Interleaved | visolex/framework_components/preprocessing.py:159-162 | The interleaved tokens are all non-empty and stripped. |
| Preprocessing.TokensOfOneSpan | visolex/framework_components/preprocessing.py:159-164 | With one protected span, the tokens are the words before it, the span's text, then the words after it. |
| Preprocessing.SimpleTokenize | visolex/framework_components/preprocessing.py:123-164 | The method returns exactly the specified tokenization of the edge-punctuation-split text. |
| Preprocessing.NoBadSpansMeansWhitespaceSplit | visolex/framework_components/preprocessing.py:153-164 | With no protected span, tokenizing is plain whitespace splitting. |
| Preprocessing.NothingFromEmptyText | visolex/framework_components/preprocessing.py:153-164 | The empty text yields no tokens, whatever the spans. |
| Preprocessing.PiecesArePrefix | visolex/framework_components/preprocessing.py:147-156 | For spans in text order, the gaps and spans up to the n-th span rebuild the text up to that span's end. |
| Preprocessing.OrderedGoodsLieBetweenMatches | visolex/framework_components/preprocessing.py:147-156 | For spans in text order, each inner gap is the text between the previous span's end and the next span's start. |
| Preprocessing.OrderedSpansPartitionText | visolex/framework_components/preprocessing.py:147-156 | For spans in text order, gaps and spans together rebuild the whole text. |
| Preprocessing.UnorderedMatchesRepeatText | visolex/framework_components/preprocessing.py:138-164 | When the protected match comes after the emoji match in the text, "ab cd" tokenizes to "ab", "cd", "ab", "cd". |
| BasicNormalizer.Lower | visolex/lexnorm/basic_normalizer.py:13-14 | Lowercasing maps every character and keeps the length. |
| BasicNormalizer.Kept | visolex/lexnorm/basic_normalizer.py:19 | Only tokens that are not blank are joined. |
| BasicNormalizer.KeptIsEmptyIffAllBlank | visolex/lexnorm/basic_normalizer.py:19 | Nothing is kept exactly when every token is blank. |
| BasicNormalizer.KeptOfNonBlank | visolex/lexnorm/basic_normalizer.py:19 | Non-blank tokens are all kept, in order. |
| BasicNormalizer.JoinIsEmptyIffNoWords | visolex/lexnorm/basic_normalizer.py:19 | Joining non-blank words is empty exactly when there are none. |
| BasicNormalizer.SplitOfJoin | visolex/lexnorm/basic_normalizer.py:19 | Splitting the space-joined words gives back the words. |
| BasicNormalizer.LowercaseComesFirst | visolex/lexnorm/basic_normalizer.py:13-18 | Preprocessing with lowercasing equals preprocessing the lowercased text without it. |
| BasicNormalizer.NoLowercaseIgnoresLowerChar | visolex/lexnorm/basic_normalizer.py:13-14 | Without lowercasing, the case mapping has no influence. |
| BasicNormalizer.OutputIsEmptyIffAllTokensBlank | visolex/lexnorm/basic_normalizer.py:19 | The output is empty exactly when every token from the pipeline is blank. |
| BasicNormalizer.OutputSplitsIntoKeptTokens | visolex/lexnorm/basic_normalizer.py:19 | When tokens hold no whitespace, splitting the output gives back exactly the kept tokens. |
| BasicNormalizer.KeptHasWords | visolex/lexnorm/basic_normalizer.py:19 | The kept tokens without whitespace are non-empty words. |
| BasicNormalizer.EmptyTextNormalizesToEmpty | tests/lexnorm/test_basic_normalizer.py:37-42 | The empty string normalises to the empty string (given rules that do not create text from nothing). |
| BasicNormalizer.PlainTextIsWhitespaceNormalized | visolex/lexnorm/basic_normalizer.py:12-19 | With no emoji and no protected patterns, the output is the tone-normalised words joined by single spaces. |
| BasicNormalizer.EmojiBetweenWordsIsSpacedOut | tests/lexnorm/test_basic_normalizer.py:30-35 | An emoji glued between two words comes out as a separate token with one space on each side. |
| BasicNormalizer.EmojiIsSpaced | visolex/lexnorm/basic_normalizer.py:16 | An emoji between emoji-free text is surrounded by spaces. |
| BasicNormalizer.EmojiTokens | visolex/lexnorm/basic_normalizer.py:17 | Tokenizing a spaced-out emoji gives the word before it, the emoji and the later words. |
| BasicNormalizer.EmojiWordsSplit | visolex/lexnorm/basic_normalizer.py:18 | Those tokens pass the word-level emoji split unchanged. |
| BasicNormalizer.EmojiTokensJoin | visolex/lexnorm/basic_normalizer.py:19 | Joining those tokens separates the emoji by single spaces. |
| Trainer.Max | visolex/framework_components/trainer.py:170 | The maximum is one of the values and no value exceeds it. |
| Trainer.FirstArgMax | visolex/framework_components/trainer.py:170-173 | The first position of the maximum: every earlier value is strictly smaller. |
| Trainer.LastArgMaxIsLastMaximum | visolex/framework_components/trainer.py:66-68 | Taking the arg maximum of the reversed history gives the last position holding the maximum; every later value is strictly smaller. |
| Trainer.PromotedIffStrictNewMaximum | visolex/framework_components/trainer.py:170-171 | A round is promoted exactly when its score beats every earlier score strictly. |
| Trainer.PromotionsSnoc | visolex/framework_components/trainer.py:170-173 | A new round adds the best checkpoints to the saves exactly when its score exceeds the running maximum. |
| Trainer.RunningMaximumAfterPromotion | visolex/framework_components/trainer.py:170-173 | Until the next promotion, the running maximum is the last promoted score. |
| Trainer.LastPromotionIsFirstMaximum | visolex/framework_components/trainer.py:170-173 | The last promoted round is the first position of the overall maximum. |
| Trainer.NoPromotionIffWarmUpIsBest | visolex/framework_components/trainer.py:170-173 | No round is promoted exactly when the warm-up round is the first maximum. |
| Trainer.NoPromotionKeepsWarmUpMaximum | visolex/framework_components/trainer.py:170-173 | Without promotions, the warm-up score stays the running maximum. |
| Trainer.TiedMaximumSplitsSavedAndReportedRound | visolex/framework_components/trainer.py:66-68 | With scores 1, 5, 5 the checkpoint saved is round 1's, but the report picks round 2. |
| Trainer.SampledIsSubMultiset | visolex/framework_components/trainer.py:136 | Every downsample is a sub-multiset of the source rows. |
| Trainer.Dropped | visolex/framework_components/trainer.py:151 | Dropping a label value keeps only rows with another label, all from the input. |
| Trainer.DroppedKeepsOtherLabels | visolex/framework_components/trainer.py:151 | Every row with another label is kept. |
| Trainer.PseudoLabelsAreWeightedAndFiltered | visolex/framework_components/trainer.py:142-151 | Pseudo-labelled rows are exactly the predictions whose label is not -1. Each is weighted by its highest probability. |
| Trainer.Initial | visolex/framework_components/trainer.py:27-39 | The initial state is consistent with the configuration. |
| Trainer.InitFailsOnlyForWeaklyWithoutUnlabeled | visolex/framework_components/trainer.py:13-15 | Construction fails with AssertionError exactly when weakly supervised training has no unlabeled data. Other modes without unlabeled data succeed only because `Trainer.Created` assumes `create_pseudodataset(None)` is empty (see below). |
| Trainer.InitialStateByMode | visolex/framework_components/trainer.py:27-39 | A pseudo-dataset exists exactly outside supervised mode, downsampled once to at most the sample size. All histories, saves and results start empty. |
| Trainer.WarmUpAppendsOneRecordEach | visolex/framework_components/trainer.py:103-128 | Warm-up appends one train, dev, test and prediction record. It saves `student_best` only in supervised mode and leaves the pseudo-dataset alone. |
| Trainer.RoundsWriteTheirOwnPartition | visolex/framework_components/trainer.py:142-227 | A semi-supervised round rewrites only the student partition of the pseudo-dataset, and a weakly supervised round only the teacher partition. In each case the rows are the round's fresh pseudo-labels. |
| Trainer.PseudoTrainingUsesFreshLabels | visolex/framework_components/trainer.py:155-236 | Each round trains on the pseudo-labels it has just computed, then fine-tunes on the labeled data. |
| Trainer.StudentRoundStep | visolex/framework_components/trainer.py:155-176 | A student round appends the new dev score and one record per history, and adds the best checkpoints exactly when the score beats the running maximum. |
| Trainer.SemiRoundStep | visolex/framework_components/trainer.py:133-176 | A semi-supervised round downsamples once and then makes one student round. |
| Trainer.WeaklyRoundStep | visolex/framework_components/trainer.py:198-252 | A weakly supervised round downsamples once, appends the teacher's dev and test records, saves `student_best` and `teacher_best` on promotion, and makes one student round. |
| Trainer.SemiRounds | visolex/framework_components/trainer.py:133-176 | After n rounds, every student history has grown by n and n more downsamples have been drawn; the teacher histories are untouched. |
| Trainer.WeaklyRounds | visolex/framework_components/trainer.py:198-252 | After n rounds, every student history and the teacher's dev and test histories have grown by n. |
| Trainer.TeacherSetupSeedsZeroRecords | visolex/framework_components/trainer.py:183-196 | Building the teacher seeds each teacher history with a zero record and sets its input width from the student kind. |
| Trainer.TrainedHistoryLengths | visolex/framework_components/trainer.py:41-47 | After training in a known mode, every history holds one record per round including warm-up; the teacher histories match in weakly supervised mode. |
| Trainer.TrainedSaves | visolex/framework_components/trainer.py:41-47 | The saved checkpoints are `student_best` once in supervised mode, and otherwise the best checkpoints once per promoted round. |
| Trainer.ReportedAtEpoch | visolex/framework_components/trainer.py:77-90 | The report holds the dev and test records of the chosen epoch and the complete histories. |
| Trainer.FinishedReportsLastBestEpoch | visolex/framework_components/trainer.py:66-100 | A successful finish reports the last epoch whose dev score is the maximum and the last epoch whose test score is the maximum. The results are built at the dev epoch, the last checkpoints are saved, and the predictions written are those of the dev epoch. |
| Trainer.FinishedFailures | visolex/framework_components/trainer.py:52-68 | Finishing raises IndexError when a test history is shorter than its dev history, and ValueError (the `argmax` of an empty list) when there is no dev record. Any other failure is an IndexError, and a failed finish saves no checkpoint. |
| Trainer.FinishedSucceedsOnFullHistories | visolex/framework_components/trainer.py:52-101 | Finishing succeeds when the histories are non-empty and of equal length. |
| Trainer.TrainFailsOnlyForUnknownMode | visolex/framework_components/trainer.py:41-47 | Training from the initial state fails, with ValueError and no state change, exactly for an unknown mode. This relies on the assumed `create_pseudodataset` and on saves succeeding (see below). |
| Trainer.ViSoLexTrainer.constructor | visolex/framework_components/trainer.py:7-39 | A new trainer's fields equal the initial state of its configuration. |
| Trainer.ViSoLexTrainer.New | visolex/framework_components/trainer.py:13-15 | Construction fails with AssertionError exactly when the assertion fails; otherwise it gives a fresh trainer in the initial state. |
| Trainer.ViSoLexTrainer.DownsamplePseudo | visolex/framework_components/trainer.py:30 | Downsampling replaces the sample by the next draw and counts it. |
| Trainer.ViSoLexTrainer.SupervisedTraining | visolex/framework_components/trainer.py:103-128 | The fields after the call are the warm-up step of the fields before it. |
| Trainer.ViSoLexTrainer.StudentIteration | visolex/framework_components/trainer.py:154-176 | The fields after the call are one student round of the fields before it. |
| Trainer.ViSoLexTrainer.SemiIteration | visolex/framework_components/trainer.py:133-176 | The fields after the call are one semi-supervised round of the fields before it. |
| Trainer.ViSoLexTrainer.WeaklyIteration | visolex/framework_components/trainer.py:198-252 | The fields after the call are one weakly supervised round of the fields before it. |
| Trainer.ViSoLexTrainer.SemiSupervisedTraining | visolex/framework_components/trainer.py:130-176 | The fields become warm-up followed by the configured number of semi-supervised rounds. |
| Trainer.ViSoLexTrainer.BuildTeacher | visolex/framework_components/trainer.py:183-196 | The fields after the call are the teacher set-up of the fields before it. |
| Trainer.ViSoLexTrainer.WeaklySupervisedTraining | visolex/framework_components/trainer.py:179-252 | The fields become warm-up, teacher set-up, then the configured number of weakly supervised rounds. |
| Trainer.ViSoLexTrainer.Finish | visolex/framework_components/trainer.py:49-101 | Fields and result after the call are the specified finish of the fields before it. |
| Trainer.ViSoLexTrainer.Report | visolex/framework_components/trainer.py:77-101 | Fields and result after the call are the specified report at the given epochs. |
| Trainer.ViSoLexTrainer.Train | visolex/framework_components/trainer.py:41-101 | Fields and result after the call are the specified training run: dispatch by mode, then finish. |

## Left out

- File, console and log output: saving checkpoints to disk and writing predictions to files. A checkpoint save is recorded as an entry in a list. `print` in `load` and the logger calls are dropped.
- The neural models, as inference, training, prediction and evaluation functions passed in as parameters. `get_tokenizer` and `AssetFetcher` downloads are not part of this model.
- Floating point: scores are `real`. `round(..., 4)` and the formatting of performance tables are not modelled.
- `deepcopy` and the aliasing of span dictionaries: spans are immutable values, so in-place annotation is a new list of spans.
- Trainer.Sampled: the random downsample is a mask supplied by an oracle. The model does not state randomness or uniformity.
- The internals of the pseudo-dataset (`Dataset` objects, `sort_data`):
  - rows are records with a label, a weight and probabilities;
  - `sort_data` is treated as an order-preserving identity.
- The weakly supervised teacher's `train_ran` call (trainer.py:203-207) is not modelled: its result is discarded in the code, and the teacher's training is inside the teacher oracle. No train call is recorded for it.
- `save_and_report_results` is reduced to recording the result entries.
- `post_process` is an opaque string function parameter.
- BasicNormalizer.Lower: `str.lower()` is a character-to-character map parameter. Multi-character case mappings are not modelled.
- Preprocessing.IsEmoji: emoji are single characters. Multi-character emoji sequences (joiners, modifiers) are not modelled.
- The regular expressions of `simple_tokenize` are functions from text to matches. `split_edge_punctuation` is a string function parameter.
- `nsw_indices` and `nsw_tokens` in `detect_nsw` are computed but never used; they are not modelled.
- The `Student` class is reduced to the checkpoint it has loaded and a count of inference calls.
- Collaborators.Student.Load: the version suffix is not modelled. student.py:58 loads the folder `f"{name}_last"` unless `best=True`, and every caller passes only a name (detect.py:18, 28, 30; normalize.py:20, 22). So `load('student_best')` reads `student_best_last`, which the trainer never writes (it saves `student_best` at trainer.py:113 and 173). The model takes the named checkpoint to be the one the trainer saved under that name.
- Preprocessing.DotsRemoved: `str.isupper()` is the parameter `isUpper`, not constrained further. Python's rule (at least one cased character, all cased characters upper) is not modelled.
- Collaborators.DeleteSpecialTokens: `delete_special_tokens` is in `visolex/utils`, which is not part of this model; only its call (detect.py:60, normalize.py:40) and the list SPECIAL_TOKEN_LS (global_variables.py:26) are. The model assumes it drops exactly the five tokens of that list, keeps every other token (`<pad>` included) in order, and returns the kept positions. `Collaborators.KeepIndices` ("every non-special position is kept"), `Normalize.KeepIndicesWithoutSpecials` and `Normalize.BranchesAgreeWithoutSpecialTokens` hold under that assumed body.
- Trainer.Created: `create_pseudodataset` and `downsample` are not part of this model (trainer.py:29-30 only calls them). The model assumes every partition of the new pseudo-dataset starts as the unlabeled rows, and that `None` (semi-supervised or an unknown mode without unlabeled data) gives an empty pseudo-dataset rather than an error. `Trainer.Initial`, `Trainer.InitFailsOnlyForWeaklyWithoutUnlabeled`, `Trainer.InitialStateByMode` and `Trainer.TrainFailsOnlyForUnknownMode` depend on that choice.

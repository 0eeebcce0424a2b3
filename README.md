# Transcript and invalid-segment engine of ai-video-editor-frontend

This project is a Dafny model of the logic at the centre of the video editor's front end. The editor works on a word-level transcript, where every word has a start and an end time. It also works on annotations of "invalid" stretches: repetitions, long pauses and filler words. An annotation is a time interval. Once it is resolved against the transcript, it also carries an inclusive word-index range and the joined text of those words.

## Modules

The model has one Dafny module per source file of the core, plus three shared modules.

**Shared modules**
- `Common` holds the shared value types (word, annotation kind, annotation) and FindIndex, Slice and Join.
- `Continuity` holds the continuity scan used by both groupings. The scan splits the words into inclusive spans wherever the silence before a word exceeds a gap.
  - It proves that the spans cover the words contiguously.
  - It proves that a break happens exactly at the long silences.
  - It proves that the number of spans is one more than the number of such silences.
- `Membership` relates the four membership tests by lemmas. The tests stay separate, as in the code.

**`ProcessInvalidSegments`** (`src/utils/processInvalidSegments.ts`) covers:
- the mapping of time intervals to word ranges;
- the filler-word detector;
- the long-pause detector;
- the merge of detected candidates into an existing list.

**`TranscriptEditor`** (`src/components/video/TranscriptEditorComponent.tsx`) models:
- the 0.2 s word grouping;
- the word-in-segment test and its first-match lookup;
- the first-run finder;
- the `handleWordClick` selection machine;
- `addInvalidSegment`;
- the run-length display ranges.

It is a class `Editor` over the transcript store and the annotation store.

**Stores**
- `InvalidStore` (`src/stores/InvalidStore.ts`) is the three-slot store `apiResponse` / `saveCheckpoint` / `editing`, with its five actions.
- `TranscriptStore` (`src/stores/TranscriptStore.ts`) holds the transcript, the loading flag and the error, with the list actions.
- `VideoStore` (`src/stores/VideoStore.ts`) holds the field setters, the id-keyed `updateSegment` and `reset`.

**Other modules**
- `ContinuousViewer` (`src/components/video/ContinuousTranscriptViewer.tsx`) is the 0.3 s grouping over string times.
- `SegmentReview` (`src/components/video/SegmentReviewComponent.tsx`) is the containment-based text of a segment.
- `Api` (`src/apis/api.ts`) is `simplifyInvalidModels`.
- `EditorController` (`src/controllers/EditorController.tsx`) covers:
  - the status-order readiness test;
  - the guards that refuse requests when there is no job;
  - the job id;
  - the polling timer handle;
  - `reset`.
- `AnalysisScreen` (`src/screens/AnalysisScreen.tsx`) covers the progress table, the step list, the per-poll status handling and the shown-steps classification.
- `TestScreen` (`src/screens/TestScreen.tsx`) covers:
  - keep toggling and text editing of segments;
  - the play-head lookup;
  - the kept duration and count;
  - the step transitions.

**How the code is modelled**
- Where the code has an explicit `for` or `forEach` loop, the model has a method with the same loop. Its postcondition ties the result to a specification function, and the properties are proved about that function. Array combinators (`map`, `filter`, `some`, `findIndex`, `reduce`) are modelled as functions.
- Stores and stateful components are classes whose methods state their whole new state.
- Times are `real`. Gap and pause thresholds are parameters, and the source's constants are named (`EditorGap` 0.2, `ViewerGap` 0.3, `DefaultPauseThreshold` 1.5).

**Behaviour of the code worth noting**
- The merge tests each candidate only against the original list (`processInvalidSegments.ts:149`), not against the growing result. `CandidatesMayOverlapEachOther` shows two accepted candidates that overlap.
- The filler list is the code's list, which includes "basically".
- The four membership tests are not unified. Their differences are stated in `Membership.TestsDiffer`. The editor's test and the mapper's start-word test differ only on zero-length words at the interval's end (`Membership.MarkedImpliesStarts`).
- An empty transcript leaves the editor's groups as they were (`TranscriptEditorComponent.tsx:113`). It does not clear them.

## Model

| member | source | states |
|---|---|---|
| Common.FindIndex | src/utils/processInvalidSegments.ts:23-26 | `findIndex`: the first position satisfying the predicate, or none when no position does |
| Common.Slice | src/utils/processInvalidSegments.ts:54-55 | `slice` with clamped bounds: the sub-sequence for in-range bounds, empty past the end |
| Common.JoinAppend | src/utils/processInvalidSegments.ts:56-57 | joining one more word appends a space and the word |
| Continuity.SpansUpTo | src/components/video/TranscriptEditorComponent.tsx:115-157 | the scan yields no span exactly for no words; the last span ends at the last scanned word; every span lies inside the words |
| Continuity.SpansAreGrouping | src/components/video/TranscriptEditorComponent.tsx:131-147 | the spans start at 0, are contiguous, end at the last word, open exactly after silences longer than the gap and contain no such silence inside |
| Continuity.SpansCover | src/components/video/TranscriptEditorComponent.tsx:115-157 | the spans' words concatenate to the scanned words |
| Continuity.BreakOpensGroup | src/components/video/TranscriptEditorComponent.tsx:142-147 | every silence longer than the gap opens a span at that word |
| Continuity.GroupCount | src/components/video/ContinuousTranscriptViewer.tsx:40-69 | a non-empty prefix has one span more than it has long silences |
| Continuity.FlattenTexts | src/components/video/ContinuousTranscriptViewer.tsx:34-60 | taking word texts commutes with concatenating runs |
| ProcessInvalidSegments.StartIndex | src/utils/processInvalidSegments.ts:23-26 | the first word that starts in [start, end) or is ongoing at start; none when no word qualifies |
| ProcessInvalidSegments.Cutoff | src/utils/processInvalidSegments.ts:36-42 | the forward scan stops at the first word starting after the segment end |
| ProcessInvalidSegments.LastExtending | src/utils/processInvalidSegments.ts:44-50 | the last word up to a bound passing the end-word test, or the start word |
| ProcessInvalidSegments.EndIndex | src/utils/processInvalidSegments.ts:35-51 | the end index is the last index at or after the start that passes the lines 45-48 test, among the words before the first word past the end |
| ProcessInvalidSegments.EndIndexUnique | src/utils/processInvalidSegments.ts:35-51 | that characterisation determines the end index |
| ProcessInvalidSegments.FindEndIndex | src/utils/processInvalidSegments.ts:35-51 | the `for` loop with `break` computes EndIndex |
| ProcessInvalidSegments.ProcessSegment | src/utils/processInvalidSegments.ts:20-65 | kind, interval and `is_entire` are copied; an unmatched segment is returned unchanged; a matched one gets start <= end < length and the space-joined text of its words |
| ProcessInvalidSegments.ProcessInvalidSegments | src/utils/processInvalidSegments.ts:12-67 | an empty list or an empty transcript returns the input; otherwise the output has the same length and order, entry by entry the segment's resolution |
| ProcessInvalidSegments.EmptyTranscriptUnresolved | src/utils/processInvalidSegments.ts:16-31 | with no words, no segment finds a start word |
| ProcessInvalidSegments.ResolvedStartExtends | src/utils/processInvalidSegments.ts:35-50 | a start word not past the end also passes the end-word test |
| ProcessInvalidSegments.MappingExample | src/utils/processInvalidSegments.ts:20-65 | a concrete resolution: an interval from inside word 0 to inside word 2 gets indices 0..2 and text "a b c" |
| ProcessInvalidSegments.Lower | src/utils/processInvalidSegments.ts:80 | lower-casing keeps the length and maps each character |
| ProcessInvalidSegments.DetectFillerWords | src/utils/processInvalidSegments.ts:71-100 | the `forEach` loop pushing annotations computes Fillers |
| ProcessInvalidSegments.FillersSound | src/utils/processInvalidSegments.ts:79-96 | for any word test, in particular the detector's, every emitted annotation belongs to an accepted word: kind filler_words, start = end index = its position, its own times and text, not entire |
| ProcessInvalidSegments.FillersOrdered | src/utils/processInvalidSegments.ts:79-96 | annotations come in strictly increasing word order |
| ProcessInvalidSegments.FillersComplete | src/utils/processInvalidSegments.ts:79-96 | every accepted (filler) word gets an annotation |
| ProcessInvalidSegments.NoFillersNoAnnotations | src/utils/processInvalidSegments.ts:79-99 | no filler word, no annotation |
| ProcessInvalidSegments.FillerTokenMembership | src/utils/processInvalidSegments.ts:73-83 | the token lookup is exactly `includes` on the filler list |
| ProcessInvalidSegments.FillerMatchExamples | src/utils/processInvalidSegments.ts:73-83 | " Um" matches after lower-casing and trimming; "umbrella" does not |
| ProcessInvalidSegments.DetectLongPauses | src/utils/processInvalidSegments.ts:103-131 | the loop from word 1 computes Pauses |
| ProcessInvalidSegments.PausesSound | src/utils/processInvalidSegments.ts:107-127 | every annotation is a gap at or above the threshold, spanning [previous end, next start] with indices i-1 and i, kind long_pause |
| ProcessInvalidSegments.PausesOrdered | src/utils/processInvalidSegments.ts:107-127 | pause annotations come in strictly increasing order |
| ProcessInvalidSegments.PausesComplete | src/utils/processInvalidSegments.ts:107-127 | every gap at or above the threshold gets an annotation |
| ProcessInvalidSegments.PauseExamples | src/utils/processInvalidSegments.ts:103-131 | a 2 s gap yields one pause at the default 1.5 and none at 2.5 |
| ProcessInvalidSegments.ProcessFillerAndLongPauses | src/utils/processInvalidSegments.ts:136-163 | the copy-and-push loop computes the merge of fillers, then pauses, into the existing list |
| ProcessInvalidSegments.MergeExact | src/utils/processInvalidSegments.ts:144-158 | the accepted candidates are the candidates at a strictly increasing sequence of positions, and those positions are exactly the candidates with no closed-interval overlap with an original segment, so order and repetitions are kept |
| ProcessInvalidSegments.MergeKeepsExisting | src/utils/processInvalidSegments.ts:144-158 | the result starts with the existing list unchanged; entry j after it is the candidate at the j-th accepted position, and a value appears there exactly when it is a candidate overlapping no original segment |
| ProcessInvalidSegments.AcceptedIndicesExact | src/utils/processInvalidSegments.ts:147-157 | the accepted positions are below n, strictly increasing, and a position is accepted exactly when its candidate overlaps no original segment |
| ProcessInvalidSegments.AcceptedAtIndices | src/utils/processInvalidSegments.ts:147-157 | the accepted list has one entry per accepted position, each the candidate at that position |
| ProcessInvalidSegments.AcceptedMembers | src/utils/processInvalidSegments.ts:147-157 | every accepted value is one of the first n candidates and overlaps nothing original, and every such candidate is accepted |
| ProcessInvalidSegments.CandidatesMayOverlapEachOther | src/utils/processInvalidSegments.ts:147-158 | candidates are not checked against each other: a filler and a pause that overlap are both accepted |
| TranscriptEditor.GroupsOf | src/components/video/TranscriptEditorComponent.tsx:115-157 | one group per span, taking the span's words |
| TranscriptEditor.GroupWordLists | src/components/video/TranscriptEditorComponent.tsx:115-157 | the words of each group |
| TranscriptEditor.GroupingFlattens | src/components/video/TranscriptEditorComponent.tsx:115-157 | the concatenated group words equal the transcript |
| TranscriptEditor.GroupWordsAreSpanWords | src/components/video/TranscriptEditorComponent.tsx:115-157 | the groups' words are the spans' words |
| TranscriptEditor.GroupingCovers | src/components/video/TranscriptEditorComponent.tsx:115-157 | the first group starts at 0; each starts at the previous end + 1; the last ends at length - 1; each holds its index range with the times of its end words |
| TranscriptEditor.GroupsOfCover | src/components/video/TranscriptEditorComponent.tsx:115-157 | groups built from any grouping of spans cover the words |
| TranscriptEditor.GroupingBreaks | src/components/video/TranscriptEditorComponent.tsx:131-147 | a word opens a new group iff its start minus the previous end exceeds the gap (0.2 s in the editor); no group contains such a silence |
| TranscriptEditor.GroupsOfBreaks | src/components/video/TranscriptEditorComponent.tsx:131-147 | the break property carries from spans to groups |
| TranscriptEditor.GroupingCount | src/components/video/TranscriptEditorComponent.tsx:131-157 | a non-empty transcript has one group more than long silences |
| TranscriptEditor.GroupStepFirst | src/components/video/TranscriptEditorComponent.tsx:119-127 | the first word opens the first group |
| TranscriptEditor.GroupStepOpen | src/components/video/TranscriptEditorComponent.tsx:139-147 | a long silence closes the group and opens one at the word |
| TranscriptEditor.GroupStepWiden | src/components/video/TranscriptEditorComponent.tsx:133-138 | a short silence adds the word to the open group |
| TranscriptEditor.GroupWords | src/components/video/TranscriptEditorComponent.tsx:112-158 | the `forEach` with an optional open group computes Grouping |
| TranscriptEditor.SegmentInfoFor | src/components/video/TranscriptEditorComponent.tsx:232-250 | the lowest-indexed containing annotation and its kind, or both null when none contains the word |
| TranscriptEditor.LookupsAgree | src/components/video/TranscriptEditorComponent.tsx:212-250 | isWordInInvalidSegment holds iff the info lookup finds an index |
| TranscriptEditor.GetInvalidSegmentInfoForWord | src/components/video/TranscriptEditorComponent.tsx:232-250 | the early-return loop computes SegmentInfoFor |
| TranscriptEditor.RunEnd | src/components/video/TranscriptEditorComponent.tsx:265-280 | the end of the run of matching words from a start word: all in between match, the next does not |
| TranscriptEditor.FirstRun | src/components/video/TranscriptEditorComponent.tsx:253-284 | (-1,-1) for a missing segment or no matching word; otherwise start is the first matching word and end closes the first maximal run, start <= end |
| TranscriptEditor.FindWordIndicesInInvalidSegment | src/components/video/TranscriptEditorComponent.tsx:253-284 | the loop with `break` computes FirstRun |
| TranscriptEditor.RunEndUnique | src/components/video/TranscriptEditorComponent.tsx:265-280 | a maximal run from a word ends where RunEnd says |
| TranscriptEditor.Click | src/components/video/TranscriptEditorComponent.tsx:294-343 | the selection after a click stays within the transcript |
| TranscriptEditor.ClickInsideSelectsRun | src/components/video/TranscriptEditorComponent.tsx:296-311 | clicking a marked word selects the first run of its first annotation and records that annotation |
| TranscriptEditor.ClickOutside | src/components/video/TranscriptEditorComponent.tsx:313-341 | clicking an unmarked word clears the annotation index; selects the word alone, clears a single-word selection of it, or spans from the anchor to the word with times from the end words |
| TranscriptEditor.ClickTwiceDeselects | src/components/video/TranscriptEditorComponent.tsx:316-330 | two clicks on the same unmarked word leave nothing selected |
| TranscriptEditor.ClickThenClickSpans | src/components/video/TranscriptEditorComponent.tsx:316-341 | clicking unmarked a then b selects min..max of the two |
| TranscriptEditor.NewSegment | src/components/video/TranscriptEditorComponent.tsx:349-363 | the new annotation has the range's times and indices, the chosen kind, not entire, and the joined text of the range |
| TranscriptEditor.Placed | src/components/video/TranscriptEditorComponent.tsx:365-373 | with an annotation index the entry there is replaced and the rest kept; otherwise the segment is appended |
| TranscriptEditor.WordLabel | src/components/video/TranscriptEditorComponent.tsx:513-523 | selected iff inside the selected range; the segment id is the info lookup's index, present iff the word is marked |
| TranscriptEditor.GroupLabels | src/components/video/TranscriptEditorComponent.tsx:512-523 | one label per word of the group |
| TranscriptEditor.SplitOpen | src/components/video/TranscriptEditorComponent.tsx:540-549 | a word that does not join closes the range and opens a new one |
| TranscriptEditor.SplitWiden | src/components/video/TranscriptEditorComponent.tsx:533-539 | a joining word extends the current range |
| TranscriptEditor.ComputeWordLabel | src/components/video/TranscriptEditorComponent.tsx:513-523 | the inline status and segment-id computation yields WordLabel |
| TranscriptEditor.BuildDisplayRanges | src/components/video/TranscriptEditorComponent.tsx:509-555 | the ranges cover the group's positions contiguously and in order; within a range every word joins the head; adjacent ranges do not join |
| TranscriptEditor.Editor.constructor | src/components/video/TranscriptEditorComponent.tsx:51-58 | no groups, no selection |
| TranscriptEditor.Editor.OnTranscriptChange | src/components/video/TranscriptEditorComponent.tsx:112-158 | a non-empty transcript is regrouped; an empty one leaves the groups as they were |
| TranscriptEditor.Editor.HandleWordClick | src/components/video/TranscriptEditorComponent.tsx:294-343 | the selection becomes Click of the old selection |
| TranscriptEditor.Editor.AddInvalidSegment | src/components/video/TranscriptEditorComponent.tsx:346-378 | with a selection, the editing list becomes Placed of the new segment and the selection clears; without one nothing changes; the other slots are untouched |
| InvalidStore.Store.constructor | src/stores/InvalidStore.ts:21-23 | all three slots start empty |
| InvalidStore.Store.SetApiResponse | src/stores/InvalidStore.ts:24 | sets all three slots |
| InvalidStore.Store.SetSaveCheckpoint | src/stores/InvalidStore.ts:25 | changes only the checkpoint |
| InvalidStore.Store.SetEditing | src/stores/InvalidStore.ts:26 | changes only the editing list |
| InvalidStore.Store.ResetToCheckpoint | src/stores/InvalidStore.ts:27 | editing becomes the checkpoint; the others are unchanged |
| InvalidStore.Store.ResetToApiResponse | src/stores/InvalidStore.ts:28 | editing and checkpoint become the API response, which is unchanged |
| InvalidStore.CheckpointRoundTrip | src/stores/InvalidStore.ts:25-27 | set a checkpoint, edit any number of times, reset: editing equals the checkpoint and the API response is untouched |
| TranscriptStore.Merge | src/stores/TranscriptStore.ts:37 | each present patch field wins, the others are kept |
| TranscriptStore.MergeLaws | src/stores/TranscriptStore.ts:37 | an empty patch is the identity; merging is idempotent |
| TranscriptStore.Without | src/stores/TranscriptStore.ts:43 | removes exactly an in-range position and keeps the order of the rest; an out-of-range index changes nothing |
| TranscriptStore.Store.constructor | src/stores/TranscriptStore.ts:22-24 | an empty transcript, not loading, no error |
| TranscriptStore.Store.SetTranscript | src/stores/TranscriptStore.ts:27 | changes only the transcript |
| TranscriptStore.Store.AddWord | src/stores/TranscriptStore.ts:30-32 | appends at the end |
| TranscriptStore.Store.UpdateWord | src/stores/TranscriptStore.ts:35-39 | merges the patch over entry i; the length and the other entries are unchanged |
| TranscriptStore.Store.RemoveWord | src/stores/TranscriptStore.ts:42-44 | the transcript without position i |
| TranscriptStore.Store.ClearTranscript | src/stores/TranscriptStore.ts:47 | empties the transcript |
| TranscriptStore.Store.SetLoading | src/stores/TranscriptStore.ts:50 | changes only the loading flag |
| TranscriptStore.Store.SetError | src/stores/TranscriptStore.ts:53 | changes only the error |
| ContinuousViewer.Parsed | src/components/video/ContinuousTranscriptViewer.tsx:42-43 | the words with their times converted by the given parse |
| ContinuousViewer.Words | src/components/video/ContinuousTranscriptViewer.tsx:34 | the word texts of a run |
| ContinuousViewer.SegmentsOf | src/components/video/ContinuousTranscriptViewer.tsx:29-69 | one segment per span |
| ContinuousViewer.ViewerStepFirst | src/components/video/ContinuousTranscriptViewer.tsx:30-35 | the first word opens the first segment |
| ContinuousViewer.ViewerStepOpen | src/components/video/ContinuousTranscriptViewer.tsx:46-57 | a silence over the gap finishes the segment and opens one |
| ContinuousViewer.ViewerStepWiden | src/components/video/ContinuousTranscriptViewer.tsx:58-62 | a shorter silence adds the word and moves the end time |
| ContinuousViewer.ContinuousSegments | src/components/video/ContinuousTranscriptViewer.tsx:26-72 | empty input gives no segments; the loop computes ViewerSegments |
| ContinuousViewer.ViewerCoversWords | src/components/video/ContinuousTranscriptViewer.tsx:30-68 | the segments' words concatenate to the transcript's words in order |
| ContinuousViewer.ViewerSegmentsShape | src/components/video/ContinuousTranscriptViewer.tsx:31-69 | each segment is a span's words, joined by spaces, timed by the strings of its end words; spans break exactly at silences over the gap; a non-empty transcript has 1 + (number of such silences) segments |
| ContinuousViewer.WordsOfParsed | src/components/video/ContinuousTranscriptViewer.tsx:34-60 | parsing keeps the word texts |
| ContinuousViewer.RunTexts | src/components/video/ContinuousTranscriptViewer.tsx:34-60 | the segments' word lists are the texts of the spans' words |
| SegmentReview.ContainedWords | src/components/video/SegmentReviewComponent.tsx:40-42 | the selected words are exactly the words with start >= startTime and end <= endTime |
| SegmentReview.ContainedWordsAppend | src/components/video/SegmentReviewComponent.tsx:40-42 | the filter distributes over concatenation, so transcript order is kept |
| SegmentReview.SingleWord | src/components/video/SegmentReviewComponent.tsx:40-42 | a single word is kept iff it is contained |
| SegmentReview.TranscriptTextForSegment | src/components/video/SegmentReviewComponent.tsx:34-47 | "No transcript available" for no words, "No text in this segment" when none is contained, otherwise the contained words joined by spaces |
| SegmentReview.ReviewExample | src/components/video/SegmentReviewComponent.tsx:34-47 | a word that starts inside but ends after the interval is left out |
| Api.Simplify | src/apis/api.ts:65-72 | same length and order; interval, type and `is_entire` copied |
| Api.Restore | src/apis/api.ts:65-72 | a saved record carries no text or indices |
| Api.RestoreAll | src/apis/api.ts:65-72 | restores entry by entry |
| Api.SimplifyIdempotent | src/apis/api.ts:65-72 | simplifying twice equals simplifying once |
| Api.SimplifyEqual | src/apis/api.ts:65-72 | two lists save the same data iff they agree on the four fields |
| Api.MappingNotSaved | src/apis/api.ts:65-72 | resolving indices and text does not change what is saved |
| Membership.StartImpliesMarked | src/utils/processInvalidSegments.ts:23-26 | a word passing the mapper's start test is marked by the editor's test |
| Membership.ContainedImpliesMarked | src/components/video/SegmentReviewComponent.tsx:41 | a well-formed word contained in the interval is marked by the editor |
| Membership.MarkedImpliesExtends | src/components/video/TranscriptEditorComponent.tsx:222-226 | for well-formed words and non-empty intervals an editor-marked word passes the mapper's end test |
| Membership.TestsDiffer | src/utils/processInvalidSegments.ts:45-48 | none of the three converses hold, each refuted by a concrete word (one past the interval's end, one straddling its start, one of zero length at its end), and the end-word test admits a word the start-word test refuses |
| Membership.MarkedImpliesStarts | src/components/video/TranscriptEditorComponent.tsx:220-226 | for a word of positive length over a non-empty interval, an editor-marked word passes the mapper's start-word test, so those two differ only on zero-length words at the interval's end |
| EditorController.IndexFrom | src/controllers/EditorController.tsx:93 | the first position at or after i holding the value, or -1 |
| EditorController.IndexOf | src/controllers/EditorController.tsx:93-94 | `indexOf`: the first position or -1, which is returned exactly when the value is absent |
| EditorController.RequiredIndex | src/types/MetadataModel.ts:12 | processed_invalid_segment is at position 9 |
| EditorController.ReadyStatuses | src/controllers/EditorController.tsx:89-97 | ready iff processed_invalid_segment, trim_start or completed; error is not ready |
| EditorController.UnknownNotReady | src/controllers/EditorController.tsx:93-96 | a string outside the enum is not ready |
| EditorController.ReadyMonotone | src/controllers/EditorController.tsx:89-97 | readiness is monotone along the enum order |
| EditorController.PollStep | src/controllers/EditorController.tsx:175-189 | data is loaded iff ready; polling stops iff ready or error; an error is reported iff error |
| EditorController.Controller.constructor | src/controllers/EditorController.tsx:16-19 | no job and no timer |
| EditorController.Controller.RequireJob | src/controllers/EditorController.tsx:48-51 | with no job (null or empty), sets the message and refuses; otherwise sends for the job |
| EditorController.Controller.RunProcessAll | src/controllers/EditorController.tsx:47-54 | refuses with "No active job to process" when there is no job, leaving the loading flag; with a job sends the request with the loading flag set |
| EditorController.Controller.CheckStatus | src/controllers/EditorController.tsx:69-73 | refuses with "No active job to check status" when there is no job |
| EditorController.Controller.LoadTranscript | src/controllers/EditorController.tsx:103-110 | refuses with "No active job to load transcript" when there is no job, leaving the loading flag; with a job sends the request with the loading flag set |
| EditorController.Controller.LoadInvalidSegments | src/controllers/EditorController.tsx:128-132 | refuses with "No active job to load invalid segments" when there is no job |
| EditorController.Controller.StopStatusPolling | src/controllers/EditorController.tsx:200-205 | afterwards there is no timer; a timer is cleared once; without one nothing happens |
| EditorController.Controller.SetJobId | src/controllers/EditorController.tsx:211-213 | sets the job id |
| EditorController.Controller.GetJobId | src/controllers/EditorController.tsx:219-221 | returns the job id |
| EditorController.Controller.Reset | src/controllers/EditorController.tsx:226-232 | stops polling, forgets the job, clears transcript and error, and resets the annotations to the API response |
| EditorController.SetThenGet | src/controllers/EditorController.tsx:211-221 | setJobId then getJobId returns the id |
| EditorController.StopTwice | src/controllers/EditorController.tsx:200-205 | a second stop is a no-op |
| AnalysisScreen.TableIndexFrom | src/screens/AnalysisScreen.tsx:8-20 | the first table position at or after i with the status as key |
| AnalysisScreen.TableIndex | src/screens/AnalysisScreen.tsx:8-20 | the table position of a listed status; none exactly for unlisted ones |
| AnalysisScreen.ProgressFor | src/screens/AnalysisScreen.tsx:72 | a listed status gets its table value, any other 0 |
| AnalysisScreen.StepIndexFrom | src/screens/AnalysisScreen.tsx:75 | the first step at or after i with the status as key |
| AnalysisScreen.StepIndex | src/screens/AnalysisScreen.tsx:75 | `findIndex` over the steps: a step with that key, none exactly when no step has it (the keys are the distinct table keys) |
| AnalysisScreen.StepsMatchTable | src/screens/AnalysisScreen.tsx:8-35 | the step keys are the table keys in the same order |
| AnalysisScreen.ProgressIncreases | src/screens/AnalysisScreen.tsx:8-20 | progress strictly increases along the table and lies in 1..100 |
| AnalysisScreen.TableKeyIndex | src/screens/AnalysisScreen.tsx:8-20 | the table keys are distinct: each key is found at its own position |
| AnalysisScreen.StepProgress | src/screens/AnalysisScreen.tsx:8-35 | each step's status maps to its own positive table value |
| AnalysisScreen.Shown | src/screens/AnalysisScreen.tsx:127-130 | the first min(currentStep + 2, 11) steps, each completed, current or pending by its index |
| AnalysisScreen.ShownHasOneCurrent | src/screens/AnalysisScreen.tsx:127-130 | for a listed step, the step itself is shown as current, no two shown steps are current and no two are pending |
| AnalysisScreen.CurrentLabel | src/screens/AnalysisScreen.tsx:117 | the current step's label, or "Initializing..." |
| AnalysisScreen.Screen.constructor | src/screens/AnalysisScreen.tsx:40-44 | status "created", progress 5, step 0, not complete, polling when a job id is given |
| AnalysisScreen.Screen.HandleStatus | src/screens/AnalysisScreen.tsx:70-83 | sets status and progress; moves the step only for a listed status; completes loading and stops polling exactly at processed_invalid_segment or completed |
| AnalysisScreen.Screen.HandleStartFailure | src/screens/AnalysisScreen.tsx:52-54 | a failed start-up request records "Failed to start processing. Please try again." and leaves polling and the rest unchanged |
| AnalysisScreen.Screen.HandlePollFailure | src/screens/AnalysisScreen.tsx:90-93 | records the error and stops polling |
| VideoStore.Patch | src/stores/VideoStore.ts:57 | each present update field wins |
| VideoStore.PatchIdempotent | src/stores/VideoStore.ts:57 | patching twice is patching once |
| VideoStore.UpdatedSegments | src/stores/VideoStore.ts:55-59 | segments with the id are patched, others kept, length unchanged |
| VideoStore.UpdateAbsentId | src/stores/VideoStore.ts:55-59 | an absent id changes nothing |
| VideoStore.UpdateIdempotent | src/stores/VideoStore.ts:55-59 | repeating an update changes nothing more |
| VideoStore.Store.constructor | src/stores/VideoStore.ts:41-47 | the initial state |
| VideoStore.Store.SetVideoFile | src/stores/VideoStore.ts:50 | changes only the file |
| VideoStore.Store.SetVideoUrl | src/stores/VideoStore.ts:51 | changes only the URL |
| VideoStore.Store.SetDuration | src/stores/VideoStore.ts:52 | changes only the duration |
| VideoStore.Store.SetTranscript | src/stores/VideoStore.ts:53 | changes only the transcript |
| VideoStore.Store.SetSegments | src/stores/VideoStore.ts:54 | changes only the segments |
| VideoStore.Store.UpdateSegment | src/stores/VideoStore.ts:55-59 | the segments become UpdatedSegments; nothing else changes |
| VideoStore.Store.SetCurrentStep | src/stores/VideoStore.ts:60 | changes only the step |
| VideoStore.Store.Reset | src/stores/VideoStore.ts:63-70 | returns to the same state the store starts in |
| TestScreen.Toggled | src/screens/TestScreen.tsx:107-116 | flips keep on the segments with the id only |
| TestScreen.ToggleTwice | src/screens/TestScreen.tsx:112 | toggling twice restores the segments |
| TestScreen.WithText | src/screens/TestScreen.tsx:119-128 | sets the text on matching segments only; count and order unchanged |
| TestScreen.WithTextKeepsSelection | src/screens/TestScreen.tsx:119-128 | editing text keeps ids, intervals, keep flags and the kept duration |
| TestScreen.SegmentAt | src/screens/TestScreen.tsx:178-180 | the first segment with start <= t < end, or none |
| TestScreen.Kept | src/screens/TestScreen.tsx:497 | the kept count is at most the total |
| TestScreen.KeptMembers | src/screens/TestScreen.tsx:488-489 | the kept segments are exactly those with keep set |
| TestScreen.SameSpansSameDuration | src/screens/TestScreen.tsx:488-490 | the kept duration depends only on intervals and keep flags |
| TestScreen.KeptWithinTotal | src/screens/TestScreen.tsx:488-490 | with start <= end, 0 <= kept duration <= total length |
| TestScreen.TotalLengthAppend | src/screens/TestScreen.tsx:490 | the reduce adds the next segment's length |
| TestScreen.PrefixStep | src/screens/TestScreen.tsx:488-490 | one more segment adds its length, and to the kept part only if kept |
| TestScreen.MockSummaryOf | src/screens/TestScreen.tsx:63-72 | eight segments with the mock intervals and flags keep 5, 80 of 120 seconds |
| TestScreen.MockSummary | src/screens/TestScreen.tsx:61-73 | the mock transcript keeps 5 of 8 segments, 80 of its 120 seconds |
| TestScreen.Screen.constructor | src/screens/TestScreen.tsx:29-36 | starts at upload with no file and no transcript |
| TestScreen.Screen.HandleFileUpload | src/screens/TestScreen.tsx:43-50 | a chosen file is taken and the step becomes transcribe; no file changes nothing |
| TestScreen.Screen.FinishTranscription | src/screens/TestScreen.tsx:58-80 | the mock transcript is loaded and the step becomes analyze |
| TestScreen.Screen.FinishAnalysis | src/screens/TestScreen.tsx:94-99 | the step becomes review |
| TestScreen.Screen.GoTo | src/screens/TestScreen.tsx:454-457 | the navigation buttons, shown only on the review tab (to analysis or export) and the export tab (back to review, line 561), set the step and nothing else |
| TestScreen.Screen.ToggleSegmentKeep | src/screens/TestScreen.tsx:107-116 | toggles keep in the loaded transcript; a no-op without one |
| TestScreen.Screen.UpdateSegmentText | src/screens/TestScreen.tsx:119-128 | sets the text in the loaded transcript; a no-op without one |
| TestScreen.Screen.HandleTimeUpdate | src/screens/TestScreen.tsx:172-185 | records the time and moves to the first segment under the play head, only when one is found |

## Left out

- Rendering, styling, fullscreen detection and keyboard-shortcut wiring are presentation and DOM events. The keyboard shortcuts' own use of the selection is not modelled.
- The network calls (`uploadFile`, `processAll`, `getStatus`, `getTranscriptWord`, `getInvalidSegments`, `saveInvalidSegments`) are foreign I/O. So are the controller's asynchronous bodies after the job guard: `startUpload`, `loadAllProjectData`, `handleError`, and the `finally` that clears the loading flag once the response of `runProcessAll` or `loadTranscript` arrives (the model stops with the request in flight and the flag set).
- Timers are asynchronous and time-driven: `startStatusPolling`, the analysis screen's one-second interval and its delayed navigation. The polling timer is an opaque handle. Its callback's status decision is `EditorController.PollStep`.
- TestScreen's simulated progress counters, video play/pause/seek, `jumpToSegment`, `exportVideo` and `URL.createObjectURL` are timers or browser APIs. `FinishTranscription` and `FinishAnalysis` model only the state each simulation ends in, and the video URL is not kept.
- Float formatting is not modelled: `formatTime`, the pause label's `toFixed(1)`, and the minutes:seconds and reduction-percentage strings. The pause annotation's text is a parameter of the detector.
- The viewer's `parseFloat` is a given function `parse` from string to real. It is not modelled.
- `removeInvalidSegment`, `jobId`, `isLoading` and `error` on the annotation store are called by the components but not defined in `src/stores/InvalidStore.ts`, so they are not modelled.
- ProcessInvalidSegments.Lower: lower-casing maps only the ASCII letters A-Z, not the full Unicode `toLowerCase`. Trimming removes the whole white-space set of `String.prototype.trim`.
- TranscriptStore.Store.UpdateWord: requires the index to be in range. JavaScript would write a new entry past the end, leaving holes, and the model has no holes.
- TranscriptEditor.Editor.AddInvalidSegment: requires a recorded annotation index to be in range, for the same reason.
- TranscriptEditor.Editor.HandleWordClick: requires the clicked index and the existing selection to lie inside the transcript. The code would read `undefined` times for a stale selection after the transcript shrinks.
- TranscriptEditor.Click: the same requirement as HandleWordClick.
- AnalysisScreen.ProgressFor: object-prototype keys such as "constructor" would give a non-number in JavaScript. The model maps every unlisted string to 0.
- A file object is known only by its name (VideoStore, TestScreen). The transcript's word model `TranscriptWordModel` is not part of this model beyond the fields the core reads.

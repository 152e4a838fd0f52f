# Reduct-cli edit pipeline, modelled in Dafny

Reduct-cli turns a natural-language editing request into an edited video.
The request is analysed by a language model. Matching clips are found by a
semantic video search. A language model writes an edit plan, a JSON object
with an `actions` array. One of two executors then turns the plan into
ffmpeg work. This project models the deterministic core of that pipeline
and proves what it does:

- `Timecode`: the `H:M:S` to seconds helper both executors nest in their
  trim branch. `time_to_seconds(FromSeconds(t)) == t` is proved.
- `SegmentConcat`, `SegmentConcatFacts`: the backend executor
  (`backend/edit_generator.py`). It has a trim pass that writes segment files
  under `temp/`, then a concat pass that sorts each action's segments by
  position in place and writes a manifest of the segments that exist, then a
  cleanup pass. ffmpeg is an abstract job appended to a job log. It adds its
  target to a set of existing files; `fails` says which jobs raise.
- `LinearStream`, `LinearStreamFacts`: the linear executor
  (`src/edit_generator.py`). One stream term is rewritten action by action.
  Its remove-mode trim keeps the complement of `[start, end]`, and its effects
  are soft no-ops when their parameters are missing. The stream is a datatype
  term: input, trim, setpts, audio, concat and filters.
- `TwelveSearch`: `search_video` in `src/twelve.py`. It normalises the query,
  flattens grouped results, tracks the highest score, and applies the 0.7
  threshold only when some score is above it.
- `ClipSelection`, `StableSort`: the `ClipProcessor` class of
  `backend/process_results.py` and `src/process_results.py` (the same text).
  It has a `processedClips` field that is reset, appended to and stably sorted
  by descending score. A top-clip query reads it.
- `VideoEditor`: the `VideoEditor` class of `backend/main.py`. It has three
  parts:
  - the per-path upload status metadata;
  - the `video_id` to path cache in front of the metadata store (a map);
  - `process_edit` with its early returns, its path resolution and its
    `analyze_prompt` fallback.
- `ReplyCleanup`: the markdown-fence cleanup of model replies, in three
  variants (edit plan, video index, audio index), and the output-file naming
  of `compress_video` and `index_audio`.
- `FrameSampling`, `StringOrder`: the five-second frame schedule, the frame
  file names, the selection and lexicographic sort of frame files, and the
  one request sent to the vision model.
- `Strings`, `Paths`, `Plan`, `Wrappers`: Python's `strip`/`lower`/`split`/
  `replace`, `os.path` helpers, the plan's JSON shape with Python truthiness,
  and `Option`/`Result`.

Every external service is an input to the model:

- ffprobe's durations and stream lists;
- ffmpeg's success or failure;
- the language model's replies and exceptions, and those of the frame uploads and reads;
- the TwelveLabs search results or exceptions, and the task polls;
- the store's lookup and write failures;
- the directory listings;
- the JSON parser's verdicts;
- the clock and the random hex used for default output names.

Methods are proved against specification functions. Lemmas prove what the
source promises about those functions.

Places where the code behaves in a way a reader may not expect; the model
does what the code does:

- The backend executor does not clean up after a failed ffmpeg job. The
  exception escapes before the cleanup loop, so the segments and the manifest
  stay (`SegmentConcatFacts.GenerateFailureLeavesSegments`).
- The linear executor's remove-mode trim starts again from the input file. So
  effects applied by earlier actions are dropped
  (`LinearStreamFacts.EarlierEffectsDiscarded`).
- `process_edit` takes the first clip of the concatenated search results as
  the edit target. It does not use the top-scored clip across queries.
- In `search_video`, a highest score of exactly 0.7 returns every clip
  unfiltered.

## Model

| member | source | states |
|---|---|---|
| Timecode.FractionValue | backend/edit_generator.py:25 | the fractional digits of a decimal number contribute a value in [0, 1] |
| Timecode.ConvertErr | backend/edit_generator.py:25 | a text with a field count other than three, or with a non-numeric field, makes the conversion fail |
| Timecode.FieldsThree | backend/edit_generator.py:25-26 | three numeric fields convert to h*3600 + m*60 + s of their values |
| Timecode.FieldsMeaning | backend/edit_generator.py:25-26 | the conversion succeeds exactly when there are three numeric fields, and then yields h*3600 + m*60 + s; any other field count raises |
| Timecode.ToSecondsMeaning | src/edit_generator.py:25-27 | the same, stated for the text split on ':' (the linear executor's copy of the helper) |
| Timecode.ParseDigits | backend/edit_generator.py:25 | a non-empty digit string has no ':' and `float` reads it as its decimal value |
| Timecode.ParsePadded | backend/edit_generator.py:25 | a two-digit zero-padded number parses back to itself |
| Timecode.SplitClock | backend/edit_generator.py:25 | joining three colon-free fields with ':' splits back into exactly those fields |
| Timecode.ToSecondsOfFields | backend/edit_generator.py:24-26 | any `h:m:s` text of three numeric fields converts to h*3600 + m*60 + s |
| Timecode.ToSecondsBySplit | backend/edit_generator.py:25 | the conversion depends only on the split fields |
| Timecode.ToSecondsOfPadded | backend/edit_generator.py:24-26 | an `HH:MM:SS` text of padded numbers converts to their clock value |
| Timecode.ClockArithmetic | backend/edit_generator.py:26 | hours, minutes and seconds of a count of seconds recombine to that count |
| Timecode.ClockOf | backend/edit_generator.py:26 | the clock value of a decomposed second count is that count |
| Timecode.FromSecondsRoundTrip | backend/edit_generator.py:24-26 | converting the `HH:MM:SS` rendering of any whole number of seconds gives that number back |
| SegmentConcat.RunTrims | backend/edit_generator.py:15-44 | the trim loop equals the trim-pass specification: one job and one `temp/<output>` segment per trim with truthy start, end and output, in array order; an ffmpeg failure aborts |
| SegmentConcat.WriteManifest | backend/edit_generator.py:55-61 | the manifest loop writes exactly the specified lines, one `file '<cwd>/temp/<file>'` line per segment whose file exists, up to the first segment without a "file", whose KeyError it reports |
| SegmentConcat.ConcatPass | backend/edit_generator.py:47-73 | the concat pass visits at most every action, and all of them unless an action raised |
| SegmentConcat.SortedUpTo | backend/edit_generator.py:52 | the plan after the concat pass: the actions visited so far have their segments sorted in place, every later action is unchanged |
| SegmentConcat.RunConcats | backend/edit_generator.py:47-73 | the concat loop equals the concat-pass specification (a segment without "position" raises before the manifest is opened, one without "file" raises with the manifest left) and leaves the plan's visited actions sorted |
| SegmentConcat.RunCleanup | backend/edit_generator.py:76-80 | the cleanup loop equals the cleanup specification |
| SegmentConcat.GenerateFromPlan | backend/edit_generator.py:6-82 | the whole executor equals its specification: trim pass, concat pass, cleanup, and the output path |
| SegmentConcatFacts.TrimStepShape | backend/edit_generator.py:17-44 | a trim without truthy start, end and output changes nothing; otherwise exactly one trim job targeting `temp/<output>` is appended, that file exists afterwards, and it is recorded as a segment |
| SegmentConcatFacts.TrimPassJobs | backend/edit_generator.py:16-44 | the trim pass appends only trim jobs, keeps every existing file and prints no warning |
| SegmentConcatFacts.TrimPassTargets | backend/edit_generator.py:32-44 | after a successful trim pass the recorded segments are `temp/<output>` of the materialised trims, in array order |
| SegmentConcatFacts.TrimPassFiles | backend/edit_generator.py:35-44 | after a successful trim pass the files are the old ones plus exactly the segment targets |
| SegmentConcatFacts.ConcatStepShape | backend/edit_generator.py:48-73 | a missing "type" or "position" raises with the disk untouched; a missing "file" or a failed job raises with the manifest left and nothing else changed; a concat with missing or empty segments changes nothing; otherwise one concat job into the output is appended, the output exists, the manifest is gone, and no other file changes |
| SegmentConcatFacts.FiledSorted | backend/edit_generator.py:52-58 | sorting keeps exactly the segments, so some segment lacks a "file" after the sort exactly when one did before |
| SegmentConcatFacts.ConcatPassJobs | backend/edit_generator.py:47-73 | the concat pass keeps every trim job before every concat job and appends one concat job per action with segments when no job fails |
| SegmentConcatFacts.ConcatPassOutput | backend/edit_generator.py:47-73 | a completed concat pass that ran a concat ends with the manifest deleted and the output on disk |
| SegmentConcatFacts.GenerateTrimsFirst | backend/edit_generator.py:16-73 | whatever the order of the actions, every trim job runs before any concat job |
| SegmentConcatFacts.CleanupRemoves | backend/edit_generator.py:76-80 | cleanup removes exactly the recorded segment files and runs no job |
| SegmentConcatFacts.CleanupWarnsOnlyForMissing | backend/edit_generator.py:77-80 | when every recorded segment exists and none is repeated, the cleanup prints no warning |
| SegmentConcatFacts.GenerateSuccess | backend/edit_generator.py:7-82 | on success the result is the requested path or `output_<hex8>.mp4`, one job ran per materialised trim and per concat with segments, no segment file is left, the plan ends with every concat's segments sorted, and once a concat ran the manifest is gone and the output exists (unless it is a segment path) |
| SegmentConcatFacts.GenerateFailureLeavesSegments | backend/edit_generator.py:42-80 | when a job raises, no cleanup runs: no warning is printed, no file other than the manifest is removed, and after a completed trim pass every segment stays |
| SegmentConcatFacts.ManifestIsListed | backend/edit_generator.py:57-61 | the manifest lines are the lines of the segments whose files exist, in the list's order |
| SegmentConcatFacts.ListedOrdered | backend/edit_generator.py:52-61 | dropping missing files keeps the position order, and every listed entry comes from the segments |
| SegmentConcatFacts.ListedMembers | backend/edit_generator.py:57-59 | every listed entry is one of the action's segments |
| SegmentConcatFacts.ListedCount | backend/edit_generator.py:57-61 | each segment is listed as often as it occurs when its file exists, and never otherwise |
| SegmentConcatFacts.ManifestContents | backend/edit_generator.py:52-61 | the manifest of the sorted segments lists, in ascending position, exactly the existing segments of the original list |
| SegmentConcatFacts.SortedAction | backend/edit_generator.py:52 | when every segment has a position, the in-place sort orders the segments by ascending position, permutes them, keeps equal positions in their original order, and changes nothing else in the action |
| StableSort.InsertPermutes | backend/edit_generator.py:52 | inserting into a sorted list adds exactly that element |
| StableSort.SortPermutes | backend/process_results.py:63 | `list.sort` by a key permutes the list |
| StableSort.InsertOrdered | backend/edit_generator.py:52 | insertion keeps a list ordered by the key |
| StableSort.SortOrdered | backend/process_results.py:63 | the sorted list is ordered by the key, ascending or with `reverse=True` descending |
| StableSort.InsertWithRank | backend/process_results.py:63 | an inserted element goes after every element with the same key |
| StableSort.SortStable | backend/process_results.py:63 | the elements with any given key keep their original relative order (the sort is stable) |
| StableSort.SortOfOrdered | backend/edit_generator.py:52 | sorting an already ordered list changes nothing |
| StableSort.WithRankAppend | backend/process_results.py:63 | the elements with a given key of a concatenation are those of each part, in order |
| LinearStream.FirstVideo | src/edit_generator.py:13 | `next(...)` finds the first stream whose codec type is video, and none exactly when no stream is video |
| LinearStream.Trunc | src/edit_generator.py:89-90 | `int()` truncates toward zero |
| LinearStream.FoldOk | src/edit_generator.py:16 | an action that succeeds passes its new stream to the rest of the actions |
| LinearStream.ApplyTrim | src/edit_generator.py:22-58 | the trim branch equals the trim specification: a no-op without truthy start and end, remove-mode when `start > 0` or `end < duration`, and the keep-mode trim otherwise |
| LinearStream.ApplyAction | src/edit_generator.py:17-125 | one loop iteration equals the step specification: a missing `type` raises, and each kind dispatches to its branch |
| LinearStream.ApplyEffect | src/edit_generator.py:60-125 | the effect branches equal the effect specification |
| LinearStream.GenerateFromPlan | src/edit_generator.py:4-131 | the whole executor equals its specification: default output name, probe, fold over the actions in array order, output and run |
| LinearStreamFacts.FoldAppend | src/edit_generator.py:16 | running `p + q` is running `p`, then running `q` from its stream unless `p` failed (strict array order) |
| LinearStreamFacts.MissingTypeStops | src/edit_generator.py:17 | an action without `type` stops the run with KeyError, whatever follows |
| LinearStreamFacts.TrimCuts | src/edit_generator.py:23-30 | a trim with truthy, well-formed start and end cuts at their second values |
| LinearStreamFacts.RemovingKeeps | src/edit_generator.py:33-54 | remove-mode keeps one or two pieces, taken from the input file, concatenated when there are two |
| LinearStreamFacts.KeptComplement | src/edit_generator.py:33-54 | inside the video, a moment is kept exactly when it is outside the open interval (start, end) |
| LinearStreamFacts.KeptWithin | src/edit_generator.py:35-43 | every kept piece lies within [0, duration] when start and end do |
| LinearStreamFacts.CutForgets | src/edit_generator.py:36-41 | remove-mode ignores the stream built so far |
| LinearStreamFacts.KeepingTrims | src/edit_generator.py:55-58 | when start <= 0 and end >= duration, the current stream is trimmed to the original start and end texts, rebased to PTS-STARTPTS and reduced to its audio |
| LinearStreamFacts.RemovingForgets | src/edit_generator.py:33-54 | a remove-mode trim succeeds and its result does not depend on the previous stream |
| LinearStreamFacts.EarlierEffectsDiscarded | src/edit_generator.py:36-41 | everything applied before a remove-mode trim is discarded: the run ends as if it had started at that trim |
| LinearStreamFacts.FoldWarningsIrrelevant | src/edit_generator.py:124-125 | the printed warnings for unknown types never change the resulting stream or failure |
| LinearStreamFacts.SoftNoOpKeepsStream | src/edit_generator.py:63-125 | a crop without truthy width and height, an overlay without path, a zoom of scale 1.0, a caption with empty text, a trim without truthy start and end, and an unknown type leave the stream untouched |
| LinearStreamFacts.EffectWraps | src/edit_generator.py:60-122 | mute, blur and every effect with its parameters wrap the previous stream in a new stage; all but mute end with `.audio` |
| LinearStreamFacts.KeepingTrimWraps | src/edit_generator.py:55-58 | a keep-mode trim wraps the current stream and ends in its audio |
| LinearStreamFacts.ZoomInCropFits | src/edit_generator.py:89-98 | for a scale above 1 the scaled width is at least the crop width |
| LinearStreamFacts.ZoomOutCropExceeds | src/edit_generator.py:89-98 | for a scale below 1 the crop width exceeds the scaled width |
| LinearStreamFacts.CaptionPlacement | src/edit_generator.py:101-117 | a caption with text adds a drawtext stage whose y is `h-th-10` exactly when the position is absent or "bottom", and `10` otherwise |
| LinearStreamFacts.FoldNeverNoVideo | src/edit_generator.py:16-125 | the action loop never fails for lack of a video stream |
| LinearStreamFacts.StepNeverNoVideo | src/edit_generator.py:17-125 | an action fails only with a missing type or a malformed timecode |
| LinearStreamFacts.TrimStepFailure | src/edit_generator.py:25-30 | a trim fails only with a malformed timecode |
| LinearStreamFacts.GenerateNoVideo | src/edit_generator.py:12-13 | the executor stops at the probe, running nothing, exactly when no stream is video |
| LinearStreamFacts.GenerateSuccess | src/edit_generator.py:4-131 | on success the result is the requested or default output path, and the run is the actions folded from the input with aac/libx264 |
| TwelveSearch.ClipsOf | src/twelve.py:44-51 | one record per hit |
| TwelveSearch.ClipRoundTrip | src/twelve.py:44-51 | `print_search_data` loses nothing: score, start, end, video id and thumbnail map one-to-one to the record's fields |
| TwelveSearch.NormalisedShape | src/twelve.py:54-55 | the searched query has no leading or trailing whitespace and no upper-case letter |
| TwelveSearch.NormaliseIdempotent | src/twelve.py:54-55 | normalising twice is normalising once |
| TwelveSearch.Collect | src/twelve.py:66-80 | the collecting loop yields the flattened clips in result order and their highest score |
| TwelveSearch.AppendHits | src/twelve.py:72-76 | the inner loop appends a group's clips and keeps the running maximum |
| TwelveSearch.HighestIsMax | src/twelve.py:67-80 | the highest score is at least 0 and at least every clip's score, and is attained when positive |
| TwelveSearch.HighScored | src/twelve.py:84 | the comprehension keeps exactly the clips scoring at least 0.7 |
| TwelveSearch.SelectedSpec | src/twelve.py:83-86 | above a 0.7 maximum the result is the non-empty list of clips scoring at least 0.7; otherwise every clip, unfiltered |
| TwelveSearch.SearchVideo | src/twelve.py:53-96 | `search_video` searches the normalised query and returns the selected clips, in discovery order; an exception of the query leaves it |
| TwelveSearch.FlattenAppend | src/twelve.py:70-80 | flattening distributes over concatenation of result lists |
| TwelveSearch.AboveAppend | src/twelve.py:84 | the threshold filter distributes over concatenation |
| TwelveSearch.AboveMembers | src/twelve.py:84 | the filter keeps exactly the clips scoring at least the threshold, and everything when all do |
| ClipSelection.QueryFor | backend/process_results.py:35-36 | the `video_id` filter is part of the query exactly when `video_id` is truthy |
| ClipSelection.ClipProcessor.constructor | backend/process_results.py:5-6 | a new processor holds no clips |
| ClipSelection.ClipProcessor.GetHighestScoredClips | backend/process_results.py:8-64 | resets the field, gathers the clips scoring at least `min_score`, and stores and returns them sorted by descending score; a group with null clips raises and leaves the unsorted clips gathered so far; a raising query leaves the field empty |
| ClipSelection.ClipProcessor.AppendHigh | backend/process_results.py:42-51 | the inner loop appends exactly the group's clips scoring at least `min_score`, in order |
| ClipSelection.ClipProcessor.GetTopClip | backend/process_results.py:66-75 | None exactly when there are no clips, otherwise the first stored clip |
| ClipSelection.GatherIsFilter | src/process_results.py:41-60 | the loop completes exactly when no group has null clips, and then it has collected exactly the flattened clips scoring at least `min_score`, in result order |
| ClipSelection.ByScoreSpec | src/process_results.py:63 | the sorted clips are a permutation of the collected clips in non-increasing score order, with equal scores in discovery order |
| ClipSelection.SearchOutcome | src/process_results.py:41-64 | after a completed search the stored clips are a permutation of the clips at or above `min_score`, and the first has the highest score |
| ClipSelection.ByScoreKeepsBound | backend/process_results.py:63 | sorting keeps every clip at or above the threshold |
| ClipSelection.ByScoreTopFirst | src/process_results.py:66-75 | the first sorted clip has the maximal score |
| VideoEditor.FirstDecisive | backend/main.py:130-145 | the polling loop stops at the first answer that is "completed", "failed" or an exception, and not before |
| VideoEditor.UploadRecord | backend/main.py:120-148 | the final record of an upload: the path, a task id exactly when the upload returned one, READY exactly when indexing completed and both store calls of the save returned, ERROR with an error text otherwise |
| VideoEditor.StatusTrace | backend/main.py:124-148 | statuses start UPLOADING, go to INDEXING exactly when a task id is known, end in the record's status, and pass READY exactly when indexing completed |
| VideoEditor.AnalyzePrompt | backend/main.py:166-174 | the parsed analysis, or when the reply is not JSON the fallback: the prompt as the only query, the "cut" action, and all indexed videos |
| VideoEditor.MissingKey | backend/main.py:194-196 | which of the three keys printed in turn the analysis lacks; none exactly when it has all three |
| VideoEditor.GetVideoMetadata | backend/main.py:107-118 | the stored record exactly when the lookup succeeds and the id is stored; a lookup error yields None |
| VideoEditor.Resolve | backend/main.py:260-273 | the cache first; else the store's original path, which is then cached; else nothing and the cache unchanged; the cache stays consistent with the store |
| VideoEditor.Editor.constructor | backend/main.py:48-55 | an editor starts with empty upload metadata and an empty cache over the given store |
| VideoEditor.Editor.SaveVideoMetadata | backend/main.py:71-105 | an upsert keyed by video id (the latest path and time win); an exception of the upsert is re-raised with the store unchanged, one of the read-back after the store was written |
| VideoEditor.Editor.UploadVideoAsync | backend/main.py:120-149 | records the upload's final metadata and status sequence; on completion maps the video id to the path and saves it, the store written unless the upsert raised; otherwise the cache and store stay |
| VideoEditor.Editor.OnAnswer | backend/main.py:132-148 | one decisive poll answer: READY with the mapping recorded and saved on "completed" (ERROR again when the save raised), ERROR with the error text on "failed" or an exception |
| VideoEditor.Editor.AwaitTask | backend/main.py:130-145 | the polling loop returns the first decisive answer |
| VideoEditor.Editor.AddExistingVideo | backend/main.py:313-328 | saves the record and then maps the id to the same path; a save exception is swallowed with nothing cached, and after a failed read-back the store holds the new path while the cache may disagree with it |
| VideoEditor.Editor.RunSearches | backend/main.py:200-204 | the search loop equals its specification: the clips of every query in query order, or the exception of the first search that raises |
| VideoEditor.Editor.CheckVideoExists | backend/main.py:67-69 | whether the store holds the id, or the exception of the lookup, which is not caught |
| VideoEditor.Editor.CollectMissing | backend/main.py:211-214 | the ids of the clips whose video is not stored, in clip order; a raising lookup leaves the loop with the first clip's exception |
| VideoEditor.Editor.ProcessEdit | backend/main.py:192-293 | the edit request equals its specification and changes neither the store nor the upload metadata |
| VideoEditor.Editor.EditFirstClip | backend/main.py:250-293 | the edit of the first clip's video equals its specification |
| VideoEditor.EditSpec | backend/main.py:192-221 | an analysis without one of the three printed keys raises KeyError first; otherwise a raising search ends the request with its exception, and no clips exactly when every query returned nothing; the cache stays consistent with the store and changes only on a run that reached path resolution |
| VideoEditor.RunEdit | backend/main.py:257-293 | the edit ends with a missing path, a missing input file, the edited output or the executor's error, and keeps the cache consistent |
| VideoEditor.EditUsesStoredPath | backend/main.py:257-269 | with a consistent cache and no raising lookup, the edit reads the stored original path of the first clip's video |
| VideoEditor.RunEditStored | backend/main.py:277-293 | for a stored video: a missing input file stops the edit, otherwise the executor's result or error is the outcome |
| VideoEditor.FindErrorSpec | backend/main.py:211-214 | the lookup loop raises exactly when some clip's lookup raises, and then with the first such clip's exception |
| VideoEditor.EditStopsEarly | backend/main.py:211-249 | after a non-empty search: a raising lookup ends the request; otherwise unstored videos end it with exactly their ids before any plan is made; otherwise a failed plan ends it; otherwise a choice other than "1" declines it; the cache is unchanged in each case |
| VideoEditor.MissingIdsSpec | backend/main.py:211-221 | the missing list is empty exactly when every clip's video is stored, and it names exactly the unstored ids the clips mention |
| VideoEditor.SearchAllSpec | backend/main.py:200-204 | the searches succeed exactly when every query's search returns, and then yield every query's clips in query order; otherwise the exception is that of the first query whose search raised |
| VideoEditor.LastSaveWins | backend/main.py:83-87 | after a sequence of saves, an id holds the record of its last save |
| VideoEditor.UnsavedKept | backend/main.py:83-87 | saves of other ids leave an id's record as it was |
| VideoEditor.Cleanup | backend/main.py:297-311 | the cleanup loop equals its specification |
| VideoEditor.CleanupSpec | backend/main.py:297-311 | cleanup removes only the listed paths and `temp/concat_list.txt`, and every one of them that exists when no removal fails |
| ReplyCleanup.CleanPlanReply | backend/prompt.py:123-126 | the cleaned plan reply has no leading or trailing whitespace |
| ReplyCleanup.PlanReplyNoFence | backend/prompt.py:126 | no "```" is left in the cleaned plan reply |
| ReplyCleanup.DeleteFences | backend/prompt.py:126 | deleting every "```" leaves no three backticks in a row, and at most two at the start |
| ReplyCleanup.NoTripleTickIsNoFence | backend/prompt.py:126 | a text has no three backticks in a row exactly when "```" does not occur in it |
| ReplyCleanup.NoFenceNoJsonFence | backend/prompt.py:126 | a text without "```" has no "```json" either |
| ReplyCleanup.StripNoTripleTick | backend/prompt.py:126 | stripping cannot create three backticks in a row |
| ReplyCleanup.PlanReplyWithoutFence | backend/prompt.py:123-126 | a reply without any fence is returned as its strip |
| ReplyCleanup.DeletionsKeepUnfenced | backend/prompt.py:126 | the two deletions leave a fence-free text unchanged |
| ReplyCleanup.PlanCleanIdempotent | backend/prompt.py:123-126 | cleaning an already cleaned reply changes nothing |
| ReplyCleanup.PlanReply | backend/prompt.py:116-138 | a failed generation re-raises; otherwise the cleaned text is returned exactly when it parses as JSON and JSONDecodeError is raised otherwise; a returned plan parses and has no edge whitespace |
| ReplyCleanup.CleanVideoReply | src/utils/video_index.py:158-165 | the cleaned index reply has no leading or trailing whitespace |
| ReplyCleanup.CleanAudioReply | src/utils/audio_index.py:48-53 | the cleaned audio reply has no leading or trailing whitespace |
| ReplyCleanup.UnfenceWrapped | src/utils/video_index.py:161-165 | one leading "```json" and one trailing "```" are removed, fences inside the body stay |
| ReplyCleanup.UnfenceTrailing | src/utils/video_index.py:163-165 | the trailing fence is removed even without a leading one |
| ReplyCleanup.UnfenceUnfenced | src/utils/video_index.py:161-165 | a reply with no fence at either end comes out as its strip |
| ReplyCleanup.VideoReplyWrapped | src/utils/video_index.py:158-165 | a fenced reply cleans to its stripped body in both indexers |
| ReplyCleanup.VideoIgnoresOuterSpace | src/utils/video_index.py:158 | whitespace around the reply does not change what the video indexer parses |
| ReplyCleanup.VideoSkipsIndent | src/utils/video_index.py:158-165 | a fenced reply after a blank still cleans to its body, because the reply is stripped first |
| ReplyCleanup.AudioKeepsIndentedFence | src/utils/audio_index.py:48-53 | the same reply given to the audio indexer keeps its "```json", which is not at index 0 |
| ReplyCleanup.IndexAudio | src/utils/audio_index.py:14-65 | succeeds exactly when the read, the model call, the parse and the write succeed, and then writes the parsed value, dumped again, to the audio index path; every failure is one exception prefixed "Failed to index audio: " with the failing step's message |
| ReplyCleanup.CompressedPathShape | src/utils/video_index.py:28-30 | the compressed file is `outputs/compressed/<stem>` plus `_gemini.mp4` or `_compressed.mp4`, and its base name is that file name |
| ReplyCleanup.CompressedVariantsDiffer | src/utils/video_index.py:29-30 | the copy for the model and the final compressed copy never share a path |
| ReplyCleanup.CompressedDirJoined | src/utils/video_index.py:30 | `os.path.join("outputs", "compressed")` is `outputs/compressed` |
| ReplyCleanup.AudioIndexPathShape | src/utils/audio_index.py:26-29 | the audio index is `src/outputs/audio/<stem>_audio_index.json`, and its base name is that file name |
| ReplyCleanup.AudioDirJoined | src/utils/audio_index.py:29 | `os.path.join('src', "outputs/audio")` is `src/outputs/audio` |
| FrameSampling.FrameCount | src/utils/analyze_video_frames.py:38-42 | `int(duration / 5)` frames: every frame's timestamp plus 5 s fits in the duration, and one more frame would not |
| FrameSampling.ExtractFrames | src/utils/analyze_video_frames.py:41-58 | the extraction loop writes the four-digit names of the frames that succeeded and warns about the timestamps of those that failed, both in order |
| FrameSampling.ExtractStep | src/utils/analyze_video_frames.py:54-58 | each attempt either writes its frame or warns about its timestamp |
| FrameSampling.ExtractionAccounts | src/utils/analyze_video_frames.py:41-58 | every frame is written or warned about, never both; the m-th warning names the timestamp of the m-th failed frame |
| FrameSampling.ExtractedSpec | src/utils/analyze_video_frames.py:41-58 | the extracted frames are exactly those the extractor succeeded for, in increasing order |
| FrameSampling.WrittenNames | src/utils/analyze_video_frames.py:43 | the written names are the names, at the given padding, of the extracted frames, one for one |
| FrameSampling.GenerateVideoFrames | src/utils/analyze_video_frames.py:15-63 | a missing input or failed probe raises one wrapped message; otherwise the frames directory is returned with every sampled frame attempted under its four-digit name |
| FrameSampling.FramesDirShape | src/utils/analyze_video_frames.py:19-20 | the frames of `dir/name.ext` go to `src/outputs/frames/name` |
| FrameSampling.FrameFilesSpec | src/utils/analyze_video_frames.py:67 | exactly the listed names starting with `frame_` and ending with `.jpg` are selected |
| FrameSampling.WrittenAreFrameFiles | src/utils/analyze_video_frames.py:43-67 | every written frame name is picked by the selection |
| FrameSampling.SelectionIsChronological | src/utils/analyze_video_frames.py:43-67 | up to 10000 frames, whatever order the directory lists the frames the source wrote in, the sorted selection is the extraction order |
| FrameSampling.SelectionInOrder | src/utils/analyze_video_frames.py:43-67 | when the padding holds every frame number, a listing of the written frames in any order is sorted back into extraction order |
| FrameSampling.SelectionIsChronologicalFitted | src/utils/analyze_video_frames.py:43-67 | with names padded to the width fitted to the video, the selection is in extraction order for any number of frames |
| FrameSampling.NameOrder | src/utils/analyze_video_frames.py:43-67 | names padded to a width that holds both numbers sort as the frame numbers |
| FrameSampling.FrameNamesChronological | src/utils/analyze_video_frames.py:43-67 | with the padding fitted to the video, a later frame has a greater name |
| FrameSampling.WrittenSpec | src/utils/analyze_video_frames.py:41-67 | when the padding holds every frame number, the written names increase strictly |
| FrameSampling.AsWrittenAgrees | src/utils/analyze_video_frames.py:43 | up to 10000 frames the source's 4-digit names are the fitted ones and sort chronologically |
| FrameSampling.AsWrittenMisorders | src/utils/analyze_video_frames.py:43-67 | with the source's 4-digit padding, `frame_10000.jpg` sorts before `frame_9999.jpg` |
| FrameSampling.BuildParts | src/utils/analyze_video_frames.py:75-93 | one part per frame, in order: the first uploaded, every later one inline; the first upload or read that raises leaves the loop with its exception |
| FrameSampling.LoadErrorSpec | src/utils/analyze_video_frames.py:75-93 | building the request raises exactly when some frame's upload or read raises, and then with the first such frame's exception |
| FrameSampling.PartsSnoc | src/utils/analyze_video_frames.py:76-93 | the part for frame i extends the parts of the frames before it |
| FrameSampling.AnalyzeWithGemini | src/utils/analyze_video_frames.py:65-121 | fewer than two frame files raise; then a raising upload or read, the timeout, another exception of the call, or a reply without text (the write raises) each raise; exactly otherwise the sorted frames go out in one request and the summary joins their names with " -> " under a header stating their count |
| FrameSampling.AnalyzeVideoFrames | src/utils/analyze_video_frames.py:123-134 | generation, then analysis of the frames directory; each failure (extraction, too few frames, upload or read, timeout, other call exception, reply without text) is wrapped once more; on success the request, the summary and the file text are those of the analysis |
| StringOrder.LessIrreflexive | src/utils/analyze_video_frames.py:67 | Python's string order is irreflexive |
| StringOrder.LessTotal | src/utils/analyze_video_frames.py:67 | the string order is total and asymmetric |
| StringOrder.LessTransitive | src/utils/analyze_video_frames.py:67 | the string order is transitive |
| StringOrder.LessPrefix | src/utils/analyze_video_frames.py:67 | a common prefix does not change the order |
| StringOrder.LessSameLength | src/utils/analyze_video_frames.py:67 | two different heads of equal length decide the order whatever follows |
| StringOrder.InsertPermutes | src/utils/analyze_video_frames.py:67 | insertion adds exactly the inserted string |
| StringOrder.SortPermutes | src/utils/analyze_video_frames.py:67 | `sorted` permutes its input |
| StringOrder.InsertSorted | src/utils/analyze_video_frames.py:67 | insertion keeps a list sorted |
| StringOrder.SortSorted | src/utils/analyze_video_frames.py:67 | `sorted` returns a sorted list |
| StringOrder.SortedUnique | src/utils/analyze_video_frames.py:67 | two sorted permutations of the same strings are equal |
| StringOrder.SortOfSorted | src/utils/analyze_video_frames.py:67 | sorting a sorted list changes nothing |
| StringOrder.SortTwo | src/utils/analyze_video_frames.py:67 | two strings out of order are swapped |
| StringOrder.DigitsLess | src/utils/analyze_video_frames.py:43 | digit strings of equal length compare as their values |
| Strings.Strip | backend/prompt.py:123 | the strip has no leading or trailing whitespace and is no longer than the text |
| Strings.StripIsInfix | backend/prompt.py:123 | the strip is the text with whitespace removed at both ends only |
| Strings.StripIdempotent | backend/prompt.py:126 | stripping twice is stripping once |
| Strings.LStripDropsSpace | src/twelve.py:54 | the left strip removes only leading whitespace |
| Strings.RStripDropsSpace | src/twelve.py:54 | the right strip removes only trailing whitespace |
| Strings.ReplaceAbsent | backend/prompt.py:126 | replacing an absent pattern changes nothing |
| Strings.DeleteKeepsOut | backend/prompt.py:126 | deleting a pattern cannot introduce a character the text lacked |
| Strings.Lower | src/twelve.py:55 | lower-casing maps each character by itself and keeps the length |
| Strings.LowerChar | src/twelve.py:55 | upper-case ASCII letters become their lower-case forms, everything else is kept |
| Strings.Split | backend/edit_generator.py:25 | `split` yields at least one field |
| Strings.SplitNoSep | backend/edit_generator.py:25 | a text without the separator splits into itself |
| Strings.SplitCons | backend/edit_generator.py:25 | a separator-free head splits off as the first field |
| Strings.JoinSplit | backend/edit_generator.py:25 | joining the fields with the separator gives the text back |
| Strings.NatStrValue | src/utils/analyze_video_frames.py:43 | the decimal rendering of a number reads back as that number |
| Strings.PadLeft | src/utils/analyze_video_frames.py:43 | padding to a width yields that width, or the text when it is longer, filled on the left |
| Strings.PadLeftValue | src/utils/analyze_video_frames.py:43 | a zero-padded rendering is all digits and reads back as the number |
| Strings.LeadingZeros | src/utils/analyze_video_frames.py:43 | leading zeros do not change a digit string's value |
| Paths.LastIndex | src/utils/video_index.py:28 | the last index of a character, or -1, with no later occurrence |
| Paths.Basename | src/utils/video_index.py:28 | the base name is the suffix of the path after its last '/' and contains no '/' |
| Paths.Stem | src/utils/audio_index.py:26 | `splitext(basename(p))[0]` contains no '/' |
| Paths.StemOfPath | src/utils/audio_index.py:26 | the stem of `dir/stem.ext` is `stem` |
| Paths.SplitextRootOfExt | src/utils/audio_index.py:26 | `splitext` drops exactly the last extension |
| Paths.Join | src/utils/analyze_video_frames.py:20 | `os.path.join` returns an absolute second part alone, and otherwise ends with it |
| Paths.JoinRelative | src/utils/analyze_video_frames.py:20 | joining onto a directory without a trailing '/' inserts one '/' |
| Paths.JoinName | src/utils/analyze_video_frames.py:77 | a file name joined onto a directory is that directory, '/', the name, and its base name is the name |
| Paths.BasenameOfJoin | src/utils/analyze_video_frames.py:77 | the base name of `dir/name` is `name` |
| Plan.OutputPath | backend/edit_generator.py:7-8 | the output path is never empty: the requested path when truthy, otherwise `output_<hex8>.mp4` |

## Left out

- ffmpeg, ffprobe and the subprocess calls are not executed. The backend
  executor's jobs add their target to a set of files, or fail. The linear
  executor's run is a stream term that succeeds or fails. Probed durations,
  widths, heights and stream lists are inputs.
- Gemini, TwelveLabs and MongoDB are oracle values: replies, search results,
  task polls, and the exceptions of the frame uploads and reads, the model
  call, the search queries, the store's lookups and its writes. An exception
  is its error text; its Python type is not modelled. The one service call
  that can raise but has no error path in the model is the model call of
  `analyze_prompt`, listed below.
- JSON parsing is a predicate (`parses`) or a decoder that gives the value
  dumped again or the parser's error (`decode`). A JSON key that is null is
  treated like an absent key.
- The floating-point details of durations, scores and zoom scales are not
  modelled; they are exact reals with no IEEE rounding. `float` on a
  timecode field strips surrounding whitespace and accepts one sign and
  decimal digits with at most one point. Exponents, `inf`/`nan`, digit
  underscores and non-ASCII digits are rejected, where Python accepts them.
- `lower()` is modelled for ASCII letters only; other letters are kept as
  they are. `strip()` uses Python's full whitespace set.
- `pathlib`, absolute-path resolution, `Path.exists` and `os.makedirs` are
  abstract. The current directory is a parameter, and existence is
  membership in a set of files.
- asyncio (`gather`, `to_thread`, `sleep`, `wait_for`). One upload's poll
  sequence is modelled at a time. The five-minute timeout of the frame
  analysis is the `Timeout` reply.
- The uploads at the start of `process_edit` (the `skip_upload` branch) and
  the loop printing upload errors (backend/main.py:180-189) are left out.
  `UploadVideoAsync` models one upload.
- A failure of the model call inside `analyze_prompt` (backend/main.py:162-165)
  propagates out of `process_edit`. The model treats the reply only as
  parsed or not parsed.
- `list_uploaded_videos` is a read of the whole store. It has no logic to
  prove.
- The printed messages, the `gemini_analysis.json` dump and the prompt
  texts are left out. They are output only.
- The compression ladders of `compress_video` (src/utils/video_index.py:39-117)
  are left out, because they are driven by encoder output sizes.
- The regex JSON repair of `analyze_video` (src/utils/video_index.py:171-189)
  and its metadata write are left out. Only its fence cleanup is modelled.
- The interactive menus and `input()` loops are left out: `main_menu`,
  `get_video_paths`, `get_edit_prompt` and the `main` of
  `src/process_results.py`.
- `src/main.py`, `src/prompt.py`, `src/vision.py`, `src/transcription.py`,
  `src/utils/audio_extract.py` and `cli/src/main.rs` are plumbing and
  are not part of this model.
- The random hex of default output names and the time stamp of edited
  output names are parameters.
- SegmentConcat.RunConcats: a segment whose "position" is null counts as
  missing. The source raises for it only when the list has two or more
  segments, because a one-element sort never compares keys. Positions that
  are not numbers are not modelled.
- VideoEditor.Editor.ProcessEdit: the parsed analysis is taken to be a JSON
  object whose present keys hold lists of strings. A reply that parses to
  another kind of value, or a key holding a string or number, is not
  modelled.
- VideoEditor.Editor.UploadVideoAsync: the polling loop
  (backend/main.py:130-145) has no time limit, and a status other than
  "completed" or "failed" polls again. The model takes a poll sequence that
  reaches a decisive answer (`EventuallyDecisive`), so an upload that polls
  forever is not modelled; the same holds for `UploadRecord`, `StatusTrace`
  and `AwaitTask`.
- FrameSampling.AnalyzeWithGemini: a reply without text raises at the
  write after `gemini_analysis.txt` was opened and its header line written.
  The model gives the error only, not that header-only file.
- ReplyCleanup.DeleteFences: states that no three backticks remain and
  bounds the leading run by two. It does not state the exact count of
  backticks left in each run (its length mod 3).

## Findings

| source | as written | input that shows it | evidently intended | confidence | as-written member | corrected member |
|---|---|---|---|---|---|---|
| src/utils/analyze_video_frames.py:43 | frame numbers are zero-padded to 4 digits, and the selection at line 67 sorts the names as strings | a video of at least 50005 s (10001 frames): `frame_10000.jpg` sorts before `frame_9999.jpg`, so the model receives frames out of order | frames reach the model in timestamp order | not executed | FrameSampling.AsWrittenMisorders | FrameSampling.SelectionIsChronologicalFitted |

/**
 * The bookkeeping of `VideoEditor` in `backend/main.py`: per-path upload
 * records, the in-memory video_id → path cache, and the "metadata"
 * collection, modelled as a map keyed by video_id.  Every external service
 * (the uploader, the indexing service, the language model, the search, the
 * store's failures, the clock and the edit executor) is an oracle value
 * passed in by the caller.
 */
module VideoEditor {
  import opened Wrappers
  import opened Strings
  import opened Plan
  import opened TwelveSearch

  datatype VideoStatus = Pending | Uploading | Indexing | Ready | Error

  /** The per-path upload record (`VideoMetadata`). */
  datatype VideoMetadata = VideoMetadata(path: string, taskId: Option<string>, status: VideoStatus, error: Option<string>)

  /** A document of the metadata collection, stored under its video_id. */
  datatype StoredVideo = StoredVideo(originalPath: string, uploadedAt: int)

  /** One answer of the indexing service's task lookup. */
  datatype TaskState = TaskState(status: string, videoId: string, error: string)

  /** The prompt analysis: search queries, editing actions and target videos; a key the reply lacks is None. */
  datatype Analysis = Analysis(searchQueries: Option<seq<string>>, editingActions: Option<seq<string>>,
                               targetVideos: Option<seq<string>>)

  /**
   * How the store answers one `save_video_metadata`: the upsert and the
   * read-back both return, the upsert raises, or the read-back raises after
   * the upsert took effect.
   */
  datatype StoreAnswer = Saved | UpsertFails(error: string) | ReadBackFails(error: string)

  /** How `process_edit` ends. */
  datatype EditOutcome =
    | KeyMissing(key: string)         // printing the analysis raised KeyError, which leaves `process_edit`
    | SearchFailed(message: string)   // a search raised, which leaves `process_edit`
    | NoClips                         // no search returned a clip
    | LookupFailed(message: string)   // a `find_one` of `check_video_exists` raised, which leaves `process_edit`
    | MissingVideos(ids: seq<string>) // clips refer to videos the store does not hold
    | PlanFailed(message: string)     // generating or parsing the edit plan raised
    | Declined                        // the user did not choose "1"
    | PathNotFound(videoId: string)   // neither the cache nor the store yields a path
    | InputMissing(path: string)      // the resolved path does not exist
    | Edited(finalPath: string)       // the executor returned
    | EditFailed(message: string)     // the executor raised

  const ManifestPath: string := "temp/concat_list.txt"
  const OutputDir: string := "edited/videos"
  const Cut: string := "cut"
  const AllIndexed: string := "all_indexed_videos"

  /** The exception `save_video_metadata` re-raises, if any. */
  function SaveRaises(a: StoreAnswer): (r: Option<string>)
    ensures r.None? <==> a.Saved?
  {
    if a.Saved? then None else Some(a.error)
  }

  /** The upsert took effect. */
  predicate SaveWrites(a: StoreAnswer)
  {
    !a.UpsertFails?
  }

  /** A poll answer that ends the polling loop: an exception, "completed" or "failed". */
  predicate Decisive(p: Result<TaskState, string>)
  {
    p.Err? || p.value.status == "completed" || p.value.status == "failed"
  }

  predicate EventuallyDecisive(polls: seq<Result<TaskState, string>>)
  {
    exists k :: 0 <= k < |polls| && Decisive(polls[k])
  }

  /** The index of the poll answer that ends the loop. */
  function FirstDecisive(polls: seq<Result<TaskState, string>>): (k: nat)
    requires EventuallyDecisive(polls)
    ensures k < |polls| && Decisive(polls[k])
    ensures forall j :: 0 <= j < k ==> !Decisive(polls[j])
  {
    if Decisive(polls[0]) then 0
    else
      assert EventuallyDecisive(polls[1..]) by {
        var k :| 0 <= k < |polls| && Decisive(polls[k]);
        assert polls[1..][k - 1] == polls[k];
      }
      var k := FirstDecisive(polls[1..]);
      assert forall j :: 1 <= j <= k ==> polls[j] == polls[1..][j - 1];
      k + 1
  }

  /** The record a finished upload leaves, given the upload, the poll answers and the store's failure, if any. */
  function UploadRecord(path: string, upload: Result<string, string>, polls: seq<Result<TaskState, string>>,
                        save: StoreAnswer): (r: VideoMetadata)
    requires upload.Ok? ==> EventuallyDecisive(polls)
    ensures r.path == path
    ensures r.taskId.Some? <==> upload.Ok?
    ensures r.status == Ready <==> Completed(upload, polls) && save.Saved?
    ensures r.status != Ready ==> r.status == Error
    ensures r.error.Some? <==> r.status == Error
  {
    if upload.Err? then VideoMetadata(path, None, Error, Some(upload.error))
    else AnswerRecord(VideoMetadata(path, Some(upload.value), Indexing, None), polls[FirstDecisive(polls)], save)
  }

  /** The record after the answer that ends the polling loop. */
  function AnswerRecord(indexing: VideoMetadata, answer: Result<TaskState, string>, save: StoreAnswer): VideoMetadata
  {
    if answer.Err? then indexing.(status := Error, error := Some(answer.error))
    else if answer.value.status == "completed" then
      if SaveRaises(save).Some? then indexing.(status := Error, error := SaveRaises(save)) else indexing.(status := Ready)
    else indexing.(status := Error, error := Some(answer.value.error))
  }

  /** The statuses the record goes through after that answer. */
  function AnswerTrace(answer: Result<TaskState, string>, save: StoreAnswer): seq<VideoStatus>
  {
    if answer.Ok? && answer.value.status == "completed" then
      [Ready] + (if save.Saved? then [] else [Error])
    else [Error]
  }

  /** The upload succeeded and the answer ending the loop is "completed". */
  predicate Completed(upload: Result<string, string>, polls: seq<Result<TaskState, string>>)
    requires upload.Ok? ==> EventuallyDecisive(polls)
  {
    upload.Ok? && polls[FirstDecisive(polls)].Ok? && polls[FirstDecisive(polls)].value.status == "completed"
  }

  /** The video id the indexing service reports on completion. */
  function CompletedId(upload: Result<string, string>, polls: seq<Result<TaskState, string>>): string
    requires upload.Ok? ==> EventuallyDecisive(polls)
    requires Completed(upload, polls)
  {
    polls[FirstDecisive(polls)].value.videoId
  }

  /** The statuses the upload record goes through, in order. */
  function StatusTrace(upload: Result<string, string>, polls: seq<Result<TaskState, string>>,
                       save: StoreAnswer): (t: seq<VideoStatus>)
    requires upload.Ok? ==> EventuallyDecisive(polls)
    ensures 2 <= |t| && t[0] == Uploading
    ensures t[1] == Indexing <==> upload.Ok?
    ensures t[|t| - 1] == UploadRecord("", upload, polls, save).status
    ensures Ready in t <==> Completed(upload, polls)
  {
    if upload.Err? then [Uploading, Error]
    else [Uploading, Indexing] + AnswerTrace(polls[FirstDecisive(polls)], save)
  }

  /** The fallback analysis used when the reply is not JSON. */
  function AnalyzePrompt(prompt: string, parsed: Option<Analysis>): (r: Analysis)
    ensures parsed.Some? ==> r == parsed.value
    ensures parsed.None? ==>
      r.searchQueries == Some([prompt]) && r.editingActions == Some([Cut]) && r.targetVideos == Some([AllIndexed])
  {
    if parsed.Some? then parsed.value else Analysis(Some([prompt]), Some([Cut]), Some([AllIndexed]))
  }

  /** The first of the keys printed in turn, "search_queries", "editing_actions" and "target_videos", that the analysis lacks. */
  function MissingKey(a: Analysis): (r: Option<string>)
    ensures r.None? <==> a.searchQueries.Some? && a.editingActions.Some? && a.targetVideos.Some?
  {
    if a.searchQueries.None? then Some("search_queries")
    else if a.editingActions.None? then Some("editing_actions")
    else if a.targetVideos.None? then Some("target_videos")
    else None
  }

  /** The results of every query, concatenated in query order, or the exception of the first search that raises. */
  function SearchAll(queries: seq<string>, search: string -> Result<seq<Clip>, string>): Result<seq<Clip>, string>
  {
    if queries == [] then Ok([])
    else if search(queries[0]).Err? then Err(search(queries[0]).error)
    else Prepend(search(queries[0]).value, SearchAll(queries[1..], search))
  }

  /** `clips` followed by the clips of a later search, or that search's exception. */
  function Prepend(clips: seq<Clip>, rest: Result<seq<Clip>, string>): Result<seq<Clip>, string>
  {
    if rest.Err? then rest else Ok(clips + rest.value)
  }

  /** The exception of the first clip whose `check_video_exists` lookup raises, if any. */
  function FindError(clips: seq<Clip>, findFails: string -> Option<string>): Option<string>
    decreases |clips|
  {
    if clips == [] then None
    else if findFails(clips[0].videoId).Some? then findFails(clips[0].videoId)
    else FindError(clips[1..], findFails)
  }

  /** The video ids of the clips absent from the store, in clip order and with repetitions. */
  function MissingIds(clips: seq<Clip>, store: map<string, StoredVideo>): seq<string>
  {
    if clips == [] then []
    else
      var earlier := MissingIds(clips[..|clips| - 1], store);
      var id := clips[|clips| - 1].videoId;
      if id in store then earlier else earlier + [id]
  }

  /** `get_video_metadata`: the stored document, or None when there is none or the lookup raised. */
  function GetVideoMetadata(store: map<string, StoredVideo>, videoId: string, lookupFails: bool): (r: Option<StoredVideo>)
    ensures r.Some? <==> !lookupFails && videoId in store
    ensures r.Some? ==> r.value == store[videoId]
  {
    if lookupFails || videoId !in store then None else Some(store[videoId])
  }

  /** The input path for a video id and the cache after the lookup: cache first, then the store. */
  function Resolve(cache: map<string, string>, store: map<string, StoredVideo>, videoId: string, lookupFails: bool)
    : (r: (Option<string>, map<string, string>))
    ensures videoId in cache ==> r == (Some(cache[videoId]), cache)
    ensures r.0.None? <==> videoId !in cache && (lookupFails || videoId !in store)
    ensures r.0.Some? ==> videoId in r.1 && r.1[videoId] == r.0.value
    ensures r.1 == cache || (videoId !in cache && r.0.Some? && r.1 == cache[videoId := r.0.value])
    ensures CacheAgrees(cache, store) ==> CacheAgrees(r.1, store)
    ensures CacheAgrees(cache, store) && r.0.Some? ==> r.0.value == store[videoId].originalPath
  {
    if videoId in cache then (Some(cache[videoId]), cache)
    else
      var doc := GetVideoMetadata(store, videoId, lookupFails);
      if doc.Some? then (Some(doc.value.originalPath), cache[videoId := doc.value.originalPath])
      else (None, cache)
  }

  /** `edited/videos/edited_<timestamp>.mp4`. */
  function EditOutputPath(stamp: string): string
  {
    OutputDir + "/edited_" + stamp + ".mp4"
  }

  /** What the cleanup loop leaves: each existing path removed until a removal raises, then the manifest. */
  function CleanupFiles(paths: seq<string>, files: set<string>, removeFails: string -> bool): set<string>
    decreases |paths|
  {
    if paths == [] then
      if ManifestPath in files && !removeFails(ManifestPath) then files - {ManifestPath} else files
    else if paths[0] !in files then CleanupFiles(paths[1..], files, removeFails)
    else if removeFails(paths[0]) then files
    else CleanupFiles(paths[1..], files - {paths[0]}, removeFails)
  }

  /** Every cached path is the one the store holds for that id. */
  ghost predicate CacheAgrees(cache: map<string, string>, store: map<string, StoredVideo>)
  {
    forall id :: id in cache ==> id in store && store[id].originalPath == cache[id]
  }

  class Editor {
    var videoMetadata: map<string, VideoMetadata>
    var videoIdToPath: map<string, string>
    var store: map<string, StoredVideo>

    constructor(store: map<string, StoredVideo>)
      ensures videoMetadata == map[] && videoIdToPath == map[] && this.store == store
    {
      videoMetadata := map[];
      videoIdToPath := map[];
      this.store := store;
    }

    /** `check_video_exists`: whether the store holds the id, or the exception of its lookup. */
    function CheckVideoExists(videoId: string, findFails: string -> Option<string>): (r: Result<bool, string>)
      reads this
      ensures r.Err? <==> findFails(videoId).Some?
      ensures r.Err? ==> r.error == findFails(videoId).value
      ensures r.Ok? ==> (r.value <==> videoId in store)
    {
      if findFails(videoId).Some? then Err(findFails(videoId).value) else Ok(videoId in store)
    }

    /**
     * `save_video_metadata`: an upsert keyed by video_id, then a read-back;
     * an exception of either is re-raised, the read-back's after the upsert
     * took effect.
     */
    method SaveVideoMetadata(videoId: string, originalPath: string, now: int, save: StoreAnswer)
      returns (raised: Option<string>)
      modifies this
      ensures raised == SaveRaises(save)
      ensures store == if SaveWrites(save) then old(store)[videoId := StoredVideo(originalPath, now)] else old(store)
      ensures videoMetadata == old(videoMetadata) && videoIdToPath == old(videoIdToPath)
    {
      if save.UpsertFails? {
        return Some(save.error);
      }
      store := store[videoId := StoredVideo(originalPath, now)];
      if save.ReadBackFails? {
        return Some(save.error);
      }
      raised := None;
    }

    /**
     * `upload_video_async` for one path.  `upload` is the uploader's task
     * id or exception text, `polls` the successive answers of the task
     * lookup, of which one ends the loop.
     */
    method UploadVideoAsync(path: string, upload: Result<string, string>, polls: seq<Result<TaskState, string>>,
                            now: int, save: StoreAnswer) returns (ghost trace: seq<VideoStatus>)
      requires upload.Ok? ==> EventuallyDecisive(polls)
      modifies this
      ensures videoMetadata == old(videoMetadata)[path := UploadRecord(path, upload, polls, save)]
      ensures trace == StatusTrace(upload, polls, save)
      ensures Completed(upload, polls) ==>
        videoIdToPath == old(videoIdToPath)[CompletedId(upload, polls) := path]
        && store == if SaveWrites(save) then old(store)[CompletedId(upload, polls) := StoredVideo(path, now)] else old(store)
      ensures !Completed(upload, polls) ==> videoIdToPath == old(videoIdToPath) && store == old(store)
    {
      var record := VideoMetadata(path, None, Uploading, None);
      videoMetadata := videoMetadata[path := record];
      trace := [Uploading];
      if upload.Err? {
        record := record.(status := Error, error := Some(upload.error));
        videoMetadata := videoMetadata[path := record];
        trace := trace + [Error];
        return;
      }
      record := record.(taskId := Some(upload.value), status := Indexing);
      videoMetadata := videoMetadata[path := record];
      var answer := AwaitTask(polls);
      var rest := OnAnswer(record, answer, now, save);
      trace := [Uploading, Indexing] + rest;
    }

    /** The branches on the answer that ends the polling loop; a store error is caught like any other. */
    method OnAnswer(record: VideoMetadata, answer: Result<TaskState, string>, now: int, save: StoreAnswer)
      returns (ghost trace: seq<VideoStatus>)
      requires record.path in videoMetadata && videoMetadata[record.path] == record
      modifies this
      ensures videoMetadata == old(videoMetadata)[record.path := AnswerRecord(record, answer, save)]
      ensures trace == AnswerTrace(answer, save)
      ensures answer.Ok? && answer.value.status == "completed" ==>
        videoIdToPath == old(videoIdToPath)[answer.value.videoId := record.path]
        && store == if SaveWrites(save) then old(store)[answer.value.videoId := StoredVideo(record.path, now)] else old(store)
      ensures !(answer.Ok? && answer.value.status == "completed") ==> videoIdToPath == old(videoIdToPath) && store == old(store)
    {
      var path := record.path;
      if answer.Err? {
        videoMetadata := videoMetadata[path := record.(status := Error, error := Some(answer.error))];
        trace := [Error];
      } else if answer.value.status == "completed" {
        var ready := record.(status := Ready);
        videoMetadata := videoMetadata[path := ready];
        trace := [Ready];
        videoIdToPath := videoIdToPath[answer.value.videoId := path];
        var raised := SaveVideoMetadata(answer.value.videoId, path, now, save);
        if raised.Some? {
          videoMetadata := videoMetadata[path := ready.(status := Error, error := raised)];
          trace := trace + [Error];
        }
      } else {
        videoMetadata := videoMetadata[path := record.(status := Error, error := Some(answer.value.error))];
        trace := [Error];
      }
    }

    /** The polling loop: ask again until the answer is an exception, "completed" or "failed". */
    method AwaitTask(polls: seq<Result<TaskState, string>>) returns (answer: Result<TaskState, string>)
      requires EventuallyDecisive(polls)
      ensures answer == polls[FirstDecisive(polls)]
    {
      var k := 0;
      var last := FirstDecisive(polls);
      while !Decisive(polls[k])
        invariant 0 <= k <= last
        decreases last - k
      {
        k := k + 1;
      }
      answer := polls[k];
    }

    /**
     * `add_existing_video`: save to the store, then cache the same path; an
     * exception of the save is printed and nothing is cached, though a
     * failed read-back has already written the store.
     */
    method AddExistingVideo(videoId: string, originalPath: string, now: int, save: StoreAnswer)
      modifies this
      ensures store == if SaveWrites(save) then old(store)[videoId := StoredVideo(originalPath, now)] else old(store)
      ensures videoIdToPath == if save.Saved? then old(videoIdToPath)[videoId := originalPath] else old(videoIdToPath)
      ensures videoMetadata == old(videoMetadata)
      ensures old(CacheAgrees(videoIdToPath, store))
        && (save.ReadBackFails? && videoId in old(videoIdToPath) ==> old(videoIdToPath)[videoId] == originalPath)
        ==> CacheAgrees(videoIdToPath, store)
      ensures save.ReadBackFails? && videoId in old(videoIdToPath) && old(videoIdToPath)[videoId] != originalPath
        ==> !CacheAgrees(videoIdToPath, store)
    {
      var raised := SaveVideoMetadata(videoId, originalPath, now, save);
      if raised.None? {
        videoIdToPath := videoIdToPath[videoId := originalPath];
      }
    }

    /**
     * `process_edit` after the uploads: analyse, search every query, check
     * the clips' videos, plan, ask, resolve the first clip's video to a
     * path, and run the executor.
     */
    method ProcessEdit(prompt: string, parsed: Option<Analysis>, search: string -> Result<seq<Clip>, string>,
                       findFails: string -> Option<string>, plan: Result<EditPlan, string>, choice: string, lookupFails: bool,
                       files: set<string>, stamp: string,
                       execute: (EditPlan, string, string) -> Result<string, string>) returns (o: EditOutcome)
      modifies this
      ensures (o, videoIdToPath) == EditSpec(old(videoIdToPath), store, prompt, parsed, search, findFails, plan, choice, lookupFails,
                                             files, stamp, execute)
      ensures store == old(store) && videoMetadata == old(videoMetadata)
    {
      var analysis := AnalyzePrompt(prompt, parsed);
      if analysis.searchQueries.None? {
        return KeyMissing("search_queries");
      }
      if analysis.editingActions.None? {
        return KeyMissing("editing_actions");
      }
      if analysis.targetVideos.None? {
        return KeyMissing("target_videos");
      }
      var found := RunSearches(analysis.searchQueries.value, search);
      if found.Err? {
        return SearchFailed(found.error);
      }
      var clips := found.value;
      if clips == [] {
        return NoClips;
      }
      var missing := CollectMissing(clips, findFails);
      if missing.Err? {
        return LookupFailed(missing.error);
      }
      if missing.value != [] {
        return MissingVideos(missing.value);
      }
      if plan.Err? {
        return PlanFailed(plan.error);
      }
      if Strip(choice) != "1" {
        return Declined;
      }
      o := EditFirstClip(clips[0].videoId, plan.value, lookupFails, files, stamp, execute);
    }

    /** Resolve the first clip's video to an existing path and run the executor on it. */
    method EditFirstClip(videoId: string, plan: EditPlan, lookupFails: bool, files: set<string>, stamp: string,
                         execute: (EditPlan, string, string) -> Result<string, string>) returns (o: EditOutcome)
      modifies this
      ensures (o, videoIdToPath) == RunEdit(old(videoIdToPath), store, videoId, plan, lookupFails, files, stamp, execute)
      ensures store == old(store) && videoMetadata == old(videoMetadata)
    {
      var inputPath: string;
      if videoId in videoIdToPath {
        inputPath := videoIdToPath[videoId];
      } else {
        var metadata := GetVideoMetadata(store, videoId, lookupFails);
        if metadata.Some? {
          inputPath := metadata.value.originalPath;
          videoIdToPath := videoIdToPath[videoId := inputPath];
        } else {
          return PathNotFound(videoId);
        }
      }
      if inputPath !in files {
        return InputMissing(inputPath);
      }
      var outputPath := EditOutputPath(stamp);
      var finalPath := execute(plan, inputPath, outputPath);
      if finalPath.Err? {
        return EditFailed(finalPath.error);
      }
      o := Edited(finalPath.value);
    }

    /** The loop over the search queries; an exception of a search leaves the loop. */
    method RunSearches(queries: seq<string>, search: string -> Result<seq<Clip>, string>) returns (r: Result<seq<Clip>, string>)
      ensures r == SearchAll(queries, search)
    {
      var clips := [];
      assert Prepend([], SearchAll(queries, search)) == SearchAll(queries, search) by {
        if SearchAll(queries, search).Ok? {
          assert [] + SearchAll(queries, search).value == SearchAll(queries, search).value;
        }
      }
      var i := 0;
      while i < |queries|
        invariant 0 <= i <= |queries|
        invariant SearchAll(queries, search) == Prepend(clips, SearchAll(queries[i..], search))
      {
        assert queries[i..][0] == queries[i] && queries[i..][1..] == queries[i + 1..];
        var results := search(queries[i]);
        if results.Err? {
          assert SearchAll(queries[i..], search) == Err(results.error);
          return Err(results.error);
        }
        PrependTwice(clips, results.value, SearchAll(queries[i + 1..], search));
        clips := clips + results.value;
        i := i + 1;
      }
      assert queries[i..] == [] && clips + [] == clips;
      r := Ok(clips);
    }

    /** The loop collecting `missing_videos`; an exception of a lookup leaves the loop. */
    method CollectMissing(clips: seq<Clip>, findFails: string -> Option<string>) returns (r: Result<seq<string>, string>)
      ensures r.Err? <==> FindError(clips, findFails).Some?
      ensures r.Err? ==> r.error == FindError(clips, findFails).value
      ensures r.Ok? ==> r.value == MissingIds(clips, store)
    {
      var missing := [];
      var i := 0;
      while i < |clips|
        invariant 0 <= i <= |clips|
        invariant FindError(clips, findFails) == FindError(clips[i..], findFails)
        invariant missing == MissingIds(clips[..i], store)
      {
        assert clips[..i + 1][..i] == clips[..i];
        assert clips[i..][0] == clips[i] && clips[i..][1..] == clips[i + 1..];
        var stored := CheckVideoExists(clips[i].videoId, findFails);
        if stored.Err? {
          return Err(stored.error);
        }
        if !stored.value {
          missing := missing + [clips[i].videoId];
        }
        i := i + 1;
      }
      assert clips[..|clips|] == clips && clips[|clips|..] == [];
      r := Ok(missing);
    }
  }

  /** `process_edit` after the uploads, as a function: the outcome and the cache afterwards. */
  function EditSpec(cache: map<string, string>, store: map<string, StoredVideo>, prompt: string,
                    parsed: Option<Analysis>, search: string -> Result<seq<Clip>, string>,
                    findFails: string -> Option<string>, plan: Result<EditPlan, string>,
                    choice: string, lookupFails: bool, files: set<string>, stamp: string,
                    execute: (EditPlan, string, string) -> Result<string, string>): (r: (EditOutcome, map<string, string>))
    ensures var key := MissingKey(AnalyzePrompt(prompt, parsed));
      (key.Some? ==> r == (KeyMissing(key.value), cache))
      && (r.0.KeyMissing? <==> key.Some?)
    ensures var a := AnalyzePrompt(prompt, parsed);
      MissingKey(a).None? ==>
        (SearchAll(a.searchQueries.value, search).Err? ==>
           r == (SearchFailed(SearchAll(a.searchQueries.value, search).error), cache))
        && (r.0.SearchFailed? <==> SearchAll(a.searchQueries.value, search).Err?)
        && (r.0 == NoClips <==> SearchAll(a.searchQueries.value, search) == Ok([]))
    ensures CacheAgrees(cache, store) ==> CacheAgrees(r.1, store)
    ensures r.1 != cache ==> r.0.PathNotFound? || r.0.InputMissing? || r.0.Edited? || r.0.EditFailed?
  {
    var analysis := AnalyzePrompt(prompt, parsed);
    var key := MissingKey(analysis);
    if key.Some? then (KeyMissing(key.value), cache)
    else
      var found := SearchAll(analysis.searchQueries.value, search);
      if found.Err? then (SearchFailed(found.error), cache)
      else
        var clips := found.value;
        if clips == [] then (NoClips, cache)
        else if FindError(clips, findFails).Some? then (LookupFailed(FindError(clips, findFails).value), cache)
        else if MissingIds(clips, store) != [] then (MissingVideos(MissingIds(clips, store)), cache)
        else if plan.Err? then (PlanFailed(plan.error), cache)
        else if Strip(choice) != "1" then (Declined, cache)
        else RunEdit(cache, store, clips[0].videoId, plan.value, lookupFails, files, stamp, execute)
  }

  /** The path lookup for the first clip and the executor's outcome, with the cache afterwards. */
  function RunEdit(cache: map<string, string>, store: map<string, StoredVideo>, videoId: string, plan: EditPlan,
                   lookupFails: bool, files: set<string>, stamp: string,
                   execute: (EditPlan, string, string) -> Result<string, string>): (r: (EditOutcome, map<string, string>))
    ensures r.0.PathNotFound? || r.0.InputMissing? || r.0.Edited? || r.0.EditFailed?
    ensures CacheAgrees(cache, store) ==> CacheAgrees(r.1, store)
  {
    var (input, cache') := Resolve(cache, store, videoId, lookupFails);
    if input.None? then (PathNotFound(videoId), cache')
    else if input.value !in files then (InputMissing(input.value), cache')
    else
      var r := execute(plan, input.value, EditOutputPath(stamp));
      (if r.Err? then EditFailed(r.error) else Edited(r.value), cache')
  }

  /** `cleanup`: remove each listed path that exists, then the manifest; an error ends the loop and is only printed. */
  method Cleanup(clipPaths: seq<string>, files: set<string>, removeFails: string -> bool) returns (after: set<string>)
    ensures after == CleanupFiles(clipPaths, files, removeFails)
  {
    after := files;
    var i := 0;
    while i < |clipPaths|
      invariant 0 <= i <= |clipPaths|
      invariant CleanupFiles(clipPaths[i..], after, removeFails) == CleanupFiles(clipPaths, files, removeFails)
    {
      var path := clipPaths[i];
      assert clipPaths[i..][0] == path && clipPaths[i..][1..] == clipPaths[i + 1..];
      if path in after {
        if removeFails(path) {
          return;
        }
        after := after - {path};
      }
      i := i + 1;
    }
    assert clipPaths[|clipPaths|..] == [];
    if ManifestPath in after {
      if removeFails(ManifestPath) {
        return;
      }
      after := after - {ManifestPath};
    }
  }

  // ---------------------------------------------------------------- lemmas

  /** One call of `save_video_metadata` that did not raise. */
  datatype Save = Save(videoId: string, originalPath: string, at: int)

  /** The store after a series of successful saves, in call order. */
  function ApplySaves(store: map<string, StoredVideo>, saves: seq<Save>): map<string, StoredVideo>
  {
    if saves == [] then store
    else
      var last := saves[|saves| - 1];
      ApplySaves(store, saves[..|saves| - 1])[last.videoId := StoredVideo(last.originalPath, last.at)]
  }

  /**
   * The upsert keeps one document per video id: after a series of saves
   * an id holds the path and time of its last save.
   */
  lemma {:induction false} LastSaveWins(store: map<string, StoredVideo>, saves: seq<Save>, i: nat)
    requires i < |saves|
    requires forall j :: i < j < |saves| ==> saves[j].videoId != saves[i].videoId
    ensures saves[i].videoId in ApplySaves(store, saves)
    ensures ApplySaves(store, saves)[saves[i].videoId] == StoredVideo(saves[i].originalPath, saves[i].at)
  {
    if i < |saves| - 1 {
      var init := saves[..|saves| - 1];
      assert forall j :: 0 <= j < |init| ==> init[j] == saves[j];
      LastSaveWins(store, init, i);
    }
  }

  /** An id no save names keeps what the store had. */
  lemma {:induction false} UnsavedKept(store: map<string, StoredVideo>, saves: seq<Save>, id: string)
    requires forall i :: 0 <= i < |saves| ==> saves[i].videoId != id
    ensures id in ApplySaves(store, saves) <==> id in store
    ensures id in store ==> ApplySaves(store, saves)[id] == store[id]
  {
    if saves != [] {
      var init := saves[..|saves| - 1];
      assert forall j :: 0 <= j < |init| ==> init[j] == saves[j];
      UnsavedKept(store, init, id);
    }
  }

  lemma PrependTwice(clips: seq<Clip>, more: seq<Clip>, rest: Result<seq<Clip>, string>)
    ensures Prepend(clips, Prepend(more, rest)) == Prepend(clips + more, rest)
  {
    if rest.Ok? {
      AppendAssoc(clips, more, rest.value);
    }
  }

  /**
   * The searches succeed exactly when every query's search returns, and
   * then give every query's clips in query order; otherwise the exception
   * is the one of the first query whose search raised.
   */
  lemma {:induction false} SearchAllSpec(queries: seq<string>, search: string -> Result<seq<Clip>, string>)
    ensures SearchAll(queries, search).Ok? <==> forall i :: 0 <= i < |queries| ==> search(queries[i]).Ok?
    ensures SearchAll(queries, search).Ok? ==>
      SearchAll(queries, search).value == Clips(queries, search)
    ensures SearchAll(queries, search).Err? ==>
      exists i :: 0 <= i < |queries| && search(queries[i]) == Err(SearchAll(queries, search).error)
                  && forall j :: 0 <= j < i ==> search(queries[j]).Ok?
  {
    if queries != [] {
      var rest := queries[1..];
      SearchAllSpec(rest, search);
      assert forall i :: 0 <= i < |rest| ==> rest[i] == queries[i + 1];
      if search(queries[0]).Ok? && SearchAll(rest, search).Err? {
        var i :| 0 <= i < |rest| && search(rest[i]) == Err(SearchAll(rest, search).error)
                 && forall j :: 0 <= j < i ==> search(rest[j]).Ok?;
        assert search(queries[i + 1]) == Err(SearchAll(queries, search).error);
        forall j | 0 <= j < i + 1 ensures search(queries[j]).Ok? {
          if j > 0 {
            assert queries[j] == rest[j - 1];
          }
        }
      }
      if !search(queries[0]).Ok? {
        assert search(queries[0]) == Err(SearchAll(queries, search).error);
      } else if SearchAll(rest, search).Ok? {
        ClipsCons(queries, search);
      }
    }
  }

  lemma {:induction false} ClipsCons(queries: seq<string>, search: string -> Result<seq<Clip>, string>)
    requires queries != [] && forall i :: 0 <= i < |queries| ==> search(queries[i]).Ok?
    ensures Clips(queries, search) == search(queries[0]).value + Clips(queries[1..], search)
    decreases |queries|
  {
    if |queries| > 1 {
      var init := queries[..|queries| - 1];
      var last := search(queries[|queries| - 1]).value;
      ClipsCons(init, search);
      assert init[1..] == queries[1..][..|queries[1..]| - 1];
      AppendAssoc(search(queries[0]).value, Clips(init[1..], search), last);
    } else {
      assert queries[..0] == [] && queries[1..] == [];
      assert Clips(queries, search) == [] + search(queries[0]).value;
    }
  }

  /** The clips of every query, each search assumed to return: the reference for a successful search loop. */
  function Clips(queries: seq<string>, search: string -> Result<seq<Clip>, string>): seq<Clip>
    requires forall i :: 0 <= i < |queries| ==> search(queries[i]).Ok?
  {
    if queries == [] then [] else Clips(queries[..|queries| - 1], search) + search(queries[|queries| - 1]).value
  }

  /** Some clip comes from video `id`. */
  predicate Mentions(clips: seq<Clip>, id: string)
  {
    exists i :: 0 <= i < |clips| && clips[i].videoId == id
  }

  /** The missing ids are exactly the clips' video ids absent from the store. */
  lemma {:induction false} MissingIdsSpec(clips: seq<Clip>, store: map<string, StoredVideo>)
    ensures MissingIds(clips, store) == [] <==> forall i :: 0 <= i < |clips| ==> clips[i].videoId in store
    ensures forall id :: id in MissingIds(clips, store) <==> id !in store && Mentions(clips, id)
    ensures |MissingIds(clips, store)| <= |clips|
  {
    if clips != [] {
      var init := clips[..|clips| - 1];
      var last := clips[|clips| - 1];
      MissingIdsSpec(init, store);
      assert forall i :: 0 <= i < |init| ==> init[i] == clips[i];
      forall id ensures Mentions(clips, id) <==> Mentions(init, id) || last.videoId == id {
        if Mentions(clips, id) {
          var i :| 0 <= i < |clips| && clips[i].videoId == id;
          if i < |init| {
            assert init[i].videoId == id;
          }
        }
      }
    }
  }

  /**
   * The lookup loop raises exactly when some clip's lookup raises, and
   * then with the exception of the first such clip.
   */
  lemma {:induction false} FindErrorSpec(clips: seq<Clip>, findFails: string -> Option<string>)
    ensures FindError(clips, findFails).None? <==> forall i :: 0 <= i < |clips| ==> findFails(clips[i].videoId).None?
    ensures FindError(clips, findFails).Some? ==>
      exists k :: 0 <= k < |clips| && findFails(clips[k].videoId) == FindError(clips, findFails)
        && forall i :: 0 <= i < k ==> findFails(clips[i].videoId).None?
    decreases |clips|
  {
    if clips != [] {
      var rest := clips[1..];
      FindErrorSpec(rest, findFails);
      assert forall i :: 1 <= i < |clips| ==> clips[i] == rest[i - 1];
      if findFails(clips[0].videoId).None? && FindError(rest, findFails).Some? {
        var k :| 0 <= k < |rest| && findFails(rest[k].videoId) == FindError(rest, findFails)
          && forall i :: 0 <= i < k ==> findFails(rest[i].videoId).None?;
        assert findFails(clips[k + 1].videoId) == FindError(clips, findFails);
      }
    }
  }

  /**
   * The early returns of `process_edit` after a successful search: a
   * lookup that raises, then clips whose videos are not stored (before any
   * plan is generated), then a failed plan, then a choice other than "1".
   */
  lemma EditStopsEarly(cache: map<string, string>, store: map<string, StoredVideo>, prompt: string,
                       parsed: Option<Analysis>, search: string -> Result<seq<Clip>, string>,
                       findFails: string -> Option<string>, plan: Result<EditPlan, string>, choice: string,
                       lookupFails: bool, files: set<string>, stamp: string,
                       execute: (EditPlan, string, string) -> Result<string, string>)
    requires MissingKey(AnalyzePrompt(prompt, parsed)).None?
    requires var found := SearchAll(AnalyzePrompt(prompt, parsed).searchQueries.value, search);
      found.Ok? && found.value != []
    ensures var clips := SearchAll(AnalyzePrompt(prompt, parsed).searchQueries.value, search).value;
      var r := EditSpec(cache, store, prompt, parsed, search, findFails, plan, choice, lookupFails, files, stamp, execute);
      var lookedUp := forall i :: 0 <= i < |clips| ==> findFails(clips[i].videoId).None?;
      var allStored := forall i :: 0 <= i < |clips| ==> clips[i].videoId in store;
      (!lookedUp ==> r.0.LookupFailed? && r.1 == cache)
      && (lookedUp && !allStored ==> r == (MissingVideos(MissingIds(clips, store)), cache))
      && (lookedUp && !allStored ==> forall id :: id in r.0.ids <==> id !in store && Mentions(clips, id))
      && (lookedUp && allStored && plan.Err? ==> r == (PlanFailed(plan.error), cache))
      && (lookedUp && allStored && plan.Ok? && Strip(choice) != "1" ==> r == (Declined, cache))
  {
    var clips := SearchAll(AnalyzePrompt(prompt, parsed).searchQueries.value, search).value;
    MissingIdsSpec(clips, store);
    FindErrorSpec(clips, findFails);
  }

  /** When no removal raises, cleanup removes every listed path and the manifest; it never removes anything else. */
  lemma {:induction false} CleanupSpec(paths: seq<string>, files: set<string>, removeFails: string -> bool)
    ensures CleanupFiles(paths, files, removeFails) <= files
    ensures files - CleanupFiles(paths, files, removeFails) <= set p | p in paths + [ManifestPath]
    ensures (forall p :: p in paths + [ManifestPath] ==> !removeFails(p)) ==>
      CleanupFiles(paths, files, removeFails) == files - (set p | p in paths + [ManifestPath])
    decreases |paths|
  {
    if paths != [] {
      var rest := paths[1..];
      assert forall p :: p in paths + [ManifestPath] <==> p == paths[0] || p in rest + [ManifestPath];
      if paths[0] !in files {
        CleanupSpec(rest, files, removeFails);
      } else if !removeFails(paths[0]) {
        CleanupSpec(rest, files - {paths[0]}, removeFails);
        var after := CleanupFiles(rest, files - {paths[0]}, removeFails);
        assert files - after <= {paths[0]} + ((files - {paths[0]}) - after);
      }
    }
  }

  /**
   * When the cache agrees with the store, every clip's video is stored
   * and the lookup does not fail, an accepted plan is run on the stored
   * path of the first clip's video.
   */
  lemma EditUsesStoredPath(cache: map<string, string>, store: map<string, StoredVideo>, prompt: string,
                           parsed: Option<Analysis>, search: string -> Result<seq<Clip>, string>,
                           findFails: string -> Option<string>, plan: EditPlan, lookupFails: bool,
                           files: set<string>, stamp: string, execute: (EditPlan, string, string) -> Result<string, string>)
    requires CacheAgrees(cache, store) && !lookupFails
    requires MissingKey(AnalyzePrompt(prompt, parsed)).None?
    requires var found := SearchAll(AnalyzePrompt(prompt, parsed).searchQueries.value, search);
      found.Ok? && found.value != [] && forall i :: 0 <= i < |found.value| ==> found.value[i].videoId in store
    requires var found := SearchAll(AnalyzePrompt(prompt, parsed).searchQueries.value, search);
      forall i :: 0 <= i < |found.value| ==> findFails(found.value[i].videoId).None?
    ensures var clips := SearchAll(AnalyzePrompt(prompt, parsed).searchQueries.value, search).value;
      var input := store[clips[0].videoId].originalPath;
      var o := EditSpec(cache, store, prompt, parsed, search, findFails, Ok(plan), "1", false, files, stamp, execute).0;
      (input !in files ==> o == InputMissing(input))
      && (input in files ==> o == (if execute(plan, input, EditOutputPath(stamp)).Err?
                                   then EditFailed(execute(plan, input, EditOutputPath(stamp)).error)
                                   else Edited(execute(plan, input, EditOutputPath(stamp)).value)))
  {
    var clips := SearchAll(AnalyzePrompt(prompt, parsed).searchQueries.value, search).value;
    MissingIdsSpec(clips, store);
    FindErrorSpec(clips, findFails);
    assert MissingIds(clips, store) == [];
    assert Strip("1") == "1";
    assert EditSpec(cache, store, prompt, parsed, search, findFails, Ok(plan), "1", false, files, stamp, execute)
      == RunEdit(cache, store, clips[0].videoId, plan, false, files, stamp, execute);
    RunEditStored(cache, store, clips[0].videoId, plan, files, stamp, execute);
  }

  /** With an agreeing cache and a stored video, the executor is given the stored path. */
  lemma RunEditStored(cache: map<string, string>, store: map<string, StoredVideo>, videoId: string, plan: EditPlan,
                      files: set<string>, stamp: string, execute: (EditPlan, string, string) -> Result<string, string>)
    requires CacheAgrees(cache, store) && videoId in store
    ensures var input := store[videoId].originalPath;
      var o := RunEdit(cache, store, videoId, plan, false, files, stamp, execute).0;
      (input !in files ==> o == InputMissing(input))
      && (input in files ==> o == (if execute(plan, input, EditOutputPath(stamp)).Err?
                                   then EditFailed(execute(plan, input, EditOutputPath(stamp)).error)
                                   else Edited(execute(plan, input, EditOutputPath(stamp)).value)))
  {
    var r := Resolve(cache, store, videoId, false);
    assert r.0 == Some(store[videoId].originalPath);
  }
}

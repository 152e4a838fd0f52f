/**
 * `ClipProcessor` of `backend/process_results.py` (the class in
 * `src/process_results.py` is the same text): one search, the clips at or
 * above a score threshold, sorted by descending score and kept in the
 * field `processed_clips`, whose first element is the top clip.
 */
module ClipSelection {
  import opened Wrappers
  import opened StableSort
  import opened Plan
  import opened TwelveSearch

  /** The default of `min_score`. */
  const DefaultMinScore: real := 0.7

  /** The exception `get_highest_scored_clips` can raise. */
  datatype SearchFailure =
    | QueryRaised(message: string)  // `client.search.query` raised
    | ClipsNotIterable              // a grouped item whose `clips` is null: `for clip in None` raises TypeError

  /** The clips collected so far, and whether the loop went through every item. */
  datatype Gathered = Gathered(clips: seq<Clip>, complete: bool)

  /** The search parameters: the video filter is added only when `video_id` is truthy. */
  function QueryFor(query: string, videoId: Option<string>): (q: Query)
    ensures q.text == query
    ensures q.videoId.Some? <==> Present(videoId)
    ensures q.videoId.Some? ==> q.videoId == videoId
  {
    Query(query, if Present(videoId) then videoId else None)
  }

  /** A hit converted to a record when it scores at least `minScore`. */
  function Kept(h: SearchHit, minScore: real): seq<Clip>
  {
    if h.score >= minScore then [ToClip(h)] else []
  }

  /** The collecting loop from the remaining items on, `acc` being the clips appended so far. */
  function Gather(items: seq<Item>, minScore: real, acc: seq<Clip>): Gathered
    decreases |items|
  {
    if items == [] then Gathered(acc, true)
    else
      match items[0]
      case Grouped(cs) =>
        if cs.None? then Gathered(acc, false)
        else Gather(items[1..], minScore, acc + Above(ClipsOf(cs.value), minScore))
      case Single(h) => Gather(items[1..], minScore, acc + Kept(h, minScore))
  }

  function Score(c: Clip): real
  {
    c.score
  }

  /** `sort(key=lambda x: x['score'], reverse=True)`. */
  function ByScore(clips: seq<Clip>): seq<Clip>
  {
    Sort(clips, Score, true)
  }

  class ClipProcessor {
    var processedClips: seq<Clip>

    constructor()
      ensures processedClips == []
    {
      processedClips := [];
    }

    /**
     * `get_highest_scored_clips`: resets the field, appends every clip
     * scoring at least `minScore`, then sorts the field in place.  When a
     * grouped item has null clips the loop raises and the field keeps the
     * unsorted clips appended before it.  When the query itself raises,
     * the field stays empty.
     */
    method GetHighestScoredClips(query: string, minScore: real, videoId: Option<string>,
                                 search: Query -> Result<seq<Item>, string>) returns (r: Result<seq<Clip>, SearchFailure>)
      modifies this
      ensures var answer := search(QueryFor(query, videoId));
        answer.Err? ==> processedClips == [] && r == Err(QueryRaised(answer.error))
      ensures var answer := search(QueryFor(query, videoId));
        answer.Ok? ==>
          var g := Gather(answer.value, minScore, []);
          if g.complete then processedClips == ByScore(g.clips) && r == Ok(processedClips)
          else processedClips == g.clips && r == Err(ClipsNotIterable)
    {
      processedClips := [];
      var answer := search(QueryFor(query, videoId));
      if answer.Err? {
        return Err(QueryRaised(answer.error));
      }
      var items := answer.value;
      var i := 0;
      while i < |items|
        invariant 0 <= i <= |items|
        invariant Gather(items[i..], minScore, processedClips) == Gather(items, minScore, [])
      {
        var item := items[i];
        assert items[i..][0] == item && items[i..][1..] == items[i + 1..];
        if item.Grouped? {
          if item.clips.None? {
            return Err(ClipsNotIterable);
          }
          AppendHigh(item.clips.value, minScore);
        } else {
          if item.hit.score >= minScore {
            processedClips := processedClips + [ToClip(item.hit)];
          } else {
            assert processedClips + Kept(item.hit, minScore) == processedClips;
          }
        }
        i := i + 1;
      }
      assert items[|items|..] == [];
      processedClips := ByScore(processedClips);
      r := Ok(processedClips);
    }

    /** The inner loop over a group's clips. */
    method AppendHigh(hits: seq<SearchHit>, minScore: real)
      modifies this
      ensures processedClips == old(processedClips) + Above(ClipsOf(hits), minScore)
    {
      ghost var base := processedClips;
      var j := 0;
      while j < |hits|
        invariant 0 <= j <= |hits|
        invariant processedClips == base + Above(ClipsOf(hits[..j]), minScore)
      {
        AboveStep(hits, j, minScore);
        if hits[j].score >= minScore {
          AppendAssoc(base, Above(ClipsOf(hits[..j]), minScore), [ToClip(hits[j])]);
          processedClips := processedClips + [ToClip(hits[j])];
        }
        j := j + 1;
      }
      assert hits[..|hits|] == hits;
    }

    /** `get_top_clip`: None when there are no clips, otherwise the first one. */
    function GetTopClip(): (r: Option<Clip>)
      reads this
      ensures r.None? <==> processedClips == []
      ensures r.Some? ==> r.value == processedClips[0]
    {
      if processedClips == [] then None else Some(processedClips[0])
    }
  }

  // ---------------------------------------------------------------- lemmas

  /** One more hit adds its clip to the filtered list exactly when it scores at least `t`. */
  lemma AboveStep(hits: seq<SearchHit>, j: nat, t: real)
    requires j < |hits|
    ensures Above(ClipsOf(hits[..j + 1]), t)
      == Above(ClipsOf(hits[..j]), t) + (if hits[j].score >= t then [ToClip(hits[j])] else [])
  {
    var c := ClipsOf(hits[..j + 1]);
    assert hits[..j + 1][..j] == hits[..j];
    assert c == ClipsOf(hits[..j]) + [ToClip(hits[j])];
    assert c[..|c| - 1] == ClipsOf(hits[..j]);
  }

  /**
   * The loop goes through every item exactly when none is a group with
   * null clips, and then it has appended the flattened clips that score
   * at least `minScore`, in result order.
   */
  lemma {:induction false} GatherIsFilter(items: seq<Item>, minScore: real, acc: seq<Clip>)
    ensures Gather(items, minScore, acc).complete <==> forall i :: 0 <= i < |items| ==> items[i] != Grouped(None)
    ensures Gather(items, minScore, acc).complete ==>
      Gather(items, minScore, acc).clips == acc + Above(Flatten(items), minScore)
    decreases |items|
  {
    if items == [] {
      assert acc + [] == acc;
    } else {
      var rest := items[1..];
      assert forall i :: 1 <= i < |items| ==> items[i] == rest[i - 1];
      if items[0] != Grouped(None) {
        var head := Above(ClipsOf(HitsOf(items[0])), minScore);
        GatherStep(items, minScore, acc);
        GatherIsFilter(rest, minScore, acc + head);
        AboveAppend(ClipsOf(HitsOf(items[0])), Flatten(rest), minScore);
        AppendAssoc(acc, head, Above(Flatten(rest), minScore));
      }
    }
  }

  /** An item that is not a null group contributes its clips scoring at least `minScore`. */
  lemma GatherStep(items: seq<Item>, minScore: real, acc: seq<Clip>)
    requires items != [] && items[0] != Grouped(None)
    ensures Gather(items, minScore, acc)
      == Gather(items[1..], minScore, acc + Above(ClipsOf(HitsOf(items[0])), minScore))
  {
    match items[0]
    case Grouped(cs) =>
    case Single(h) =>
      assert ClipsOf([h]) == [ToClip(h)] by {
        assert [h][..0] == [];
      }
      assert Above([ToClip(h)], minScore) == Kept(h, minScore) by {
        assert [ToClip(h)][..0] == [];
      }
  }

  /**
   * The sorted list is a permutation of the collected clips, in
   * non-increasing score order, with clips of equal score in the order
   * they were found.
   */
  lemma ByScoreSpec(clips: seq<Clip>, k: real)
    ensures multiset(ByScore(clips)) == multiset(clips)
    ensures forall i, j :: 0 <= i < j < |clips| ==> ByScore(clips)[i].score >= ByScore(clips)[j].score
    ensures WithRank(ByScore(clips), Score, true, k) == WithRank(clips, Score, true, k)
  {
    SortPermutes(clips, Score, true);
    SortOrdered(clips, Score, true);
    SortStable(clips, Score, true, k);
    var s := ByScore(clips);
    forall i, j | 0 <= i < j < |clips| ensures s[i].score >= s[j].score {
      assert Rank(Score, true, s[i]) <= Rank(Score, true, s[j]);
    }
  }

  /** After a completed search, every stored clip scores at least `minScore` and the first scores highest. */
  lemma SearchOutcome(items: seq<Item>, minScore: real)
    requires Gather(items, minScore, []).complete
    ensures var stored := ByScore(Gather(items, minScore, []).clips);
      multiset(stored) == multiset(Above(Flatten(items), minScore))
      && (forall i :: 0 <= i < |stored| ==> stored[i].score >= minScore)
      && (stored != [] ==> forall i :: 0 <= i < |stored| ==> stored[i].score <= stored[0].score)
  {
    GatherIsFilter(items, minScore, []);
    var g := Gather(items, minScore, []).clips;
    assert g == Above(Flatten(items), minScore);
    SortPermutes(g, Score, true);
    AboveMembers(Flatten(items), minScore);
    ByScoreKeepsBound(g, minScore);
    ByScoreTopFirst(g);
  }

  /** Sorting keeps every clip at or above a score every input clip reaches. */
  lemma ByScoreKeepsBound(clips: seq<Clip>, t: real)
    requires forall c :: c in clips ==> c.score >= t
    ensures forall i :: 0 <= i < |ByScore(clips)| ==> ByScore(clips)[i].score >= t
  {
    SortPermutes(clips, Score, true);
    var s := ByScore(clips);
    forall i | 0 <= i < |s| ensures s[i].score >= t {
      assert s[i] in multiset(clips);
    }
  }

  /** The first clip of the sorted list scores highest. */
  lemma ByScoreTopFirst(clips: seq<Clip>)
    ensures var s := ByScore(clips);
      s != [] ==> forall i :: 0 <= i < |s| ==> s[i].score <= s[0].score
  {
    ByScoreSpec(clips, 0.0);
  }
}

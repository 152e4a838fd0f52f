/**
 * The post-processing of a TwelveLabs search in `src/twelve.py`: the
 * query is normalised, grouped results are flattened into flat clip
 * records, and a score threshold is applied only when some clip rises
 * above it.  The search service itself is an oracle from the query
 * parameters to the list of result items, or to the exception the
 * client's query raises.
 */
module TwelveSearch {
  import opened Wrappers
  import opened Strings

  /** A search hit as the service returns it (`SearchData`). */
  datatype SearchHit = SearchHit(videoId: string, start: real, end: real, score: real, thumbnail: string)

  /** A result item: a group of hits (`GroupByVideoSearchData`, whose `clips` may be null) or a single hit. */
  datatype Item = Grouped(clips: Option<seq<SearchHit>>) | Single(hit: SearchHit)

  /** The flat clip record (a dict with keys score, start_time, end_time, video_id, thumbnail_url). */
  datatype Clip = Clip(score: real, startTime: real, endTime: real, videoId: string, thumbnail: string)

  /**
   * The query parameters that vary between calls.  The index, the
   * options ("visual", "audio"), grouping by clip, the "or" operator,
   * the page limit of 5 and ordering by score are the same in every call.
   */
  datatype Query = Query(text: string, videoId: Option<string>)

  /** The score above which results count as "high". */
  const HighScore: real := 0.7

  /** `user_query.strip().lower()`. */
  function NormaliseQuery(q: string): string
  {
    Lower(Strip(q))
  }

  /** `print_search_data`: the hit's fields under the record's key names. */
  function ToClip(h: SearchHit): Clip
  {
    Clip(h.score, h.start, h.end, h.videoId, h.thumbnail)
  }

  /** The hit a clip record was made from. */
  function FromClip(c: Clip): SearchHit
  {
    SearchHit(c.videoId, c.startTime, c.endTime, c.score, c.thumbnail)
  }

  /** The hits an item contributes: a group's clips (none when they are null or empty), or the item itself. */
  function HitsOf(item: Item): seq<SearchHit>
  {
    match item
    case Grouped(cs) => if cs.Some? then cs.value else []
    case Single(h) => [h]
  }

  function ClipsOf(hs: seq<SearchHit>): (r: seq<Clip>)
    ensures |r| == |hs|
  {
    if hs == [] then [] else ClipsOf(hs[..|hs| - 1]) + [ToClip(hs[|hs| - 1])]
  }

  /** Every hit of every item, converted, in result order. */
  function Flatten(items: seq<Item>): seq<Clip>
  {
    if items == [] then [] else ClipsOf(HitsOf(items[0])) + Flatten(items[1..])
  }

  /** `[clip for clip in clips if clip['score'] >= t]`. */
  function Above(clips: seq<Clip>, t: real): seq<Clip>
  {
    if clips == [] then []
    else
      var earlier := Above(clips[..|clips| - 1], t);
      if clips[|clips| - 1].score >= t then earlier + [clips[|clips| - 1]] else earlier
  }

  /** `highest_score`: the running maximum of the scores, starting from 0. */
  function Highest(clips: seq<Clip>): real
  {
    if clips == [] then 0.0
    else
      var earlier := Highest(clips[..|clips| - 1]);
      if clips[|clips| - 1].score > earlier then clips[|clips| - 1].score else earlier
  }

  /** The filter step: only when the highest score exceeds 0.7 are the clips below 0.7 dropped. */
  function Selected(all: seq<Clip>): seq<Clip>
  {
    if Highest(all) > HighScore then
      var high := Above(all, HighScore);
      if high != [] then high else all
    else all
  }

  /** What `search_video` returns for the service's result items. */
  function SearchResult(items: seq<Item>): seq<Clip>
  {
    Selected(Flatten(items))
  }

  /**
   * `search_video`: normalise, query, collect the clips and the highest
   * score, then filter; an exception of the query leaves the function.
   */
  method SearchVideo(userQuery: string, search: Query -> Result<seq<Item>, string>) returns (r: Result<seq<Clip>, string>)
    ensures var answer := search(Query(NormaliseQuery(userQuery), None));
      (answer.Err? ==> r == Err(answer.error)) && (answer.Ok? ==> r == Ok(SearchResult(answer.value)))
  {
    var q := Strip(userQuery);
    q := Lower(q);
    var items := search(Query(q, None));
    if items.Err? {
      return Err(items.error);
    }
    var allClips, highest := Collect(items.value);
    var clips := allClips;
    if highest > 0.7 {
      var high := HighScored(allClips);
      if high != [] {
        clips := high;
      }
    }
    r := Ok(clips);
  }

  /** The collecting loop over the result items. */
  method Collect(items: seq<Item>) returns (allClips: seq<Clip>, highest: real)
    ensures allClips == Flatten(items)
    ensures highest == Highest(allClips)
  {
    allClips, highest := [], 0.0;
    var i := 0;
    while i < |items|
      invariant 0 <= i <= |items|
      invariant allClips + Flatten(items[i..]) == Flatten(items)
      invariant highest == Highest(allClips)
    {
      var item := items[i];
      assert items[i..][0] == item && items[i..][1..] == items[i + 1..];
      var hits: seq<SearchHit> := [];
      if item.Grouped? {
        if item.clips.Some? && item.clips.value != [] {
          hits := item.clips.value;
        }
      } else {
        hits := [item.hit];
      }
      assert hits == HitsOf(item);
      assert Flatten(items[i..]) == ClipsOf(hits) + Flatten(items[i + 1..]);
      var before := allClips;
      allClips, highest := AppendHits(allClips, highest, hits);
      AppendAssoc(before, ClipsOf(hits), Flatten(items[i + 1..]));
      i := i + 1;
    }
    assert items[|items|..] == [];
  }

  /** The inner loop: each hit is converted, appended, and folded into the running maximum. */
  method AppendHits(clips: seq<Clip>, highest: real, hits: seq<SearchHit>) returns (allClips: seq<Clip>, top: real)
    requires highest == Highest(clips)
    ensures allClips == clips + ClipsOf(hits)
    ensures top == Highest(allClips)
  {
    allClips, top := clips, highest;
    var j := 0;
    while j < |hits|
      invariant 0 <= j <= |hits|
      invariant allClips == clips + ClipsOf(hits[..j])
      invariant top == Highest(allClips)
    {
      assert hits[..j + 1][..j] == hits[..j];
      var clipData := ToClip(hits[j]);
      allClips := allClips + [clipData];
      assert allClips[..|allClips| - 1] == clips + ClipsOf(hits[..j]);
      if clipData.score > top {
        top := clipData.score;
      }
      j := j + 1;
    }
    assert hits[..|hits|] == hits;
  }

  /** The comprehension keeping the clips that score at least 0.7. */
  method HighScored(allClips: seq<Clip>) returns (high: seq<Clip>)
    ensures high == Above(allClips, HighScore)
  {
    high := [];
    var k := 0;
    while k < |allClips|
      invariant 0 <= k <= |allClips|
      invariant high == Above(allClips[..k], HighScore)
    {
      assert allClips[..k + 1][..k] == allClips[..k];
      if allClips[k].score >= 0.7 {
        high := high + [allClips[k]];
      }
      k := k + 1;
    }
    assert allClips[..|allClips|] == allClips;
  }

  // ---------------------------------------------------------------- lemmas

  /** The normalised query has no surrounding whitespace and no upper-case ASCII letter. */
  lemma NormalisedShape(q: string)
    ensures NoEdgeSpace(NormaliseQuery(q))
    ensures forall i :: 0 <= i < |NormaliseQuery(q)| ==> !('A' <= NormaliseQuery(q)[i] <= 'Z')
  {
    var s := Strip(q);
    var r := Lower(s);
    if r != [] {
      assert r[0] == LowerChar(s[0]) && r[|r| - 1] == LowerChar(s[|s| - 1]);
      LowerKeepsNonSpace(s[0]);
      LowerKeepsNonSpace(s[|s| - 1]);
    }
    forall i | 0 <= i < |r| ensures !('A' <= r[i] <= 'Z') {
      assert r[i] == LowerChar(s[i]);
    }
  }

  /** Lower-casing never turns a character into whitespace. */
  lemma LowerKeepsNonSpace(c: char)
    requires !IsSpace(c)
    ensures !IsSpace(LowerChar(c))
  {
  }

  /** Normalising twice is normalising once. */
  lemma NormaliseIdempotent(q: string)
    ensures NormaliseQuery(NormaliseQuery(q)) == NormaliseQuery(q)
  {
    var n := NormaliseQuery(q);
    NormalisedShape(q);
    calc {
      NormaliseQuery(n);
      Lower(Strip(n));
      { StripOfStripped(n); }
      Lower(n);
      { LowerOfLower(n); }
      n;
    }
  }

  lemma LowerOfLower(s: string)
    requires forall i :: 0 <= i < |s| ==> !('A' <= s[i] <= 'Z')
    ensures Lower(s) == s
  {
    var l := Lower(s);
    assert forall i :: 0 <= i < |s| ==> l[i] == s[i];
  }

  /** The record keeps every field of the hit: the two conversions are inverse. */
  lemma ClipRoundTrip(h: SearchHit, c: Clip)
    ensures FromClip(ToClip(h)) == h
    ensures ToClip(FromClip(c)) == c
  {
  }

  lemma {:induction false} ClipsOfAppend(a: seq<SearchHit>, b: seq<SearchHit>)
    ensures ClipsOf(a + b) == ClipsOf(a) + ClipsOf(b)
    decreases |b|
  {
    if b == [] {
      assert a + b == a;
    } else {
      assert (a + b)[..|a + b| - 1] == a + b[..|b| - 1];
      ClipsOfAppend(a, b[..|b| - 1]);
    }
  }

  /** Flattening keeps the result order: the items of `a` contribute before those of `b`. */
  lemma {:induction false} FlattenAppend(a: seq<Item>, b: seq<Item>)
    ensures Flatten(a + b) == Flatten(a) + Flatten(b)
    decreases |a|
  {
    if a == [] {
      assert a + b == b;
    } else {
      assert (a + b)[0] == a[0] && (a + b)[1..] == a[1..] + b;
      FlattenAppend(a[1..], b);
    }
  }

  lemma {:induction false} AboveAppend(a: seq<Clip>, b: seq<Clip>, t: real)
    ensures Above(a + b, t) == Above(a, t) + Above(b, t)
    decreases |b|
  {
    if b == [] {
      assert a + b == a;
    } else {
      assert (a + b)[..|a + b| - 1] == a + b[..|b| - 1];
      AboveAppend(a, b[..|b| - 1], t);
    }
  }

  /** The filter keeps exactly the clips scoring at least `t`, and only those. */
  lemma {:induction false} AboveMembers(clips: seq<Clip>, t: real)
    ensures |Above(clips, t)| <= |clips|
    ensures forall c :: c in Above(clips, t) <==> c in clips && c.score >= t
    ensures (forall i :: 0 <= i < |clips| ==> clips[i].score >= t) ==> Above(clips, t) == clips
  {
    if clips != [] {
      var init := clips[..|clips| - 1];
      AboveMembers(init, t);
      assert clips == init + [clips[|clips| - 1]];
      assert forall c :: c in clips <==> c in init || c == clips[|clips| - 1];
    }
  }

  /** `highest_score` is the maximum of 0 and all scores. */
  lemma {:induction false} HighestIsMax(clips: seq<Clip>)
    ensures Highest(clips) >= 0.0
    ensures forall i :: 0 <= i < |clips| ==> clips[i].score <= Highest(clips)
    ensures Highest(clips) > 0.0 ==> exists i :: 0 <= i < |clips| && clips[i].score == Highest(clips)
  {
    if clips != [] {
      var init := clips[..|clips| - 1];
      HighestIsMax(init);
      assert forall i :: 0 <= i < |init| ==> clips[i] == init[i];
      if Highest(clips) > 0.0 && Highest(clips) == Highest(init) {
        var i :| 0 <= i < |init| && init[i].score == Highest(init);
        assert clips[i].score == Highest(clips);
      }
    }
  }

  /**
   * Above 0.7 the result is exactly the clips scoring at least 0.7 (never
   * empty then); at or below it every clip is returned.
   */
  lemma SelectedSpec(all: seq<Clip>)
    ensures Highest(all) > HighScore ==> Selected(all) == Above(all, HighScore) && Selected(all) != []
    ensures Highest(all) <= HighScore ==> Selected(all) == all
  {
    if Highest(all) > HighScore {
      HighestIsMax(all);
      AboveMembers(all, HighScore);
      var i :| 0 <= i < |all| && all[i].score == Highest(all);
      assert all[i] in Above(all, HighScore);
    }
  }
}

/**
 * Properties of the single-stream executor: array order, the intervals a
 * removing trim keeps, which actions leave the stream alone, and what the
 * effects build on top of the stream they are given.
 */
module LinearStreamFacts {
  import opened Wrappers
  import opened Timecode
  import opened Plan
  import opened LinearStream

  // ------------------------------------------------------------ array order

  /** Running `p + q` is running `p`, then running `q` from where `p` stopped, unless `p` raised. */
  lemma {:induction false} FoldAppend(p: seq<Action>, q: seq<Action>, input: string, info: StreamInfo,
                                      s: Stream, w: seq<string>)
    ensures Fold(p + q, input, info, s, w)
      == var r := Fold(p, input, info, s, w);
         if r.failure.Some? then r else Fold(q, input, info, r.stream, r.warnings)
    decreases |p|
  {
    if p == [] {
      assert p + q == q;
    } else {
      assert (p + q)[0] == p[0] && (p + q)[1..] == p[1..] + q;
      match Step(p[0], input, info, s)
      case Err(_) =>
      case Ok(s') => FoldAppend(p[1..], q, input, info, s', w + Warning(p[0]));
    }
  }

  /** An action without a "type" stops the loop with KeyError, whatever follows it. */
  lemma MissingTypeStops(p: seq<Action>, a: Action, q: seq<Action>, input: string, info: StreamInfo,
                         s: Stream, w: seq<string>)
    requires Fold(p, input, info, s, w).failure.None? && a.kind.None?
    ensures Fold(p + [a] + q, input, info, s, w).failure == Some(MissingType)
  {
    FoldAppend(p, [a] + q, input, info, s, w);
    AppendAssoc(p, [a], q);
  }


  // ------------------------------------------------------------------- trim

  /** A trim in removing mode: both texts present and convertible, and `start_sec > 0` or `end_sec < duration`. */
  predicate Removing(a: Action, duration: real)
  {
    Present(a.start) && Present(a.end)
    && ToSeconds(a.start.value).Ok? && ToSeconds(a.end.value).Ok?
    && (ToSeconds(a.start.value).value > 0.0 || ToSeconds(a.end.value).value < duration)
  }

  /** A trim with both texts present and convertible makes the cut for the converted values. */
  lemma TrimCuts(a: Action, input: string, duration: real, s: Stream)
    requires Present(a.start) && Present(a.end)
    requires ToSeconds(a.start.value).Ok? && ToSeconds(a.end.value).Ok?
    ensures TrimStep(a, input, duration, s)
      == Ok(Cut(ToSeconds(a.start.value).value, ToSeconds(a.end.value).value, a.start.value, a.end.value,
                input, duration, s))
  {
  }

  /** A removing cut yields one piece per kept interval, concatenated when there are two. */
  lemma RemovingKeeps(start: real, end: real, startText: string, endText: string, input: string,
                      duration: real, s: Stream)
    requires start > 0.0 || end < duration
    ensures 1 <= |Kept(start, end, duration)| <= 2
    ensures Cut(start, end, startText, endText, input, duration, s) == Pieces(input, Kept(start, end, duration))
  {
  }

  /** A removing cut does not depend on the stream it is given. */
  lemma CutForgets(start: real, end: real, startText: string, endText: string, input: string,
                   duration: real, s1: Stream, s2: Stream)
    requires start > 0.0 || end < duration
    ensures Cut(start, end, startText, endText, input, duration, s1)
      == Cut(start, end, startText, endText, input, duration, s2)
  {
  }

  /**
   * When neither piece exists, the cut keeps the current stream between
   * the plan's two texts and rebases the timestamps.
   */
  lemma KeepingTrims(start: real, end: real, startText: string, endText: string, input: string,
                     duration: real, s: Stream)
    requires !(start > 0.0 || end < duration)
    ensures Kept(start, end, duration) == []
    ensures Cut(start, end, startText, endText, input, duration, s)
      == Audio(SetPts(TrimText(s, startText, endText), "PTS-STARTPTS"))
  {
  }

  /** Strictly inside the video, a time is kept exactly when it is not strictly inside `(start, end)`. */
  lemma KeptComplement(start: real, end: real, duration: real, t: real)
    requires 0.0 < t < duration
    ensures Covered(Kept(start, end, duration), t) <==> (t <= start || t >= end)
  {
    var kept := Kept(start, end, duration);
    if t <= start {
      assert kept[0] == (0.0, start);
    } else if t >= end {
      assert kept[|kept| - 1] == (end, duration);
    }
  }

  /** With both bounds inside the video, every kept interval lies inside `[0, duration]`. */
  lemma KeptWithin(start: real, end: real, duration: real)
    requires 0.0 <= start <= duration && 0.0 <= end <= duration
    ensures forall k :: 0 <= k < |Kept(start, end, duration)| ==>
      0.0 <= Kept(start, end, duration)[k].0 <= Kept(start, end, duration)[k].1 <= duration
  {
  }

  /** A removing trim cuts from fresh inputs, so the stream built so far does not matter. */
  lemma RemovingForgets(a: Action, input: string, info: StreamInfo, s1: Stream, s2: Stream)
    requires a.kind == Some("trim") && Removing(a, info.duration)
    ensures Step(a, input, info, s1).Ok?
    ensures Step(a, input, info, s1) == Step(a, input, info, s2)
  {
    TrimCuts(a, input, info.duration, s1);
    TrimCuts(a, input, info.duration, s2);
    CutForgets(ToSeconds(a.start.value).value, ToSeconds(a.end.value).value, a.start.value, a.end.value,
               input, info.duration, s1, s2);
  }

  /** Everything applied before a removing trim is discarded from the final stream. */
  lemma EarlierEffectsDiscarded(p: seq<Action>, a: Action, q: seq<Action>, input: string, info: StreamInfo,
                                s: Stream, w: seq<string>, s0: Stream)
    requires a.kind == Some("trim") && Removing(a, info.duration)
    requires Fold(p, input, info, s, w).failure.None?
    ensures Fold(p + [a] + q, input, info, s, w).stream == Fold([a] + q, input, info, s0, []).stream
    ensures Fold(p + [a] + q, input, info, s, w).failure == Fold([a] + q, input, info, s0, []).failure
  {
    var r := Fold(p, input, info, s, w);
    FoldAppend(p, [a] + q, input, info, s, w);
    AppendAssoc(p, [a], q);
    RemovingForgets(a, input, info, r.stream, s0);
    var t := Step(a, input, info, s0).value;
    assert ([a] + q)[0] == a && ([a] + q)[1..] == q;
    FoldOk([a] + q, input, info, r.stream, r.warnings, t);
    FoldOk([a] + q, input, info, s0, [], t);
    FoldWarningsIrrelevant(q, input, info, t, r.warnings + Warning(a), [] + Warning(a));
  }

  /** The warnings carried in do not influence the stream or the failure. */
  lemma {:induction false} FoldWarningsIrrelevant(acts: seq<Action>, input: string, info: StreamInfo, s: Stream,
                                                  w1: seq<string>, w2: seq<string>)
    ensures Fold(acts, input, info, s, w1).stream == Fold(acts, input, info, s, w2).stream
    ensures Fold(acts, input, info, s, w1).failure == Fold(acts, input, info, s, w2).failure
    decreases |acts|
  {
    if acts != [] {
      match Step(acts[0], input, info, s)
      case Err(_) =>
      case Ok(s') => FoldWarningsIrrelevant(acts[1..], input, info, s', w1 + Warning(acts[0]), w2 + Warning(acts[0]));
    }
  }

  // ---------------------------------------------------------------- effects

  /** The actions that leave the stream unchanged because their parameters are missing or their type is unknown. */
  predicate SoftNoOp(a: Action)
  {
    a.kind.Some? &&
    var k, p := a.kind.value, a.params;
    || !Known(k)
    || (k == "trim" && !(Present(a.start) && Present(a.end)))
    || (k == "crop" && !(NonZero(p.width) && NonZero(p.height)))
    || (k == "overlay" && !Present(p.path))
    || (k == "zoom" && (p.scale.None? || p.scale.value == 1.0))
    || (k == "caption" && !Present(p.text))
  }

  lemma SoftNoOpKeepsStream(a: Action, input: string, info: StreamInfo, s: Stream)
    requires SoftNoOp(a)
    ensures Step(a, input, info, s) == Ok(s)
  {
  }

  /** `s` occurs in `t` along its chain of inputs. */
  predicate Builds(t: Stream, s: Stream)
    decreases t
  {
    if t == s then true
    else if t.Input? then false
    else if t.Concat? then Builds(t.first, s) || Builds(t.second, s)
    else Builds(t.source, s) || (t.Overlay? && Builds(t.over, s))
  }

  /** The longest chain of sources below a stream. */
  function Depth(t: Stream): nat
    decreases t
  {
    if t.Input? then 0
    else if t.Concat? then 1 + Greater(Depth(t.first), Depth(t.second))
    else if t.Overlay? then 1 + Greater(Depth(t.source), Depth(t.over))
    else 1 + Depth(t.source)
  }

  function Greater(x: nat, y: nat): (m: nat)
    ensures m >= x && m >= y
  {
    if x >= y then x else y
  }

  /** A node whose source builds on `s` builds on `s` and is deeper than it. */
  lemma OnTop(t: Stream, s: Stream)
    requires !t.Input? && !t.Concat? && Builds(t.source, s) && Depth(t.source) >= Depth(s)
    ensures Depth(t) > Depth(s) && t != s && Builds(t, s)
  {
  }

  /** A stream builds on itself. */
  lemma BuildsSelf(s: Stream)
    ensures Builds(s, s)
  {
  }

  /**
   * Every other recognised effect builds a new node on top of the current
   * stream; all but mute end by taking `.audio`.
   */
  lemma EffectWraps(a: Action, input: string, info: StreamInfo, s: Stream)
    requires a.kind.Some? && Known(a.kind.value) && a.kind.value != "trim" && !SoftNoOp(a)
    ensures Step(a, input, info, s).Ok?
    ensures var t := Step(a, input, info, s).value; t != s && Builds(t, s)
    ensures a.kind.value != "mute" <==> Step(a, input, info, s).value.Audio?
  {
    var k, p := a.kind.value, a.params;
    var t := Effect(k, p, info, s);
    assert Step(a, input, info, s) == Ok(t);
    BuildsSelf(s);
    if k == "mute" {
      assert t == Volume(s, 0);
      OnTop(t, s);
    } else if k == "zoom" {
      assert RealOr(p.scale, 1.0) != 1.0;
      assert t == Zoom(s, info.width, info.height, RealOr(p.scale, 1.0));
      OnTop(t.source.source, s);
      OnTop(t.source, s);
      OnTop(t, s);
    } else {
      if k == "crop" {
        assert t == Audio(Crop(s, IntOr(p.x, 0), IntOr(p.y, 0), p.width.value, p.height.value));
      } else if k == "overlay" {
        assert t == Audio(Overlay(s, Input(p.path.value), IntOr(p.x, 0), IntOr(p.y, 0)));
      } else if k == "caption" {
        assert t == Audio(DrawText(s, p.text.value, CaptionY(StringOr(p.position, "bottom"))));
      } else {
        assert k == "blur";
        assert t == Audio(BoxBlur(s, IntOr(p.amount, 5)));
      }
      OnTop(t.source, s);
      OnTop(t, s);
    }
  }

  /** A keeping trim also builds on the current stream, and takes `.audio`. */
  lemma KeepingTrimWraps(a: Action, input: string, info: StreamInfo, s: Stream)
    requires a.kind == Some("trim") && Present(a.start) && Present(a.end)
    requires ToSeconds(a.start.value).Ok? && ToSeconds(a.end.value).Ok? && !Removing(a, info.duration)
    ensures Step(a, input, info, s).Ok?
    ensures var t := Step(a, input, info, s).value; t != s && Builds(t, s) && t.Audio?
  {
    var start, end := ToSeconds(a.start.value).value, ToSeconds(a.end.value).value;
    TrimCuts(a, input, info.duration, s);
    KeepingTrims(start, end, a.start.value, a.end.value, input, info.duration, s);
    var t := Step(a, input, info, s).value;
    assert t.source.source.source == s;
    assert Builds(t.source.source, s);
  }

  /** A zoom factor above one never makes the scaled frame narrower than the crop taken from it. */
  lemma ZoomInCropFits(w: int, scale: real)
    requires w >= 0 && scale > 1.0
    ensures Trunc(w as real * scale) >= w
  {
    assert w as real * scale >= w as real;
  }

  /** A zoom factor in (0, 1) scales the frame below its original width, which the crop then asks for. */
  lemma ZoomOutCropExceeds(w: int, scale: real)
    requires w > 0 && 0.0 <= scale < 1.0
    ensures Trunc(w as real * scale) < w
  {
    assert w as real * scale < w as real;
  }

  /** A caption sits at the bottom exactly when its position is absent or "bottom". */
  lemma CaptionPlacement(a: Action, input: string, info: StreamInfo, s: Stream)
    requires a.kind == Some("caption") && Present(a.params.text)
    ensures Step(a, input, info, s).Ok? && Step(a, input, info, s).value.source.DrawText?
    ensures Step(a, input, info, s).value.source.yExpr == "h-th-10"
      <==> (a.params.position.None? || a.params.position.value == "bottom")
    ensures Step(a, input, info, s).value.source.yExpr != "h-th-10" ==> Step(a, input, info, s).value.source.yExpr == "10"
  {
  }

  // ------------------------------------------------------------ the executor

  /** No action ever raises the probe's StopIteration. */
  lemma {:induction false} FoldNeverNoVideo(acts: seq<Action>, input: string, info: StreamInfo, s: Stream, w: seq<string>)
    ensures Fold(acts, input, info, s, w).failure != Some(NoVideoStream)
    decreases |acts|
  {
    if acts != [] {
      match Step(acts[0], input, info, s)
      case Err(f) => StepNeverNoVideo(acts[0], input, info, s);
      case Ok(s') => FoldNeverNoVideo(acts[1..], input, info, s', w + Warning(acts[0]));
    }
  }

  /** A single action fails only on a missing type or a bad timecode. */
  lemma StepNeverNoVideo(a: Action, input: string, info: StreamInfo, s: Stream)
    ensures Step(a, input, info, s).Err? ==> Step(a, input, info, s).error.MissingType? || Step(a, input, info, s).error.BadTimecode?
  {
    if a.kind.None? {
      assert Step(a, input, info, s) == Err(MissingType);
    } else if a.kind.value == "trim" {
      assert Step(a, input, info, s) == TrimStep(a, input, info.duration, s);
      TrimStepFailure(a, input, info.duration, s);
    } else {
      assert Step(a, input, info, s) == Ok(Effect(a.kind.value, a.params, info, s));
    }
  }

  /** A trim fails only on a timecode it cannot parse. */
  lemma TrimStepFailure(a: Action, input: string, duration: real, s: Stream)
    ensures TrimStep(a, input, duration, s).Err? ==> TrimStep(a, input, duration, s).error.BadTimecode?
  {
    var r := TrimStep(a, input, duration, s);
    if !(Present(a.start) && Present(a.end)) {
      assert r == Ok(s);
    } else {
      var start := ToSeconds(a.start.value);
      if start.Err? {
        assert r == Err(BadTimecode(a.start.value, start.error));
      } else {
        var end := ToSeconds(a.end.value);
        if end.Err? {
          assert r == Err(BadTimecode(a.end.value, end.error));
        } else {
          assert r == Ok(Cut(start.value, end.value, a.start.value, a.end.value, input, duration, s));
        }
      }
    }
  }

  /** The executor raises StopIteration exactly when the probe lists no video stream, and then runs nothing. */
  lemma GenerateNoVideo(plan: EditPlan, input: string, requested: Option<string>, hex8: string,
                        streams: seq<StreamInfo>, fails: Stream -> bool)
    ensures var o := Generate(plan, input, requested, hex8, streams, fails);
      (o.result == Err(NoVideoStream) <==> forall i :: 0 <= i < |streams| ==> streams[i].codecType != "video")
      && (o.result == Err(NoVideoStream) ==> o.ran.None?)
  {
    var info := FirstVideo(streams);
    if info.Some? {
      FoldNeverNoVideo(Actions(plan), input, info.value, Input(input), []);
    }
  }

  /** On success the executor returns the output path and has run the folded stream into it with aac and libx264. */
  lemma GenerateSuccess(plan: EditPlan, input: string, requested: Option<string>, hex8: string,
                        streams: seq<StreamInfo>, fails: Stream -> bool)
    requires Generate(plan, input, requested, hex8, streams, fails).result.Ok?
    ensures var o := Generate(plan, input, requested, hex8, streams, fails);
      var out := OutputPath(requested, hex8);
      o.result.value == out
      && (Present(requested) ==> out == requested.value)
      && FirstVideo(streams).Some?
      && o.ran == Some(Output(Fold(Actions(plan), input, FirstVideo(streams).value, Input(input), []).stream,
                              out, "aac", "libx264"))
      && !fails(o.ran.value)
  {
  }
}

/**
 * The single-stream executor of `src/edit_generator.py`.
 *
 * The ffmpeg filter graph is a term: every action replaces the current
 * stream by a new term built from it (or, for a removing trim, from fresh
 * inputs).  Probing the input is an oracle value (its list of streams),
 * and running the final graph is an oracle that may fail.
 */
module LinearStream {
  import opened Wrappers
  import opened Timecode
  import opened Plan

  /** A node of the ffmpeg-python graph the executor builds. */
  datatype Stream =
    | Input(path: string)                                          // ffmpeg.input(path)
    | TrimSec(source: Stream, lo: real, hi: real)                  // .trim(start=lo, end=hi) with seconds
    | TrimText(source: Stream, loText: string, hiText: string)     // ffmpeg.trim(stream, start=.., end=..) with the plan's texts
    | SetPts(source: Stream, expr: string)                         // .setpts(expr)
    | Audio(source: Stream)                                        // .audio
    | Concat(first: Stream, second: Stream)                        // ffmpeg.concat(a, b, v=1, a=1)
    | Volume(source: Stream, level: int)                           // filter 'volume'
    | Crop(source: Stream, x: int, y: int, w: int, h: int)         // ffmpeg.crop
    | Overlay(source: Stream, over: Stream, x: int, y: int)        // ffmpeg.overlay
    | Scale(source: Stream, w: int, h: int)                        // filter 'scale'
    | CropTo(source: Stream, w: int, h: int)                       // filter 'crop' with two arguments
    | DrawText(source: Stream, text: string, yExpr: string)        // filter 'drawtext', 24pt white on black@0.5, centred
    | BoxBlur(source: Stream, amount: int)                         // filter 'boxblur'
    | Output(source: Stream, path: string, acodec: string, vcodec: string)

  /** One entry of `ffprobe`'s "streams" list, with the fields the executor reads. */
  datatype StreamInfo = StreamInfo(codecType: string, duration: real, width: int, height: int)

  /** The exceptions that escape the executor. */
  datatype Failure =
    | NoVideoStream                                   // `next(...)` over the probe raised StopIteration
    | MissingType                                     // `action["type"]` raised KeyError
    | BadTimecode(text: string, error: TimecodeError) // `time_to_seconds` raised ValueError
    | ProcessorFailed(graph: Stream)                  // `ffmpeg.run` raised

  /** What the caller observes: the return value or exception, the warnings printed, and the graph that was run. */
  datatype Outcome = Outcome(result: Result<string, Failure>, warnings: seq<string>, ran: Option<Stream>)

  /** The first stream whose codec type is "video". */
  function FirstVideo(streams: seq<StreamInfo>): (r: Option<StreamInfo>)
    ensures r.None? <==> forall i :: 0 <= i < |streams| ==> streams[i].codecType != "video"
    ensures r.Some? ==> r.value.codecType == "video"
    ensures r.Some? ==>
      exists i :: 0 <= i < |streams| && streams[i] == r.value && forall j :: 0 <= j < i ==> streams[j].codecType != "video"
  {
    if streams == [] then None
    else if streams[0].codecType == "video" then Some(streams[0])
    else
      var r := FirstVideo(streams[1..]);
      assert forall j :: 1 <= j < |streams| ==> streams[j] == streams[1..][j - 1];
      r
  }

  /** Python's `int(x)` on a real: truncation toward zero. */
  function Trunc(x: real): (r: int)
    ensures x >= 0.0 ==> r as real <= x < r as real + 1.0
    ensures x < 0.0 ==> r as real - 1.0 < x <= r as real
  {
    if x >= 0.0 then x.Floor else -((-x).Floor)
  }

  // -------------------------------------------------------------------- trim

  /** The intervals of `[0, duration]` a removing trim keeps: the part before `start` and the part after `end`. */
  function Kept(start: real, end: real, duration: real): seq<(real, real)>
  {
    (if start > 0.0 then [(0.0, start)] else []) + (if end < duration then [(end, duration)] else [])
  }

  predicate Covered(kept: seq<(real, real)>, t: real)
  {
    exists k :: 0 <= k < |kept| && kept[k].0 <= t <= kept[k].1
  }

  /** One kept interval cut from a fresh input, audio taken. */
  function Piece(input: string, iv: (real, real)): Stream
  {
    Audio(TrimSec(Input(input), iv.0, iv.1))
  }

  /** The combination of one or two kept pieces. */
  function Pieces(input: string, kept: seq<(real, real)>): Stream
    requires 1 <= |kept| <= 2
  {
    if |kept| == 2 then Concat(Piece(input, kept[0]), Piece(input, kept[1])) else Piece(input, kept[0])
  }

  /**
   * The cut made once both texts are converted: when `start_sec > 0` or
   * `end_sec < duration` it removes `[start_sec, end_sec]` by cutting the
   * remaining parts from fresh inputs; otherwise it trims the current
   * stream to the plan's texts and rebases the timestamps.
   */
  function Cut(start: real, end: real, startText: string, endText: string, input: string, duration: real,
               s: Stream): Stream
  {
    if start > 0.0 || end < duration then
      var first := if start > 0.0 then Some(TrimSec(Input(input), 0.0, start)) else None;
      var second := if end < duration then Some(TrimSec(Input(input), end, duration)) else None;
      if first.Some? && second.Some? then Concat(Audio(first.value), Audio(second.value))
      else if first.Some? then Audio(first.value)
      else Audio(second.value)
    else
      Audio(SetPts(TrimText(s, startText, endText), "PTS-STARTPTS"))
  }

  /** A trim with truthy `start` and `end` converts both and cuts; any other trim does nothing. */
  function TrimStep(a: Action, input: string, duration: real, s: Stream): Result<Stream, Failure>
  {
    if !(Present(a.start) && Present(a.end)) then Ok(s)
    else
      var start := ToSeconds(a.start.value);
      if start.Err? then Err(BadTimecode(a.start.value, start.error))
      else
        var end := ToSeconds(a.end.value);
        if end.Err? then Err(BadTimecode(a.end.value, end.error))
        else Ok(Cut(start.value, end.value, a.start.value, a.end.value, input, duration, s))
  }

  // ----------------------------------------------------------------- effects

  /** The caption's y expression: at the bottom for position "bottom", else at the top. */
  function CaptionY(position: string): string
  {
    if position == "bottom" then "h-th-10" else "10"
  }

  /** The action types the executor knows. */
  predicate Known(kind: string)
  {
    kind in {"trim", "mute", "crop", "overlay", "zoom", "caption", "blur"}
  }

  /** One iteration of the loop: the new `stream`, or the exception the action raises. */
  function Step(a: Action, input: string, info: StreamInfo, s: Stream): Result<Stream, Failure>
  {
    if a.kind.None? then Err(MissingType)
    else if a.kind.value == "trim" then TrimStep(a, input, info.duration, s)
    else Ok(Effect(a.kind.value, a.params, info, s))
  }

  /** Scales a `w`×`h` frame by `scale`, truncating the new size, then crops it back to `w`×`h`. */
  function Zoom(s: Stream, w: int, h: int, scale: real): Stream
  {
    Audio(CropTo(Scale(s, Trunc(w as real * scale), Trunc(h as real * scale)), w, h))
  }

  /** The branches for the other action types; an unknown type leaves the stream as it is. */
  function Effect(k: string, p: Params, info: StreamInfo, s: Stream): Stream
  {
    if k == "mute" then Volume(s, 0)
    else if k == "crop" then
      if NonZero(p.width) && NonZero(p.height) then
        Audio(Crop(s, IntOr(p.x, 0), IntOr(p.y, 0), p.width.value, p.height.value))
      else s
    else if k == "overlay" then
      if Present(p.path) then Audio(Overlay(s, Input(p.path.value), IntOr(p.x, 0), IntOr(p.y, 0))) else s
    else if k == "zoom" then
      var scale := RealOr(p.scale, 1.0);
      if scale != 1.0 then Zoom(s, info.width, info.height, scale) else s
    else if k == "caption" then
      if Present(p.text) then Audio(DrawText(s, p.text.value, CaptionY(StringOr(p.position, "bottom")))) else s
    else if k == "blur" then Audio(BoxBlur(s, IntOr(p.amount, 5)))
    else s
  }

  /** The warning printed for an action of an unknown type. */
  function Warning(a: Action): seq<string>
  {
    if a.kind.Some? && !Known(a.kind.value) then ["[Warning] Unknown action type: " + a.kind.value] else []
  }

  /** The loop's state at its end: the stream, the warnings, and the exception that stopped it, if any. */
  datatype Pass = Pass(stream: Stream, warnings: seq<string>, failure: Option<Failure>)

  /** The actions applied in array order, each to the stream the previous one left. */
  function Fold(acts: seq<Action>, input: string, info: StreamInfo, s: Stream, w: seq<string>): Pass
    decreases |acts|
  {
    if acts == [] then Pass(s, w, None)
    else
      match Step(acts[0], input, info, s)
      case Err(f) => Pass(s, w, Some(f))
      case Ok(s') => Fold(acts[1..], input, info, s', w + Warning(acts[0]))
  }

  /** The whole executor as a function of the plan, the probe's streams and the run oracle. */
  function Generate(plan: EditPlan, input: string, requested: Option<string>, hex8: string,
                    streams: seq<StreamInfo>, fails: Stream -> bool): Outcome
  {
    var out := OutputPath(requested, hex8);
    var info := FirstVideo(streams);
    if info.None? then Outcome(Err(NoVideoStream), [], None)
    else
      var r := Fold(Actions(plan), input, info.value, Input(input), []);
      if r.failure.Some? then Outcome(Err(r.failure.value), r.warnings, None)
      else
        var graph := Output(r.stream, out, "aac", "libx264");
        Outcome(if fails(graph) then Err(ProcessorFailed(graph)) else Ok(out), r.warnings, Some(graph))
  }

  /** An action that does not raise hands its stream and warning on to the rest of the loop. */
  lemma FoldOk(acts: seq<Action>, input: string, info: StreamInfo, s: Stream, w: seq<string>, s': Stream)
    requires acts != [] && Step(acts[0], input, info, s) == Ok(s')
    ensures Fold(acts, input, info, s, w) == Fold(acts[1..], input, info, s', w + Warning(acts[0]))
  {
  }

  // ----------------------------------------------------------------- methods

  /** The trim branch of the loop body. */
  method ApplyTrim(a: Action, input: string, duration: real, stream: Stream) returns (r: Result<Stream, Failure>)
    ensures r == TrimStep(a, input, duration, stream)
  {
    r := Ok(stream);
    if Present(a.start) && Present(a.end) {
      var startSec := ToSeconds(a.start.value);
      if startSec.Err? {
        return Err(BadTimecode(a.start.value, startSec.error));
      }
      var endSec := ToSeconds(a.end.value);
      if endSec.Err? {
        return Err(BadTimecode(a.end.value, endSec.error));
      }
      if startSec.value > 0.0 || endSec.value < duration {
        var first: Option<Stream> := None;
        var second: Option<Stream> := None;
        if startSec.value > 0.0 {
          first := Some(TrimSec(Input(input), 0.0, startSec.value));
        }
        if endSec.value < duration {
          second := Some(TrimSec(Input(input), endSec.value, duration));
        }
        if first.Some? && second.Some? {
          r := Ok(Concat(Audio(first.value), Audio(second.value)));
        } else if first.Some? {
          r := Ok(Audio(first.value));
        } else if second.Some? {
          r := Ok(Audio(second.value));
        }
      } else {
        r := Ok(Audio(SetPts(TrimText(stream, a.start.value, a.end.value), "PTS-STARTPTS")));
      }
    }
  }

  /** The body of the loop, branch by branch. */
  method ApplyAction(a: Action, input: string, info: StreamInfo, stream: Stream) returns (r: Result<Stream, Failure>)
    ensures r == Step(a, input, info, stream)
  {
    if a.kind.None? {
      return Err(MissingType);
    }
    if a.kind.value == "trim" {
      r := ApplyTrim(a, input, info.duration, stream);
    } else {
      var next := ApplyEffect(a.kind.value, a.params, info, stream);
      r := Ok(next);
    }
  }

  /** The branches for the other action types. */
  method ApplyEffect(kind: string, params: Params, info: StreamInfo, stream: Stream) returns (r: Stream)
    ensures r == Effect(kind, params, info, stream)
  {
    r := stream;
    if kind == "mute" {
      r := Volume(stream, 0);
    } else if kind == "crop" {
      if NonZero(params.width) && NonZero(params.height) {
        r := Audio(Crop(stream, IntOr(params.x, 0), IntOr(params.y, 0), params.width.value, params.height.value));
      }
    } else if kind == "overlay" {
      if Present(params.path) {
        r := Audio(Overlay(stream, Input(params.path.value), IntOr(params.x, 0), IntOr(params.y, 0)));
      }
    } else if kind == "zoom" {
      var scale := RealOr(params.scale, 1.0);
      if scale != 1.0 {
        r := Zoom(stream, info.width, info.height, scale);
      }
    } else if kind == "caption" {
      var position := StringOr(params.position, "bottom");
      if Present(params.text) {
        r := Audio(DrawText(stream, params.text.value, CaptionY(position)));
      }
    } else if kind == "blur" {
      r := Audio(BoxBlur(stream, IntOr(params.amount, 5)));
    }
  }

  /** `generate_ffmpeg_from_plan`: probe, fold the actions into one stream, then run the output graph. */
  method GenerateFromPlan(plan: EditPlan, input: string, requested: Option<string>, hex8: string,
                          streams: seq<StreamInfo>, fails: Stream -> bool) returns (o: Outcome)
    ensures o == Generate(plan, input, requested, hex8, streams, fails)
  {
    var out := OutputPath(requested, hex8);
    var stream := Input(input);
    var info := FirstVideo(streams);
    if info.None? {
      return Outcome(Err(NoVideoStream), [], None);
    }
    var acts := Actions(plan);
    var warnings: seq<string> := [];
    var i := 0;
    while i < |acts|
      invariant 0 <= i <= |acts|
      invariant Fold(acts[i..], input, info.value, stream, warnings) == Fold(acts, input, info.value, Input(input), [])
    {
      var a := acts[i];
      assert acts[i..][0] == a && acts[i..][1..] == acts[i + 1..];
      var next := ApplyAction(a, input, info.value, stream);
      if next.Err? {
        return Outcome(Err(next.error), warnings, None);
      }
      FoldOk(acts[i..], input, info.value, stream, warnings, next.value);
      stream := next.value;
      if a.kind.Some? && !Known(a.kind.value) {
        warnings := warnings + ["[Warning] Unknown action type: " + a.kind.value];
      } else {
        assert Warning(a) == [] && warnings + Warning(a) == warnings;
      }
      i := i + 1;
    }
    assert acts[|acts|..] == [];
    var graph := Output(stream, out, "aac", "libx264");
    if fails(graph) {
      return Outcome(Err(ProcessorFailed(graph)), warnings, Some(graph));
    }
    o := Outcome(Ok(out), warnings, Some(graph));
  }
}

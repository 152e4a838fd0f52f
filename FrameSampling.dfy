/**
 * Frame sampling in `src/utils/analyze_video_frames.py`: one frame every
 * five seconds is extracted into `src/outputs/frames/<stem>`, the frame
 * files found there are picked by name and sorted, and the whole sequence
 * goes to the vision model in one request, the first frame uploaded and
 * the others inline.  The probe, the frame extractor, the directory listing,
 * the upload and reading of each frame, and the model's reply are oracle
 * values.
 */
module FrameSampling {
  import opened Wrappers
  import opened Strings
  import opened Paths
  import opened StringOrder

  /** Seconds between two sampled frames. */
  const Interval: nat := 5
  const FramesRoot: string := "src/outputs/frames"
  const Prefix: string := "frame_"
  const Suffix: string := ".jpg"
  /** The digits the source pads frame numbers to. */
  const PaddedWidth: nat := 4
  const Separator: string := " -> "
  const TooFew: string := "Need at least 2 frames to analyze changes"
  const TimedOut: string := "Gemini API request timed out after 5 minutes"
  /** What `f.write(None)` raises when the reply has no text. */
  const WriteNone: string := "write() argument must be str, not None"
  const GenerateFailed: string := "Failed to generate video frames: "
  const AnalyzeFailed: string := "Failed to analyze video frames: "
  const NotFound: string := "Input video not found at: "

  /** `os.path.join("src", "outputs", "frames", base_name)`. */
  function FramesDir(videoPath: string): string
  {
    Join(Join(Join("src", "outputs"), "frames"), Stem(videoPath))
  }

  /** The timestamp of frame `i`, in seconds. */
  function Timestamp(i: nat): nat
  {
    Interval * i
  }

  /** `int(duration / 5)`, which truncates toward zero, so a duration under 5 seconds gives no frame. */
  function FrameCount(duration: real): (n: nat)
    ensures forall i: nat :: i < n ==> Timestamp(i) as real + 5.0 <= duration
    ensures duration < (n + 1) as real * 5.0
  {
    if duration < 5.0 then 0 else (duration / 5.0).Floor
  }

  /** `frame_` + the number zero-padded to `width` digits + `.jpg`. */
  function NameWith(i: nat, width: nat): string
  {
    Prefix + PadLeft(NatStr(i), width, '0') + Suffix
  }

  /** `f"frame_{i:04d}.jpg"`, the names as the source writes them. */
  function FrameNameAsWritten(i: nat): string
  {
    NameWith(i, PaddedWidth)
  }

  /** The padding width that fits every frame number below `n`: four digits, or more for a longer video. */
  function Width(n: nat): nat
  {
    if n == 0 || |NatStr(n - 1)| <= PaddedWidth then PaddedWidth else |NatStr(n - 1)|
  }

  /** The name of frame `i` of `n`, padded so that every name of the video has the same length. */
  function FrameName(i: nat, n: nat): string
  {
    NameWith(i, Width(n))
  }

  /** The names, padded to `width` digits, of the frames below `k` that were extracted, in extraction order. */
  function Written(k: nat, width: nat, extract: nat -> bool): seq<string>
  {
    if k == 0 then []
    else Written(k - 1, width, extract) + (if extract(k - 1) then [NameWith(k - 1, width)] else [])
  }

  /** The timestamps of the frames below `k` whose extraction failed, warned about in order. */
  function FailedAt(k: nat, extract: nat -> bool): seq<nat>
  {
    if k == 0 then []
    else FailedAt(k - 1, extract) + (if extract(k - 1) then [] else [Timestamp(k - 1)])
  }

  /** The result of the frame generation: the directory and the files written there. */
  datatype Frames = Frames(dir: string, written: seq<string>)

  /**
   * The extraction loop; `extract(i)` says whether the extractor succeeded
   * for frame `i`, which is written under its four-digit name.
   */
  method ExtractFrames(n: nat, extract: nat -> bool) returns (written: seq<string>, failedAt: seq<nat>)
    ensures written == Written(n, PaddedWidth, extract)
    ensures failedAt == FailedAt(n, extract)
  {
    written, failedAt := [], [];
    var i := 0;
    while i < n
      invariant 0 <= i <= n
      invariant written == Written(i, PaddedWidth, extract) && failedAt == FailedAt(i, extract)
    {
      var timestamp := Timestamp(i);
      ExtractStep(i, PaddedWidth, extract);
      if extract(i) {
        written := written + [FrameNameAsWritten(i)];
      } else {
        failedAt := failedAt + [timestamp];
      }
      i := i + 1;
    }
  }

  /** One more attempt either writes frame `i` or warns about its timestamp. */
  lemma ExtractStep(i: nat, width: nat, extract: nat -> bool)
    ensures extract(i) ==>
      Written(i + 1, width, extract) == Written(i, width, extract) + [NameWith(i, width)]
      && FailedAt(i + 1, extract) == FailedAt(i, extract)
    ensures !extract(i) ==>
      Written(i + 1, width, extract) == Written(i, width, extract)
      && FailedAt(i + 1, extract) == FailedAt(i, extract) + [Timestamp(i)]
  {
    var w, f := Written(i, width, extract), FailedAt(i, extract);
    if extract(i) {
      assert FailedAt(i + 1, extract) == f + [];
      assert f + [] == f;
    } else {
      assert Written(i + 1, width, extract) == w + [];
      assert w + [] == w;
    }
  }

  /**
   * `generate_video_frames_and_analyze`: a missing input or a failed probe
   * raises, wrapped in one message; otherwise every sampled frame is
   * attempted.
   */
  method GenerateVideoFrames(videoPath: string, inputExists: bool, probe: Result<real, string>, extract: nat -> bool)
    returns (r: Result<Frames, string>, failedAt: seq<nat>)
    ensures !inputExists ==> r == Err(GenerateFailed + NotFound + videoPath) && failedAt == []
    ensures inputExists && probe.Err? ==> r == Err(GenerateFailed + probe.error) && failedAt == []
    ensures inputExists && probe.Ok? ==>
      r == Ok(Frames(FramesDir(videoPath), Written(FrameCount(probe.value), PaddedWidth, extract)))
      && failedAt == FailedAt(FrameCount(probe.value), extract)
  {
    var outputDir := FramesDir(videoPath);
    failedAt := [];
    if !inputExists {
      return Err(GenerateFailed + NotFound + videoPath), [];
    }
    if probe.Err? {
      return Err(GenerateFailed + probe.error), [];
    }
    var n := FrameCount(probe.value);
    var written;
    written, failedAt := ExtractFrames(n, extract);
    r := Ok(Frames(outputDir, written));
  }

  /** `[f for f in names if f.startswith("frame_") and f.endswith(".jpg")]`. */
  function FrameFiles(names: seq<string>): seq<string>
  {
    if names == [] then []
    else
      var last := names[|names| - 1];
      FrameFiles(names[..|names| - 1]) + (if StartsWith(last, Prefix) && EndsWith(last, Suffix) then [last] else [])
  }

  /** The frame files of a directory listing, sorted by name. */
  function SelectFrames(listing: seq<string>): seq<string>
  {
    SortStrings(FrameFiles(listing))
  }

  /** A frame of the request: uploaded as a file, or read and sent inline. */
  datatype Part = Uploaded(path: string) | Inline(path: string)

  /** The part for frame `i`: the first is uploaded, every later one is read and sent inline. */
  function PartAt(dir: string, frames: seq<string>, i: nat): Part
    requires i < |frames|
  {
    if i == 0 then Uploaded(Join(dir, frames[i])) else Inline(Join(dir, frames[i]))
  }

  /** The exception of the first part, from frame `i` on, whose upload or read raises, if any. */
  function LoadError(dir: string, frames: seq<string>, loadFails: Part -> Option<string>, i: nat): Option<string>
    decreases |frames| - i
  {
    if i >= |frames| then None
    else if loadFails(PartAt(dir, frames, i)).Some? then loadFails(PartAt(dir, frames, i))
    else LoadError(dir, frames, loadFails, i + 1)
  }

  /** How the model call ends: the five-minute timeout, another exception, or a reply whose `text` may be None. */
  datatype Reply = Timeout | ReplyRaised(error: string) | Answer(text: Option<string>)

  /** The one entry of `all_analyses`. */
  datatype Summary = Summary(frames: string, analysis: string)

  /**
   * What a completed analysis leaves behind, not a return value of the
   * source: the request's frames, the summaries that `analyze_video_frames`
   * dumps to `gemini_analysis.json`, and the text of `gemini_analysis.txt`.
   */
  datatype Report = Report(parts: seq<Part>, results: seq<Summary>, fileText: string)

  /** One part per frame, in order: the first uploaded, every later one inline. */
  predicate PartsFor(parts: seq<Part>, dir: string, frames: seq<string>)
  {
    |parts| == |frames|
    && forall i :: 0 <= i < |parts| ==>
      parts[i] == if i == 0 then Uploaded(Join(dir, frames[i])) else Inline(Join(dir, frames[i]))
  }

  /** The first line of `gemini_analysis.txt`. */
  function Header(count: nat): string
  {
    "Analysis of complete sequence (" + NatStr(count) + " frames):\n"
  }

  /** The loop building the request's frames; an upload or a read that raises leaves the loop. */
  method BuildParts(dir: string, frames: seq<string>, loadFails: Part -> Option<string>) returns (r: Result<seq<Part>, string>)
    ensures r.Err? <==> LoadError(dir, frames, loadFails, 0).Some?
    ensures r.Err? ==> r.error == LoadError(dir, frames, loadFails, 0).value
    ensures r.Ok? ==> PartsFor(r.value, dir, frames)
  {
    var parts := [];
    var i := 0;
    while i < |frames|
      invariant 0 <= i <= |frames|
      invariant PartsFor(parts, dir, frames[..i])
      invariant LoadError(dir, frames, loadFails, 0) == LoadError(dir, frames, loadFails, i)
    {
      var framePath := Join(dir, frames[i]);
      PartsSnoc(parts, dir, frames, i);
      var part := if i == 0 then Uploaded(framePath) else Inline(framePath);
      var failure := loadFails(part);
      if failure.Some? {
        return Err(failure.value);
      }
      parts := parts + [part];
      i := i + 1;
    }
    assert frames[..|frames|] == frames;
    r := Ok(parts);
  }

  /**
   * Building the request raises exactly when some frame's upload or read
   * raises, and then with the exception of the first such frame.
   */
  lemma {:induction false} LoadErrorSpec(dir: string, frames: seq<string>, loadFails: Part -> Option<string>, i: nat)
    ensures LoadError(dir, frames, loadFails, i).None? <==>
      forall j :: i <= j < |frames| ==> loadFails(PartAt(dir, frames, j)).None?
    ensures LoadError(dir, frames, loadFails, i).Some? ==>
      exists k :: i <= k < |frames| && loadFails(PartAt(dir, frames, k)) == LoadError(dir, frames, loadFails, i)
        && forall j :: i <= j < k ==> loadFails(PartAt(dir, frames, j)).None?
    decreases |frames| - i
  {
    if i < |frames| {
      LoadErrorSpec(dir, frames, loadFails, i + 1);
    }
  }

  /** The part for frame `i` extends the parts for the frames before it. */
  lemma PartsSnoc(parts: seq<Part>, dir: string, frames: seq<string>, i: nat)
    requires i < |frames| && PartsFor(parts, dir, frames[..i])
    ensures var p := if i == 0 then Uploaded(Join(dir, frames[i])) else Inline(Join(dir, frames[i]));
      PartsFor(parts + [p], dir, frames[..i + 1])
  {
    var p := if i == 0 then Uploaded(Join(dir, frames[i])) else Inline(Join(dir, frames[i]));
    var ps, fs := parts + [p], frames[..i + 1];
    forall j | 0 <= j < |ps|
      ensures ps[j] == if j == 0 then Uploaded(Join(dir, fs[j])) else Inline(Join(dir, fs[j]))
    {
      if j < i {
        assert ps[j] == parts[j] && fs[j] == frames[..i][j];
      }
    }
  }

  /**
   * `analyze_with_gemini`: fewer than two frame files raise; otherwise the
   * frames are uploaded or read in sorted order, and the reply is
   * summarised and written.  A failing upload or read, the timeout, any
   * other exception of the call, and a reply without text (which makes the
   * write raise) end in an exception.
   */
  method AnalyzeWithGemini(dir: string, listing: seq<string>, loadFails: Part -> Option<string>, reply: Reply)
    returns (r: Result<Report, string>)
    ensures |SelectFrames(listing)| < 2 ==> r == Err(TooFew)
    ensures var load := LoadError(dir, SelectFrames(listing), loadFails, 0);
      |SelectFrames(listing)| >= 2 ==>
        (load.Some? ==> r == Err(load.value))
        && (load.None? && reply.Timeout? ==> r == Err(TimedOut))
        && (load.None? && reply.ReplyRaised? ==> r == Err(reply.error))
        && (load.None? && reply == Answer(None) ==> r == Err(WriteNone))
    ensures r.Ok? <==> |SelectFrames(listing)| >= 2 && LoadError(dir, SelectFrames(listing), loadFails, 0).None?
                       && reply.Answer? && reply.text.Some?
    ensures r.Ok? ==>
      PartsFor(r.value.parts, dir, SelectFrames(listing))
      && r.value.results == [Summary(JoinWith(SelectFrames(listing), Separator), reply.text.value)]
      && r.value.fileText == Header(|SelectFrames(listing)|) + reply.text.value
  {
    var frameFiles := SelectFrames(listing);
    if |frameFiles| < 2 {
      return Err(TooFew);
    }
    var parts := BuildParts(dir, frameFiles, loadFails);
    if parts.Err? {
      return Err(parts.error);
    }
    match reply
    case Timeout =>
      return Err(TimedOut);
    case ReplyRaised(e) =>
      return Err(e);
    case Answer(text) =>
      if text.None? {
        return Err(WriteNone);
      }
      var summary := Summary(JoinWith(frameFiles, Separator), text.value);
      r := Ok(Report(parts.value, [summary], Header(|frameFiles|) + summary.analysis));
  }

  /** `analyze_video_frames`: generation, then analysis of the listing of the frames directory; failures are wrapped once more. */
  method AnalyzeVideoFrames(videoPath: string, inputExists: bool, probe: Result<real, string>, extract: nat -> bool,
                            listing: seq<string>, loadFails: Part -> Option<string>, reply: Reply)
    returns (r: Result<Report, string>)
    ensures !inputExists ==> r == Err(AnalyzeFailed + (GenerateFailed + NotFound + videoPath))
    ensures inputExists && probe.Err? ==> r == Err(AnalyzeFailed + (GenerateFailed + probe.error))
    ensures inputExists && probe.Ok? && |SelectFrames(listing)| < 2 ==> r == Err(AnalyzeFailed + TooFew)
    ensures var load := LoadError(FramesDir(videoPath), SelectFrames(listing), loadFails, 0);
      inputExists && probe.Ok? && |SelectFrames(listing)| >= 2 ==>
        (load.Some? ==> r == Err(AnalyzeFailed + load.value))
        && (load.None? && reply.Timeout? ==> r == Err(AnalyzeFailed + TimedOut))
        && (load.None? && reply.ReplyRaised? ==> r == Err(AnalyzeFailed + reply.error))
        && (load.None? && reply == Answer(None) ==> r == Err(AnalyzeFailed + WriteNone))
    ensures r.Ok? <==> inputExists && probe.Ok? && |SelectFrames(listing)| >= 2
                       && LoadError(FramesDir(videoPath), SelectFrames(listing), loadFails, 0).None?
                       && reply.Answer? && reply.text.Some?
    ensures r.Ok? ==>
      PartsFor(r.value.parts, FramesDir(videoPath), SelectFrames(listing))
      && r.value.results == [Summary(JoinWith(SelectFrames(listing), Separator), reply.text.value)]
      && r.value.fileText == Header(|SelectFrames(listing)|) + reply.text.value
  {
    var frames, _ := GenerateVideoFrames(videoPath, inputExists, probe, extract);
    if frames.Err? {
      return Err(AnalyzeFailed + frames.error);
    }
    var results := AnalyzeWithGemini(frames.value.dir, listing, loadFails, reply);
    if results.Err? {
      return Err(AnalyzeFailed + results.error);
    }
    r := results;
  }

  // ---------------------------------------------------------------- lemmas

  /** The frames of `dir/name.ext` go to `src/outputs/frames/name`. */
  lemma FramesDirShape(videoPath: string)
    ensures FramesDir(videoPath) == FramesRoot + "/" + Stem(videoPath)
  {
    FramesRootJoined();
    JoinName(FramesRoot, Stem(videoPath));
  }

  /** `os.path.join("src", "outputs", "frames")`. */
  lemma FramesRootJoined()
    ensures Join(Join("src", "outputs"), "frames") == FramesRoot
    ensures FramesRoot != [] && !EndsWith(FramesRoot, "/")
  {
    JoinRelative("src", "outputs");
    assert "src" + "/" + "outputs" == "src/outputs";
    JoinRelative("src/outputs", "frames");
    assert "src/outputs" + "/" + "frames" == FramesRoot;
    assert FramesRoot[|FramesRoot| - 1] == 's';
  }

  lemma {:induction false} NatStrMonotone(i: nat, j: nat)
    requires i <= j
    ensures |NatStr(i)| <= |NatStr(j)|
  {
    if i >= 10 {
      NatStrMonotone(i / 10, j / 10);
    }
  }

  /** Names padded to one width that holds both numbers compare as the frame numbers. */
  lemma NameOrder(i: nat, j: nat, width: nat)
    requires |NatStr(i)| <= width && |NatStr(j)| <= width
    ensures Less(NameWith(i, width), NameWith(j, width)) <==> i < j
  {
    var x, y := PadLeft(NatStr(i), width, '0'), PadLeft(NatStr(j), width, '0');
    PadLeftValue(i, width);
    PadLeftValue(j, width);
    if i == j {
      LessIrreflexive(NameWith(i, width));
    } else {
      assert x != y;
      AppendAssoc(Prefix, x, Suffix);
      AppendAssoc(Prefix, y, Suffix);
      LessPrefix(Prefix, x + Suffix, y + Suffix);
      LessSameLength(x, y, Suffix, Suffix);
      DigitsLess(x, y);
    }
  }

  /** With the width fitted to the video, later frames always have greater names. */
  lemma FrameNamesChronological(n: nat, i: nat, j: nat)
    requires i < j < n
    ensures Less(FrameName(i, n), FrameName(j, n))
  {
    NatStrMonotone(i, n - 1);
    NatStrMonotone(j, n - 1);
    NameOrder(i, j, Width(n));
  }

  lemma FourDigits(i: nat)
    requires i < 10000
    ensures |NatStr(i)| <= PaddedWidth
  {
    NatStrMonotone(i, 9999);
    assert NatStr(9) == "9";
    assert NatStr(99) == NatStr(9) + "9";
    assert NatStr(999) == NatStr(99) + "9";
    assert NatStr(9999) == NatStr(999) + "9";
  }

  /** Up to 10000 frames the fitted names are the ones the source writes, and they sort chronologically. */
  lemma AsWrittenAgrees(n: nat, i: nat, j: nat)
    requires n <= 10000 && i < j < n
    ensures FrameName(i, n) == FrameNameAsWritten(i) && FrameName(j, n) == FrameNameAsWritten(j)
    ensures Less(FrameNameAsWritten(i), FrameNameAsWritten(j))
  {
    FourDigits(n - 1);
    FrameNamesChronological(n, i, j);
  }

  lemma Renderings()
    ensures NatStr(10000) == "10000" && NatStr(9999) == "9999"
  {
    assert NatStr(1) == "1";
    assert NatStr(10) == NatStr(1) + "0";
    assert NatStr(100) == NatStr(10) + "0";
    assert NatStr(1000) == NatStr(100) + "0";
    assert NatStr(10000) == NatStr(1000) + "0";
    assert NatStr(9) == "9";
    assert NatStr(99) == NatStr(9) + "9";
    assert NatStr(999) == NatStr(99) + "9";
    assert NatStr(9999) == NatStr(999) + "9";
  }

  /** From 10001 frames on the source's names sort frame 10000 before frame 9999. */
  lemma AsWrittenMisorders()
    ensures Less(FrameNameAsWritten(10000), FrameNameAsWritten(9999))
    ensures SortStrings([FrameNameAsWritten(9999), FrameNameAsWritten(10000)])
      == [FrameNameAsWritten(10000), FrameNameAsWritten(9999)]
  {
    EarlierNameGreater();
    SortTwo(FrameNameAsWritten(9999), FrameNameAsWritten(10000));
  }

  lemma EarlierNameGreater()
    ensures Less(FrameNameAsWritten(10000), FrameNameAsWritten(9999))
  {
    Renderings();
    var a, b := "10000", "9999";
    assert PadLeft(a, PaddedWidth, '0') == a && PadLeft(b, PaddedWidth, '0') == b;
    AppendAssoc(Prefix, a, Suffix);
    AppendAssoc(Prefix, b, Suffix);
    LessPrefix(Prefix, a + Suffix, b + Suffix);
    assert (a + Suffix)[0] == '1' && (b + Suffix)[0] == '9';
  }

  /** The numbers of the frames below `k` that were extracted, in extraction order. */
  function Extracted(k: nat, extract: nat -> bool): seq<nat>
  {
    if k == 0 then []
    else Extracted(k - 1, extract) + (if extract(k - 1) then [k - 1] else [])
  }

  /** The extracted frame numbers are exactly those below `k` the extractor succeeded for, in increasing order. */
  lemma {:induction false} ExtractedSpec(k: nat, extract: nat -> bool)
    ensures forall m :: 0 <= m < |Extracted(k, extract)| ==>
      Extracted(k, extract)[m] < k && extract(Extracted(k, extract)[m])
    ensures forall a, b :: 0 <= a < b < |Extracted(k, extract)| ==> Extracted(k, extract)[a] < Extracted(k, extract)[b]
    ensures forall i: nat :: i < k ==> (extract(i) <==> i in Extracted(k, extract))
  {
    if k > 0 {
      ExtractedSpec(k - 1, extract);
      var e, e' := Extracted(k - 1, extract), Extracted(k, extract);
      if extract(k - 1) {
        assert e' == e + [k - 1];
        forall m | 0 <= m < |e'| ensures e'[m] < k && extract(e'[m]) {
          if m < |e| {
            assert e'[m] == e[m];
          }
        }
      } else {
        assert e' == e;
      }
    }
  }

  /** The written names are the names of the extracted frames, one for one. */
  lemma {:induction false} WrittenNames(k: nat, width: nat, extract: nat -> bool)
    ensures |Written(k, width, extract)| == |Extracted(k, extract)|
    ensures forall m :: 0 <= m < |Written(k, width, extract)| ==>
      Written(k, width, extract)[m] == NameWith(Extracted(k, extract)[m], width)
  {
    if k > 0 {
      WrittenNames(k - 1, width, extract);
      var w, w' := Written(k - 1, width, extract), Written(k, width, extract);
      var e, e' := Extracted(k - 1, extract), Extracted(k, extract);
      if extract(k - 1) {
        assert w' == w + [NameWith(k - 1, width)] && e' == e + [k - 1];
        forall m | 0 <= m < |w'| ensures w'[m] == NameWith(e'[m], width) {
          if m < |w| {
            assert w'[m] == w[m] && e'[m] == e[m];
          }
        }
      } else {
        assert w' == w && e' == e;
      }
    }
  }

  /** When the width holds every frame number below `k`, the written names increase strictly. */
  lemma WrittenSpec(k: nat, width: nat, extract: nat -> bool)
    requires k == 0 || |NatStr(k - 1)| <= width
    ensures StrictlyIncreasing(Written(k, width, extract))
  {
    var w, e := Written(k, width, extract), Extracted(k, extract);
    ExtractedSpec(k, extract);
    WrittenNames(k, width, extract);
    forall a, b | 0 <= a < b < |w| ensures Less(w[a], w[b]) {
      NatStrMonotone(e[a], k - 1);
      NatStrMonotone(e[b], k - 1);
      NameOrder(e[a], e[b], width);
    }
  }

  /** Exactly the names in the listing with the frame prefix and suffix are selected. */
  lemma {:induction false} FrameFilesSpec(names: seq<string>)
    ensures forall x :: x in FrameFiles(names) <==> x in names && StartsWith(x, Prefix) && EndsWith(x, Suffix)
  {
    if names != [] {
      var init := names[..|names| - 1];
      FrameFilesSpec(init);
      assert names == init + [names[|names| - 1]];
    }
  }

  /** Every written frame name is picked by the selection. */
  lemma {:induction false} WrittenAreFrameFiles(k: nat, width: nat, extract: nat -> bool)
    ensures FrameFiles(Written(k, width, extract)) == Written(k, width, extract)
  {
    if k > 0 {
      WrittenAreFrameFiles(k - 1, width, extract);
      var w := Written(k, width, extract);
      if extract(k - 1) {
        var name := NameWith(k - 1, width);
        var digits := PadLeft(NatStr(k - 1), width, '0');
        AppendAssoc(Prefix, digits, Suffix);
        assert name == Prefix + (digits + Suffix);
        assert name[..|Prefix|] == Prefix;
        assert name[|name| - |Suffix|..] == Suffix;
        assert w[..|w| - 1] == Written(k - 1, width, extract) && w[|w| - 1] == name;
      } else {
        assert w == Written(k - 1, width, extract);
      }
    }
  }

  /** A listing whose frame files are the written ones is sorted back into extraction order. */
  lemma SelectionInOrder(listing: seq<string>, n: nat, width: nat, extract: nat -> bool)
    requires n == 0 || |NatStr(n - 1)| <= width
    requires multiset(FrameFiles(listing)) == multiset(Written(n, width, extract))
    ensures SelectFrames(listing) == Written(n, width, extract)
  {
    var w := Written(n, width, extract);
    WrittenSpec(n, width, extract);
    SortSorted(FrameFiles(listing));
    SortPermutes(FrameFiles(listing));
    assert Sorted(w);
    SortedUnique(SelectFrames(listing), w);
  }

  /**
   * Up to 10000 frames, whatever order the directory lists its files in,
   * when its frame files are the ones the source writes, the analysis
   * receives them in extraction order (timestamp order).
   */
  lemma SelectionIsChronological(listing: seq<string>, n: nat, extract: nat -> bool)
    requires n <= 10000
    requires multiset(FrameFiles(listing)) == multiset(Written(n, PaddedWidth, extract))
    ensures SelectFrames(listing) == Written(n, PaddedWidth, extract)
  {
    if n > 0 {
      FourDigits(n - 1);
    }
    SelectionInOrder(listing, n, PaddedWidth, extract);
  }

  /** With names padded to the width fitted to the video, the selection is chronological for any length. */
  lemma SelectionIsChronologicalFitted(listing: seq<string>, n: nat, extract: nat -> bool)
    requires multiset(FrameFiles(listing)) == multiset(Written(n, Width(n), extract))
    ensures SelectFrames(listing) == Written(n, Width(n), extract)
  {
    SelectionInOrder(listing, n, Width(n), extract);
  }

  /** The frames below `k` whose extraction failed, in increasing order. */
  function Skipped(k: nat, extract: nat -> bool): seq<nat>
  {
    if k == 0 then [] else Skipped(k - 1, extract) + (if extract(k - 1) then [] else [k - 1])
  }

  /**
   * Each frame is either written or warned about, never both, so the
   * counts add up; the `m`-th warning names the timestamp of the `m`-th
   * frame that failed.
   */
  lemma {:induction false} ExtractionAccounts(k: nat, width: nat, extract: nat -> bool)
    ensures |Written(k, width, extract)| + |FailedAt(k, extract)| == k
    ensures |FailedAt(k, extract)| == |Skipped(k, extract)|
    ensures forall m :: 0 <= m < |Skipped(k, extract)| ==>
      Skipped(k, extract)[m] < k && !extract(Skipped(k, extract)[m])
      && FailedAt(k, extract)[m] == Timestamp(Skipped(k, extract)[m])
  {
    if k > 0 {
      ExtractionAccounts(k - 1, width, extract);
      var w, w' := Written(k - 1, width, extract), Written(k, width, extract);
      var f, f' := FailedAt(k - 1, extract), FailedAt(k, extract);
      var d, d' := Skipped(k - 1, extract), Skipped(k, extract);
      if extract(k - 1) {
        assert w' == w + [NameWith(k - 1, width)];
        assert f' == f + [];
        assert d' == d + [];
        assert f' == f && d' == d;
      } else {
        assert w' == w + [];
        assert f' == f + [Timestamp(k - 1)];
        assert d' == d + [k - 1];
        forall m | 0 <= m < |d'|
          ensures d'[m] < k && !extract(d'[m]) && f'[m] == Timestamp(d'[m])
        {
          if m < |d| {
            assert d'[m] == d[m] && f'[m] == f[m];
          }
        }
      }
    }
  }
}

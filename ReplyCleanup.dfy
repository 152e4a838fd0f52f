/**
 * What the pipeline does with a language model's reply before handing it
 * to the JSON parser, and where it writes the files derived from a video
 * or an audio track.  Three call sites strip markdown code fences, each
 * in its own way:
 *   - the edit-plan prompt removes every fence, wherever it occurs;
 *   - the video indexer strips the reply, then drops one leading
 *     "```json" and one trailing "```";
 *   - the audio indexer does the same without the first strip, so a fence
 *     after leading whitespace stays.
 * The JSON parser is a parameter: `parses(t)` says whether `json.loads(t)`
 * succeeds, and `decode(t)` gives the parsed value dumped again or the
 * parser's error message.
 */
module ReplyCleanup {
  import opened Wrappers
  import opened Strings
  import opened Paths

  const Fence: string := "```"
  const JsonFence: string := "```json"
  const GeminiSuffix: string := "_gemini.mp4"
  const CompressedSuffix: string := "_compressed.mp4"
  const AudioSuffix: string := "_audio_index.json"
  const AudioFailed: string := "Failed to index audio: "

  // ------------------------------------------------------ backticks

  /** No three backticks in a row. */
  predicate NoTripleTick(t: string)
  {
    forall i :: 0 <= i < |t| - 2 ==> !(t[i] == '`' && t[i + 1] == '`' && t[i + 2] == '`')
  }

  /** The number of backticks `t` starts with. */
  function Lead(t: string): (n: nat)
    ensures n <= |t|
    decreases |t|
  {
    if t != [] && t[0] == '`' then 1 + Lead(t[1..]) else 0
  }

  /** A text has no three backticks in a row exactly when "```" does not occur in it. */
  lemma {:induction false} NoTripleTickIsNoFence(t: string)
    ensures NoTripleTick(t) <==> !Occurs(t, Fence)
    decreases |t|
  {
    if |t| >= 3 {
      NoTripleTickIsNoFence(t[1..]);
      assert t[..3] == Fence <==> (t[0] == '`' && t[1] == '`' && t[2] == '`');
      if NoTripleTick(t[1..]) && t[..3] != Fence {
        forall i | 0 <= i < |t| - 2 ensures !(t[i] == '`' && t[i + 1] == '`' && t[i + 2] == '`') {
          if i > 0 {
            assert t[i] == t[1..][i - 1] && t[i + 1] == t[1..][i] && t[i + 2] == t[1..][i + 1];
          }
        }
      }
      if NoTripleTick(t) {
        forall i | 0 <= i < |t[1..]| - 2 ensures !(t[1..][i] == '`' && t[1..][i + 1] == '`' && t[1..][i + 2] == '`') {
          assert t[1..][i] == t[i + 1] && t[1..][i + 1] == t[i + 2] && t[1..][i + 2] == t[i + 3];
        }
      }
    }
  }

  /** A text in which "```" does not occur does not contain "```json" either. */
  lemma {:induction false} NoFenceNoJsonFence(t: string)
    requires !Occurs(t, Fence)
    ensures !Occurs(t, JsonFence)
    decreases |t|
  {
    if |t| >= |JsonFence| {
      assert t[..|Fence|] != Fence;
      assert JsonFence[..|Fence|] == Fence;
      assert t[..|JsonFence|][..|Fence|] == t[..|Fence|];
      NoFenceNoJsonFence(t[1..]);
    }
  }

  /** A piece of a text without three backticks in a row has none either. */
  lemma InfixNoTripleTick(t: string, u: string, i: nat)
    requires i + |u| <= |t| && t[i..i + |u|] == u && NoTripleTick(t)
    ensures NoTripleTick(u)
  {
    forall k | 0 <= k < |u| - 2 ensures !(u[k] == '`' && u[k + 1] == '`' && u[k + 2] == '`') {
      assert u[k] == t[i + k] && u[k + 1] == t[i + k + 1] && u[k + 2] == t[i + k + 2];
    }
  }

  /**
   * Deleting every "```" leaves no three backticks in a row: a run of
   * backticks shorter than three is kept, a longer one loses three at a
   * time, and the runs stay apart.
   */
  lemma {:induction false} DeleteFences(s: string)
    ensures NoTripleTick(Replace(s, Fence, ""))
    ensures Lead(Replace(s, Fence, "")) <= 2
    ensures Lead(s) < 3 ==> Lead(Replace(s, Fence, "")) == Lead(s)
    decreases |s|
  {
    if |s| < 3 {
      assert Replace(s, Fence, "") == s;
    } else if s[..3] == Fence {
      assert Replace(s, Fence, "") == Replace(s[3..], Fence, "");
      DeleteFences(s[3..]);
      LeadOfFence(s);
    } else {
      var x := Replace(s[1..], Fence, "");
      assert Replace(s, Fence, "") == [s[0]] + x;
      DeleteFences(s[1..]);
      if s[0] == '`' {
        LeadAfterShortRun(s);
      }
      ConsNoTripleTick(s[0], x);
    }
  }

  lemma LeadOfFence(s: string)
    requires |s| >= 3 && s[..3] == Fence
    ensures Lead(s) == 3 + Lead(s[3..])
  {
    var s1, s2 := s[1..], s[2..];
    assert s[0] == s[..3][0] == '`' && s[1] == s[..3][1] == '`' && s[2] == s[..3][2] == '`';
    assert s1[0] == '`' && s1[1..] == s2;
    assert s2[0] == '`' && s2[1..] == s[3..];
    assert Lead(s) == 1 + Lead(s1);
    assert Lead(s1) == 1 + Lead(s2);
    assert Lead(s2) == 1 + Lead(s[3..]);
  }

  /** A backtick not followed by two more starts a run of at most two. */
  lemma LeadAfterShortRun(s: string)
    requires |s| >= 3 && s[0] == '`' && s[..3] != Fence
    ensures Lead(s) == 1 + Lead(s[1..]) && Lead(s[1..]) <= 1
  {
    if s[1] == '`' {
      assert s[2] != '`';
      assert s[1..][1..][0] == s[2];
    }
  }

  /** One character in front of a text without three backticks in a row, when it does not complete a run of three. */
  lemma ConsNoTripleTick(c: char, x: string)
    requires NoTripleTick(x) && (c == '`' ==> Lead(x) <= 1)
    ensures NoTripleTick([c] + x)
    ensures Lead([c] + x) == if c == '`' then 1 + Lead(x) else 0
  {
    var r := [c] + x;
    assert r[1..] == x;
    forall i | 0 <= i < |r| - 2 ensures !(r[i] == '`' && r[i + 1] == '`' && r[i + 2] == '`') {
      if i > 0 {
        assert r[i] == x[i - 1] && r[i + 1] == x[i] && r[i + 2] == x[i + 1];
      }
    }
  }

  // ------------------------------------------------ the edit-plan reply

  /** `backend/prompt.py`: strip, remove every "```json", remove every "```", strip. */
  function CleanPlanReply(text: string): (r: string)
    ensures NoEdgeSpace(r)
  {
    Strip(Replace(Replace(Strip(text), JsonFence, ""), Fence, ""))
  }

  /** Stripping cannot create three backticks in a row. */
  lemma StripNoTripleTick(t: string)
    requires NoTripleTick(t)
    ensures NoTripleTick(Strip(t))
  {
    var i := StripIsInfix(t);
    InfixNoTripleTick(t, Strip(t), i);
  }

  /** No "```" is left in the cleaned plan reply. */
  lemma PlanReplyNoFence(text: string)
    ensures !Occurs(CleanPlanReply(text), Fence)
  {
    var u := Replace(Strip(text), JsonFence, "");
    DeleteFences(u);
    StripNoTripleTick(Replace(u, Fence, ""));
    NoTripleTickIsNoFence(CleanPlanReply(text));
  }

  /** Why no plan can be returned. */
  datatype PlanError =
    | InvalidJson(raw: string)       // json.loads rejects the cleaned text; JSONDecodeError is re-raised
    | GenerationFailed(message: string)  // the model call raised; the exception is re-raised

  /** The tail of `generate_prompt`: the cleaned reply, returned only when it parses as JSON. */
  function PlanReply(reply: Result<string, string>, parses: string -> bool): (r: Result<string, PlanError>)
    ensures reply.Err? ==> r == Err(GenerationFailed(reply.error))
    ensures reply.Ok? && parses(CleanPlanReply(reply.value)) ==> r == Ok(CleanPlanReply(reply.value))
    ensures reply.Ok? && !parses(CleanPlanReply(reply.value)) ==> r == Err(InvalidJson(CleanPlanReply(reply.value)))
    ensures r.Ok? ==> parses(r.value) && NoEdgeSpace(r.value)
  {
    match reply
    case Err(m) => Err(GenerationFailed(m))
    case Ok(text) =>
      var cleaned := CleanPlanReply(text);
      if parses(cleaned) then Ok(cleaned) else Err(InvalidJson(cleaned))
  }

  /** A reply without any fence is returned as its strip. */
  lemma PlanReplyWithoutFence(text: string)
    requires !Occurs(text, Fence)
    ensures CleanPlanReply(text) == Strip(text)
  {
    NoTripleTickIsNoFence(text);
    StripNoTripleTick(text);
    NoTripleTickIsNoFence(Strip(text));
    DeletionsKeepUnfenced(Strip(text));
    StripIdempotent(text);
  }

  lemma DeletionsKeepUnfenced(s: string)
    requires !Occurs(s, Fence)
    ensures Replace(Replace(s, JsonFence, ""), Fence, "") == s
  {
    NoFenceNoJsonFence(s);
    ReplaceAbsent(s, JsonFence, "");
    ReplaceAbsent(s, Fence, "");
  }

  /** Cleaning again changes nothing. */
  lemma PlanCleanIdempotent(text: string)
    ensures CleanPlanReply(CleanPlanReply(text)) == CleanPlanReply(text)
  {
    PlanReplyNoFence(text);
    PlanReplyWithoutFence(CleanPlanReply(text));
    StripOfStripped(CleanPlanReply(text));
  }

  // -------------------------------------------------- the index replies

  /** Drops one leading "```json" and one trailing "```", then strips. */
  function Unfence(t: string): string
  {
    var a := if StartsWith(t, JsonFence) then t[|JsonFence|..] else t;
    var b := if EndsWith(a, Fence) then a[..|a| - |Fence|] else a;
    Strip(b)
  }

  /** `analyze_video` in `src/utils/video_index.py`: the reply is stripped before the fence checks. */
  function CleanVideoReply(text: string): (r: string)
    ensures NoEdgeSpace(r)
  {
    Unfence(Strip(text))
  }

  /** `index_audio` in `src/utils/audio_index.py`: the fence checks look at the raw reply. */
  function CleanAudioReply(text: string): (r: string)
    ensures NoEdgeSpace(r)
  {
    Unfence(text)
  }

  /** Exactly one fence is removed at each end: fences inside the body stay. */
  lemma UnfenceWrapped(x: string)
    ensures Unfence(JsonFence + x + Fence) == Strip(x)
  {
    var t := JsonFence + x + Fence;
    AppendAssoc(JsonFence, x, Fence);
    assert t[..|JsonFence|] == JsonFence;
    var a := t[|JsonFence|..];
    assert a == x + Fence;
    assert a[|a| - |Fence|..] == Fence;
    assert a[..|a| - |Fence|] == x;
  }

  /** The trailing fence goes even when there is no leading one. */
  lemma UnfenceTrailing(x: string)
    requires !StartsWith(x + Fence, JsonFence)
    ensures Unfence(x + Fence) == Strip(x)
  {
    var t := x + Fence;
    assert t[|t| - |Fence|..] == Fence;
    assert t[..|t| - |Fence|] == x;
  }

  /** A reply with no fence at either end comes out as its strip. */
  lemma UnfenceUnfenced(t: string)
    requires !StartsWith(t, JsonFence) && !EndsWith(t, Fence)
    ensures Unfence(t) == Strip(t)
  {
  }

  /** A fenced reply, with or without whitespace around it, cleans to the stripped body. */
  lemma VideoReplyWrapped(x: string)
    ensures CleanVideoReply(JsonFence + x + Fence) == Strip(x)
    ensures CleanAudioReply(JsonFence + x + Fence) == Strip(x)
  {
    var t := JsonFence + x + Fence;
    AppendAssoc(JsonFence, x, Fence);
    assert t[0] == '`' && t[|t| - 1] == '`';
    StripOfStripped(t);
    UnfenceWrapped(x);
  }

  /** Whitespace around the reply does not change what the video indexer parses. */
  lemma VideoIgnoresOuterSpace(text: string)
    ensures CleanVideoReply(text) == CleanVideoReply(Strip(text))
  {
    StripIdempotent(text);
  }

  /** The right strip of `a + b` keeps all of `a` when `a` ends with a non-blank. */
  lemma {:induction false} RStripKeeps(a: string, b: string)
    requires a != [] && !IsSpace(a[|a| - 1])
    ensures |RStrip(a + b)| >= |a|
    decreases |b|
  {
    if b != [] {
      var t := a + b;
      if IsSpace(t[|t| - 1]) {
        assert t[..|t| - 1] == a + b[..|b| - 1];
        RStripKeeps(a, b[..|b| - 1]);
      }
    }
  }

  /** A fenced reply after a blank: the video indexer strips the blank first and parses the body. */
  lemma VideoSkipsIndent(c: char, x: string)
    requires IsSpace(c)
    ensures CleanVideoReply([c] + (JsonFence + x + Fence)) == Strip(x)
  {
    var u := JsonFence + x + Fence;
    var t := [c] + u;
    AppendAssoc(JsonFence, x, Fence);
    assert u[0] == '`' && u[|u| - 1] == '`';
    assert t[1..] == u;
    assert LStrip(t) == u;
    assert RStrip(u) == u;
    UnfenceWrapped(x);
  }

  /** The same reply given to the audio indexer: the leading "```json" is not at index 0 and survives. */
  lemma AudioKeepsIndentedFence(c: char, x: string)
    requires IsSpace(c)
    ensures StartsWith(CleanAudioReply([c] + (JsonFence + x + Fence)), JsonFence)
  {
    var v := JsonFence + x;
    var t := [c] + (v + Fence);
    AppendAssoc([c], v, Fence);
    assert !StartsWith(t, JsonFence) by {
      assert t[0] != JsonFence[0];
    }
    assert t[..|t| - |Fence|] == [c] + v;
    KeepsJsonFence(c, x);
  }

  lemma KeepsJsonFence(c: char, x: string)
    requires IsSpace(c)
    ensures StartsWith(Strip([c] + (JsonFence + x)), JsonFence)
  {
    var v := JsonFence + x;
    assert ([c] + v)[1..] == v;
    assert v[0] == '`';
    assert LStrip([c] + v) == v;
    RStripKeeps(JsonFence, x);
    var r := RStrip(v);
    assert r == v[..|r|];
    assert r[..|JsonFence|] == v[..|JsonFence|] == JsonFence;
  }

  // ------------------------------------------------------ output names

  const CompressedDir: string := "outputs/compressed"
  const AudioDir: string := "src/outputs/audio"

  /** `compress_video`: `outputs/compressed/<stem>_gemini.mp4` or `<stem>_compressed.mp4`. */
  function CompressedPath(inputPath: string, forGemini: bool): string
  {
    Join(Join("outputs", "compressed"), Stem(inputPath) + (if forGemini then GeminiSuffix else CompressedSuffix))
  }

  /** `os.path.join("outputs", "compressed")`. */
  lemma CompressedDirJoined()
    ensures Join("outputs", "compressed") == CompressedDir
    ensures CompressedDir != [] && !EndsWith(CompressedDir, "/")
  {
    JoinRelative("outputs", "compressed");
    assert "outputs" + "/" + "compressed" == CompressedDir;
    assert CompressedDir[|CompressedDir| - 1] == 'd';
  }

  /** `os.path.join('src', "outputs/audio")`. */
  lemma AudioDirJoined()
    ensures Join("src", "outputs/audio") == AudioDir
    ensures AudioDir != [] && !EndsWith(AudioDir, "/")
  {
    JoinRelative("src", "outputs/audio");
    assert "src" + "/" + "outputs/audio" == AudioDir;
    assert AudioDir[|AudioDir| - 1] == 'o';
  }

  lemma SuffixesHaveNoSlash()
    ensures '/' !in GeminiSuffix && '/' !in CompressedSuffix && '/' !in AudioSuffix
  {
  }

  /** The compressed file lies in `outputs/compressed` and is named after the input's stem. */
  lemma CompressedPathShape(inputPath: string, forGemini: bool)
    ensures CompressedPath(inputPath, forGemini)
      == CompressedDir + "/" + (Stem(inputPath) + (if forGemini then GeminiSuffix else CompressedSuffix))
    ensures Basename(CompressedPath(inputPath, forGemini))
      == Stem(inputPath) + (if forGemini then GeminiSuffix else CompressedSuffix)
  {
    CompressedDirJoined();
    SuffixesHaveNoSlash();
    var name := Stem(inputPath) + (if forGemini then GeminiSuffix else CompressedSuffix);
    assert '/' !in name;
    JoinName(CompressedDir, name);
  }

  /** The copy for the model and the final copy never overwrite each other. */
  lemma CompressedVariantsDiffer(inputPath: string)
    ensures CompressedPath(inputPath, true) != CompressedPath(inputPath, false)
  {
    CompressedPathShape(inputPath, true);
    CompressedPathShape(inputPath, false);
    assert |GeminiSuffix| != |CompressedSuffix|;
  }

  /** `index_audio`: `src/outputs/audio/<stem>_audio_index.json`. */
  function AudioIndexPath(audioPath: string): string
  {
    Join(Join("src", "outputs/audio"), Stem(audioPath) + AudioSuffix)
  }

  /** The audio index lies in `src/outputs/audio` and is named after the audio file's stem. */
  lemma AudioIndexPathShape(audioPath: string)
    ensures AudioIndexPath(audioPath) == AudioDir + "/" + (Stem(audioPath) + AudioSuffix)
    ensures Basename(AudioIndexPath(audioPath)) == Stem(audioPath) + AudioSuffix
  {
    AudioDirJoined();
    SuffixesHaveNoSlash();
    JoinName(AudioDir, Stem(audioPath) + AudioSuffix);
  }

  /** What `index_audio` saves: the file and the JSON text written to it. */
  datatype AudioIndex = AudioIndex(outputFile: string, json: string)

  /**
   * `index_audio`: read the audio, ask the model, clean and parse the reply,
   * write the parsed value.  `decode(text)` is `json.loads(text)` dumped
   * again with `json.dump(..., indent=2)`, or the parser's exception, so the
   * file holds the re-serialised value rather than the reply's own text.
   * Every failure on the way surfaces as one exception whose message is
   * "Failed to index audio: " followed by the original one.
   */
  function IndexAudio(audioPath: string, readError: Option<string>, reply: Result<string, string>,
                      decode: string -> Result<string, string>, writeError: Option<string>): (r: Result<AudioIndex, string>)
    ensures r.Ok? <==> readError.None? && reply.Ok? && decode(CleanAudioReply(reply.value)).Ok? && writeError.None?
    ensures r.Ok? ==> r.value == AudioIndex(AudioIndexPath(audioPath), decode(CleanAudioReply(reply.value)).value)
    ensures r.Err? ==> StartsWith(r.error, AudioFailed)
    ensures readError.Some? ==> r == Err(AudioFailed + readError.value)
    ensures readError.None? && reply.Err? ==> r == Err(AudioFailed + reply.error)
    ensures readError.None? && reply.Ok? && decode(CleanAudioReply(reply.value)).Err? ==>
      r == Err(AudioFailed + decode(CleanAudioReply(reply.value)).error)
    ensures readError.None? && reply.Ok? && decode(CleanAudioReply(reply.value)).Ok? && writeError.Some? ==>
      r == Err(AudioFailed + writeError.value)
  {
    var outputFile := AudioIndexPath(audioPath);
    if readError.Some? then Err(AudioFailed + readError.value)
    else if reply.Err? then Err(AudioFailed + reply.error)
    else
      var parsed := decode(CleanAudioReply(reply.value));
      if parsed.Err? then Err(AudioFailed + parsed.error)
      else if writeError.Some? then Err(AudioFailed + writeError.value)
      else Ok(AudioIndex(outputFile, parsed.value))
  }
}

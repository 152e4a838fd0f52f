/**
 * The segment-then-concat executor of `backend/edit_generator.py`.
 *
 * The file system is a value: the set of existing paths, the log of
 * processor (ffmpeg) jobs run so far, and the warnings printed.  Running a
 * job either fails, as the oracle `fails` decides, or creates (or
 * overwrites) its target file.  The executor runs every materialised trim
 * first, then every concat, then deletes the segment files.
 */
module SegmentConcat {
  import opened Wrappers
  import opened Strings
  import opened Paths
  import opened Timecode
  import opened StableSort
  import opened Plan

  const TempDir: string := "temp"

  /** `temp/concat_list.txt`, the manifest each concat writes and deletes. */
  const ManifestPath: string := "temp/concat_list.txt"

  datatype Job =
    | TrimJob(source: string, start: real, end: real, target: string)
    | ConcatJob(lines: seq<string>, target: string)

  datatype Disk = Disk(files: set<string>, jobs: seq<Job>, warnings: seq<string>)

  /** The exceptions that escape the executor. */
  datatype Failure =
    | MissingType                                     // `action["type"]` raised KeyError
    | BadTimecode(text: string, error: TimecodeError) // `time_to_seconds` raised ValueError
    | ProcessorFailed(job: Job)                       // `ffmpeg.run` raised
    | MissingPosition                                 // `x["position"]` raised KeyError while sorting
    | MissingFile                                     // `segment["file"]` raised KeyError while writing the manifest

  /** One step of a pass either goes on with a new state or raises, leaving the disk as it was then. */
  datatype Progress<S> = Continue(state: S) | Abort(failure: Failure, disk: Disk)

  /** A concat pass that either completes or stops on the `visited`-th action with a failure. */
  datatype PassEnd = PassEnd(failure: Option<Failure>, disk: Disk, visited: nat)

  /** What the caller observes: the return value or exception, the disk, and its (mutated) actions. */
  datatype Outcome = Outcome(result: Result<string, Failure>, disk: Disk, actions: seq<Action>)

  // ---------------------------------------------------------------- trim pass

  /** A trim with truthy `start`, `end` and `output`; any other trim is skipped. */
  predicate Materialised(a: Action)
  {
    a.kind == Some("trim") && Present(a.start) && Present(a.end) && Present(a.output)
  }

  /** `temp_dir / output`. */
  function SegmentPath(a: Action): string
    requires Present(a.output)
  {
    Join(TempDir, a.output.value)
  }

  function TrimStep(a: Action, input: string, fails: Job -> bool, d: Disk, segs: seq<string>)
    : Progress<(Disk, seq<string>)>
  {
    if a.kind.None? then Abort(MissingType, d)
    else if !Materialised(a) then Continue((d, segs))
    else
      var start := ToSeconds(a.start.value);
      if start.Err? then Abort(BadTimecode(a.start.value, start.error), d)
      else
        var end := ToSeconds(a.end.value);
        if end.Err? then Abort(BadTimecode(a.end.value, end.error), d)
        else
          var job := TrimJob(input, start.value, end.value, SegmentPath(a));
          if fails(job) then Abort(ProcessorFailed(job), d)
          else Continue((Disk(d.files + {job.target}, d.jobs + [job], d.warnings), segs + [job.target]))
  }

  /** The first loop over the actions; the state is the disk and `segment_files`. */
  function TrimPass(acts: seq<Action>, input: string, fails: Job -> bool, d: Disk, segs: seq<string>)
    : Progress<(Disk, seq<string>)>
    decreases |acts|
  {
    if acts == [] then Continue((d, segs))
    else
      match TrimStep(acts[0], input, fails, d, segs)
      case Abort(f, d') => Abort(f, d')
      case Continue(st) => TrimPass(acts[1..], input, fails, st.0, st.1)
  }

  /** The segment paths of the materialised trims, in array order. */
  function TrimTargets(acts: seq<Action>): seq<string>
  {
    if acts == [] then []
    else (if Materialised(acts[0]) then [SegmentPath(acts[0])] else []) + TrimTargets(acts[1..])
  }

  // -------------------------------------------------------------- concat pass

  /** A concat whose `segments` list is present and non-empty; any other concat does nothing. */
  predicate HasSegments(a: Action)
  {
    a.kind == Some("concat") && a.segments.Some? && a.segments.value != []
  }

  /** Every segment has a "position": the sort key can be computed for all of them. */
  predicate Positioned(segs: seq<SegmentRef>)
  {
    forall k :: 0 <= k < |segs| ==> segs[k].position.Some?
  }

  /** Every segment has a "file". */
  predicate Filed(segs: seq<SegmentRef>)
  {
    forall k :: 0 <= k < |segs| ==> segs[k].file.Some?
  }

  /** The sort key; only ever compared when every segment is positioned. */
  function PositionKey(s: SegmentRef): real
  {
    if s.position.Some? then s.position.value else 0.0
  }

  /** `segments.sort(key=lambda x: x["position"])` once every key was computed. */
  function ByPosition(segs: seq<SegmentRef>): seq<SegmentRef>
  {
    Sort(segs, PositionKey, false)
  }

  /**
   * The action as the caller sees it after the executor visited it: the
   * sort works in place, and a key that cannot be computed leaves the list
   * as it was.
   */
  function Sorted(a: Action): Action
  {
    if HasSegments(a) && Positioned(a.segments.value) then a.(segments := Some(ByPosition(a.segments.value))) else a
  }

  /** The plan after the first `n` actions were visited by the concat pass. */
  function SortedUpTo(acts: seq<Action>, n: nat): (r: seq<Action>)
    requires n <= |acts|
    ensures |r| == |acts|
    ensures forall k :: 0 <= k < |acts| ==> r[k] == if k < n then Sorted(acts[k]) else acts[k]
  {
    if n == 0 then acts else SortedUpTo(acts, n - 1)[n - 1 := Sorted(acts[n - 1])]
  }

  /** `file_path.absolute()`: relative paths are taken against the working directory. */
  function Absolute(cwd: string, p: string): string
  {
    if StartsWith(p, "/") then p else Join(cwd, p)
  }

  function ManifestLine(cwd: string, path: string): string
  {
    "file '" + Absolute(cwd, path) + "'\n"
  }

  /** `temp_dir / segment["file"]`. */
  function RefPath(s: SegmentRef): string
    requires s.file.Some?
  {
    Join(TempDir, s.file.value)
  }

  /** The index of the first segment without a "file", or the length when there is none. */
  function FirstUnfiled(segs: seq<SegmentRef>): (r: nat)
    ensures r <= |segs|
    ensures forall k :: 0 <= k < r ==> segs[k].file.Some?
    ensures r < |segs| ==> segs[r].file.None?
  {
    if segs == [] || segs[0].file.None? then 0 else 1 + FirstUnfiled(segs[1..])
  }

  /** The lines written to the manifest for `segs`, given the files that exist while it is written. */
  function ManifestLines(segs: seq<SegmentRef>, files: set<string>, cwd: string): seq<string>
    requires Filed(segs)
  {
    if segs == [] then []
    else
      var earlier := ManifestLines(segs[..|segs| - 1], files, cwd);
      var p := RefPath(segs[|segs| - 1]);
      if p in files then earlier + [ManifestLine(cwd, p)] else earlier
  }

  function ConcatStep(a: Action, out: string, cwd: string, fails: Job -> bool, d: Disk): Progress<Disk>
  {
    if a.kind.None? then Abort(MissingType, d)
    else if !HasSegments(a) then Continue(d)
    else if !Positioned(a.segments.value) then Abort(MissingPosition, d)
    else
      var files := d.files + {ManifestPath};
      var sorted := ByPosition(a.segments.value);
      if !Filed(sorted) then Abort(MissingFile, d.(files := files))
      else
        var job := ConcatJob(ManifestLines(sorted, files, cwd), out);
        if fails(job) then Abort(ProcessorFailed(job), d.(files := files))
        else Continue(Disk(files + {out} - {ManifestPath}, d.jobs + [job], d.warnings))
  }

  /** The second loop over the actions. */
  function ConcatPass(acts: seq<Action>, out: string, cwd: string, fails: Job -> bool, d: Disk): (r: PassEnd)
    ensures r.visited <= |acts|
    ensures r.failure.None? ==> r.visited == |acts|
    decreases |acts|
  {
    if acts == [] then PassEnd(None, d, 0)
    else
      match ConcatStep(acts[0], out, cwd, fails, d)
      case Abort(f, d') => PassEnd(Some(f), d', 1)
      case Continue(d') =>
        var r := ConcatPass(acts[1..], out, cwd, fails, d');
        r.(visited := r.visited + 1)
  }

  // ----------------------------------------------------------------- cleanup

  /** The final loop: each recorded segment is unlinked; one that is gone already yields a warning. */
  function Cleanup(segs: seq<string>, d: Disk): Disk
    decreases |segs|
  {
    if segs == [] then d
    else
      var p := segs[0];
      Cleanup(segs[1..], if p in d.files then d.(files := d.files - {p}) else d.(warnings := d.warnings + [p]))
  }

  /** The whole executor, as a function of the plan, the environment and the files that exist beforehand. */
  function Generate(plan: EditPlan, input: string, requested: Option<string>, hex8: string,
                    cwd: string, fails: Job -> bool, files: set<string>): Outcome
  {
    var out := OutputPath(requested, hex8);
    var acts := Actions(plan);
    match TrimPass(acts, input, fails, Disk(files, [], []), [])
    case Abort(f, d) => Outcome(Err(f), d, acts)
    case Continue(st) =>
      var c := ConcatPass(acts, out, cwd, fails, st.0);
      var after := SortedUpTo(acts, c.visited);
      if c.failure.Some? then Outcome(Err(c.failure.value), c.disk, after)
      else Outcome(Ok(out), Cleanup(st.1, c.disk), after)
  }

  /** The trim loop of `generate_ffmpeg_from_plan`. */
  method RunTrims(acts: seq<Action>, input: string, fails: Job -> bool, disk: Disk)
    returns (p: Progress<(Disk, seq<string>)>)
    ensures p == TrimPass(acts, input, fails, disk, [])
  {
    var d, segs := disk, [];
    var i := 0;
    while i < |acts|
      invariant 0 <= i <= |acts|
      invariant TrimPass(acts[i..], input, fails, d, segs) == TrimPass(acts, input, fails, disk, [])
    {
      var a := acts[i];
      assert acts[i..][0] == a && acts[i..][1..] == acts[i + 1..];
      if a.kind.None? {
        return Abort(MissingType, d);
      }
      if Materialised(a) {
        var start := ToSeconds(a.start.value);
        if start.Err? {
          return Abort(BadTimecode(a.start.value, start.error), d);
        }
        var end := ToSeconds(a.end.value);
        if end.Err? {
          return Abort(BadTimecode(a.end.value, end.error), d);
        }
        var job := TrimJob(input, start.value, end.value, SegmentPath(a));
        if fails(job) {
          return Abort(ProcessorFailed(job), d);
        }
        d := Disk(d.files + {job.target}, d.jobs + [job], d.warnings);
        segs := segs + [job.target];
      }
      i := i + 1;
    }
    assert acts[|acts|..] == [];
    p := Continue((d, segs));
  }

  /**
   * The `with open(concat_file, "w")` block: one line per segment whose
   * file exists; a segment without a "file" raises, with the lines before
   * it already written.
   */
  method WriteManifest(sorted: seq<SegmentRef>, files: set<string>, cwd: string) returns (lines: seq<string>, missing: bool)
    ensures missing <==> !Filed(sorted)
    ensures lines == ManifestLines(sorted[..FirstUnfiled(sorted)], files, cwd)
  {
    lines, missing := [], false;
    var j := 0;
    while j < |sorted|
      invariant 0 <= j <= FirstUnfiled(sorted)
      invariant Filed(sorted[..j]) && lines == ManifestLines(sorted[..j], files, cwd)
    {
      if sorted[j].file.None? {
        return lines, true;
      }
      ManifestStep(sorted, files, cwd, j);
      var path := RefPath(sorted[j]);
      if path in files {
        lines := lines + [ManifestLine(cwd, path)];
      }
      j := j + 1;
    }
    assert sorted[..|sorted|] == sorted;
  }

  /** Every segment before the first one without a "file" has one. */
  lemma FiledPrefix(segs: seq<SegmentRef>, j: nat)
    requires j <= FirstUnfiled(segs)
    ensures Filed(segs[..j])
  {
  }

  /** The manifest of one more segment adds that segment's line when its file exists. */
  lemma ManifestStep(segs: seq<SegmentRef>, files: set<string>, cwd: string, j: nat)
    requires j < FirstUnfiled(segs)
    ensures Filed(segs[..j]) && Filed(segs[..j + 1])
    ensures ManifestLines(segs[..j + 1], files, cwd)
      == ManifestLines(segs[..j], files, cwd) + (if RefPath(segs[j]) in files then [ManifestLine(cwd, RefPath(segs[j]))] else [])
  {
    FiledPrefix(segs, j);
    FiledPrefix(segs, j + 1);
    assert segs[..j + 1][..j] == segs[..j];
  }

  /** The concat loop; `after` is the caller's action list once the loop has sorted segments in place. */
  method RunConcats(acts: seq<Action>, out: string, cwd: string, fails: Job -> bool, disk: Disk)
    returns (r: PassEnd, after: seq<Action>)
    ensures r == ConcatPass(acts, out, cwd, fails, disk)
    ensures after == SortedUpTo(acts, r.visited)
  {
    var d := disk;
    after := acts;
    var i := 0;
    while i < |acts|
      invariant 0 <= i <= |acts|
      invariant after == SortedUpTo(acts, i)
      invariant ConcatPass(acts, out, cwd, fails, disk)
        == var rest := ConcatPass(acts[i..], out, cwd, fails, d); rest.(visited := rest.visited + i)
    {
      var a := acts[i];
      assert acts[i..][0] == a && acts[i..][1..] == acts[i + 1..];
      after := after[i := Sorted(a)];
      if a.kind.None? {
        return PassEnd(Some(MissingType), d, i + 1), after;
      }
      if HasSegments(a) {
        if !Positioned(a.segments.value) {
          return PassEnd(Some(MissingPosition), d, i + 1), after;
        }
        var files := d.files + {ManifestPath};
        var sorted := ByPosition(a.segments.value);
        var lines, missing := WriteManifest(sorted, files, cwd);
        if missing {
          return PassEnd(Some(MissingFile), d.(files := files), i + 1), after;
        }
        assert sorted[..FirstUnfiled(sorted)] == sorted;
        var job := ConcatJob(lines, out);
        if fails(job) {
          return PassEnd(Some(ProcessorFailed(job)), d.(files := files), i + 1), after;
        }
        d := Disk(files + {out} - {ManifestPath}, d.jobs + [job], d.warnings);
      }
      i := i + 1;
    }
    assert acts[|acts|..] == [];
    r := PassEnd(None, d, |acts|);
  }

  /** The final loop over `segment_files`. */
  method RunCleanup(segs: seq<string>, disk: Disk) returns (d: Disk)
    ensures d == Cleanup(segs, disk)
  {
    d := disk;
    var k := 0;
    while k < |segs|
      invariant 0 <= k <= |segs|
      invariant Cleanup(segs[k..], d) == Cleanup(segs, disk)
    {
      var p := segs[k];
      assert segs[k..][0] == p && segs[k..][1..] == segs[k + 1..];
      if p in d.files {
        d := d.(files := d.files - {p});
      } else {
        d := d.(warnings := d.warnings + [p]);
      }
      k := k + 1;
    }
    assert segs[|segs|..] == [];
  }

  /** `generate_ffmpeg_from_plan`: trims, then concats, then cleanup, as the source runs them. */
  method GenerateFromPlan(plan: EditPlan, input: string, requested: Option<string>, hex8: string,
                          cwd: string, fails: Job -> bool, files: set<string>) returns (o: Outcome)
    ensures o == Generate(plan, input, requested, hex8, cwd, fails, files)
  {
    var out := OutputPath(requested, hex8);
    var acts := Actions(plan);
    var trimmed := RunTrims(acts, input, fails, Disk(files, [], []));
    if trimmed.Abort? {
      return Outcome(Err(trimmed.failure), trimmed.disk, acts);
    }
    var c, after := RunConcats(acts, out, cwd, fails, trimmed.state.0);
    if c.failure.Some? {
      return Outcome(Err(c.failure.value), c.disk, after);
    }
    var d := RunCleanup(trimmed.state.1, c.disk);
    o := Outcome(Ok(out), d, after);
  }
}

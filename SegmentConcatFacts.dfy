/**
 * What the segment-then-concat executor guarantees: trims run before
 * concats whatever the action order, the segment list is exactly the
 * materialised trims, the manifest lists the existing segments in
 * ascending position, cleanup removes exactly the segments, a failure
 * leaves them behind, and the caller's concat actions end up sorted.
 */
module SegmentConcatFacts {
  import opened Wrappers
  import opened StableSort
  import opened Plan
  import opened SegmentConcat

  predicate AllTrims(js: seq<Job>)
  {
    forall i :: 0 <= i < |js| ==> js[i].TrimJob?
  }

  /** No trim job comes after a concat job. */
  predicate TrimsBeforeConcats(js: seq<Job>)
  {
    forall i, j :: 0 <= i < j < |js| && js[i].ConcatJob? ==> js[j].ConcatJob?
  }

  function CountWithSegments(acts: seq<Action>): nat
  {
    if acts == [] then 0 else (if HasSegments(acts[0]) then 1 else 0) + CountWithSegments(acts[1..])
  }

  /** The disk a trim pass leaves behind, whether it completed or raised. */
  function TrimDisk(p: Progress<(Disk, seq<string>)>): Disk
  {
    if p.Continue? then p.state.0 else p.disk
  }

  // ---------------------------------------------------------------- trim pass

  /** One trim step either raises with the disk untouched, skips, or adds one trim job and its segment. */
  lemma TrimStepShape(a: Action, input: string, fails: Job -> bool, d: Disk, segs: seq<string>)
    ensures var p := TrimStep(a, input, fails, d, segs);
      if p.Abort? then p.disk == d
      else if !Materialised(a) then p.state == (d, segs)
      else
        |p.state.0.jobs| == |d.jobs| + 1
        && var job := p.state.0.jobs[|d.jobs|];
        job.TrimJob? && job.target == SegmentPath(a)
        && p.state == (Disk(d.files + {job.target}, d.jobs + [job], d.warnings), segs + [job.target])
  {
  }

  /** The trim pass only ever runs trim jobs, never deletes a file and never warns. */
  lemma {:induction false} TrimPassJobs(acts: seq<Action>, input: string, fails: Job -> bool, d: Disk, segs: seq<string>)
    requires AllTrims(d.jobs)
    ensures var d' := TrimDisk(TrimPass(acts, input, fails, d, segs));
      AllTrims(d'.jobs) && d'.warnings == d.warnings && d.files <= d'.files
    decreases |acts|
  {
    if acts != [] {
      TrimStepShape(acts[0], input, fails, d, segs);
      var p := TrimStep(acts[0], input, fails, d, segs);
      if p.Continue? {
        TrimPassJobs(acts[1..], input, fails, p.state.0, p.state.1);
      }
    }
  }

  /** A completed trim pass recorded the segment path of every materialised trim, in array order, and ran one job for each. */
  lemma {:induction false} TrimPassTargets(acts: seq<Action>, input: string, fails: Job -> bool, d: Disk, segs: seq<string>)
    requires TrimPass(acts, input, fails, d, segs).Continue?
    ensures TrimPass(acts, input, fails, d, segs).state.1 == segs + TrimTargets(acts)
    ensures |TrimPass(acts, input, fails, d, segs).state.0.jobs| == |d.jobs| + |TrimTargets(acts)|
    decreases |acts|
  {
    if acts != [] {
      var p := TrimStep(acts[0], input, fails, d, segs);
      assert p.Continue?;
      var head := if Materialised(acts[0]) then [SegmentPath(acts[0])] else [];
      assert p.state.1 == segs + head && |p.state.0.jobs| == |d.jobs| + |head| by {
        TrimStepShape(acts[0], input, fails, d, segs);
      }
      TrimPassTargets(acts[1..], input, fails, p.state.0, p.state.1);
      AppendAssoc(segs, head, TrimTargets(acts[1..]));
    }
  }

  /** A completed trim pass created exactly the segment files on top of the existing ones. */
  lemma {:induction false} TrimPassFiles(acts: seq<Action>, input: string, fails: Job -> bool, d: Disk, segs: seq<string>)
    requires TrimPass(acts, input, fails, d, segs).Continue?
    ensures TrimPass(acts, input, fails, d, segs).state.0.files == d.files + (set p | p in TrimTargets(acts))
    decreases |acts|
  {
    if acts != [] {
      TrimStepShape(acts[0], input, fails, d, segs);
      var st0 := TrimStep(acts[0], input, fails, d, segs).state;
      TrimPassFiles(acts[1..], input, fails, st0.0, st0.1);
      var t := TrimTargets(acts[1..]);
      if Materialised(acts[0]) {
        assert (set p | p in [SegmentPath(acts[0])] + t) == {SegmentPath(acts[0])} + (set p | p in t);
      } else {
        assert TrimTargets(acts) == t;
      }
    }
  }

  // -------------------------------------------------------------- concat pass

  /**
   * One concat step either raises, skips, or runs one concat job into the
   * output and deletes the manifest afterwards.  A missing "type" or
   * "position" raises before the manifest is opened; a missing "file" or a
   * failed job raises with the manifest left on disk.
   */
  lemma ConcatStepShape(a: Action, out: string, cwd: string, fails: Job -> bool, d: Disk)
    ensures a.kind.None? ==> ConcatStep(a, out, cwd, fails, d) == Abort(MissingType, d)
    ensures HasSegments(a) && !Positioned(a.segments.value) ==>
      ConcatStep(a, out, cwd, fails, d) == Abort(MissingPosition, d)
    ensures HasSegments(a) && Positioned(a.segments.value) && !Filed(a.segments.value) ==>
      ConcatStep(a, out, cwd, fails, d) == Abort(MissingFile, d.(files := d.files + {ManifestPath}))
    ensures var p := ConcatStep(a, out, cwd, fails, d);
      if p.Abort? then
        p.disk.jobs == d.jobs && p.disk.warnings == d.warnings
        && p.disk.files - {ManifestPath} == d.files - {ManifestPath}
        && (p.failure.MissingFile? || p.failure.ProcessorFailed? ==> ManifestPath in p.disk.files)
      else if !HasSegments(a) then p.state == d
      else
        |p.state.jobs| == |d.jobs| + 1
        && p.state.jobs == d.jobs + [p.state.jobs[|d.jobs|]]
        && p.state.jobs[|d.jobs|].ConcatJob? && p.state.jobs[|d.jobs|].target == out
        && p.state.warnings == d.warnings
        && ManifestPath !in p.state.files && (out != ManifestPath ==> out in p.state.files)
        && p.state.files - {out} == d.files - {out, ManifestPath}
  {
    if HasSegments(a) {
      FiledSorted(a.segments.value);
    }
  }

  /** Sorting neither adds nor loses a segment without a "file". */
  lemma FiledSorted(segs: seq<SegmentRef>)
    ensures Filed(ByPosition(segs)) <==> Filed(segs)
  {
    var sorted := ByPosition(segs);
    SortPermutes(segs, PositionKey, false);
    if !Filed(segs) {
      var k :| 0 <= k < |segs| && segs[k].file.None?;
      assert segs[k] in multiset(sorted);
      var m :| 0 <= m < |sorted| && sorted[m] == segs[k];
    }
    if !Filed(sorted) {
      var k :| 0 <= k < |sorted| && sorted[k].file.None?;
      assert sorted[k] in multiset(segs);
      var m :| 0 <= m < |segs| && segs[m] == sorted[k];
    }
  }

  /**
   * The concat pass runs only concat jobs after the jobs already logged,
   * never warns and removes no file other than the manifest; when it
   * completes it ran exactly one job per concat action with a non-empty
   * segment list.
   */
  lemma {:induction false} ConcatPassJobs(acts: seq<Action>, out: string, cwd: string, fails: Job -> bool, d: Disk)
    requires TrimsBeforeConcats(d.jobs)
    ensures var r := ConcatPass(acts, out, cwd, fails, d);
      TrimsBeforeConcats(r.disk.jobs) && r.disk.warnings == d.warnings && d.files - {ManifestPath} <= r.disk.files
    ensures var r := ConcatPass(acts, out, cwd, fails, d);
      r.failure.None? ==> |r.disk.jobs| == |d.jobs| + CountWithSegments(acts)
    decreases |acts|
  {
    if acts != [] {
      ConcatStepShape(acts[0], out, cwd, fails, d);
      var p := ConcatStep(acts[0], out, cwd, fails, d);
      if p.Continue? {
        ConcatPassJobs(acts[1..], out, cwd, fails, p.state);
      }
    }
  }

  /**
   * A completed concat pass that ran at least one concat (or started
   * without a manifest and with the output in place) ends with the manifest
   * deleted and the output on disk.
   */
  lemma {:induction false} ConcatPassOutput(acts: seq<Action>, out: string, cwd: string, fails: Job -> bool, d: Disk)
    requires ConcatPass(acts, out, cwd, fails, d).failure.None?
    requires CountWithSegments(acts) > 0 || (ManifestPath !in d.files && (out != ManifestPath ==> out in d.files))
    ensures var f := ConcatPass(acts, out, cwd, fails, d).disk.files;
      ManifestPath !in f && (out != ManifestPath ==> out in f)
    decreases |acts|
  {
    if acts != [] {
      ConcatStepShape(acts[0], out, cwd, fails, d);
      var p := ConcatStep(acts[0], out, cwd, fails, d);
      assert p.Continue?;
      ConcatPassOutput(acts[1..], out, cwd, fails, p.state);
    }
  }

  // ----------------------------------------------------------------- cleanup

  /** Cleanup deletes exactly the listed segment files and runs no job. */
  lemma {:induction false} CleanupRemoves(segs: seq<string>, d: Disk)
    ensures Cleanup(segs, d).files == d.files - (set p | p in segs)
    ensures Cleanup(segs, d).jobs == d.jobs
    decreases |segs|
  {
    if segs != [] {
      var p := segs[0];
      var d1 := if p in d.files then d.(files := d.files - {p}) else d.(warnings := d.warnings + [p]);
      CleanupRemoves(segs[1..], d1);
      assert (set q | q in segs) == {p} + (set q | q in segs[1..]);
    }
  }

  /** Cleanup warns exactly for the segments that no longer exist when their turn comes. */
  lemma {:induction false} CleanupWarnsOnlyForMissing(segs: seq<string>, d: Disk)
    requires forall i :: 0 <= i < |segs| ==> segs[i] in d.files
    requires forall i, j :: 0 <= i < j < |segs| ==> segs[i] != segs[j]
    ensures Cleanup(segs, d).warnings == d.warnings
    decreases |segs|
  {
    if segs != [] {
      var p := segs[0];
      CleanupWarnsOnlyForMissing(segs[1..], d.(files := d.files - {p}));
    }
  }

  // ------------------------------------------------------------ whole executor

  /** Every trim job runs before any concat job, whatever the order of the actions. */
  lemma GenerateTrimsFirst(plan: EditPlan, input: string, requested: Option<string>, hex8: string,
                           cwd: string, fails: Job -> bool, files: set<string>)
    ensures TrimsBeforeConcats(Generate(plan, input, requested, hex8, cwd, fails, files).disk.jobs)
  {
    var acts := Actions(plan);
    var out := OutputPath(requested, hex8);
    var p := TrimPass(acts, input, fails, Disk(files, [], []), []);
    TrimPassJobs(acts, input, fails, Disk(files, [], []), []);
    if p.Continue? {
      ConcatPassJobs(acts, out, cwd, fails, p.state.0);
      var c := ConcatPass(acts, out, cwd, fails, p.state.0);
      if c.failure.None? {
        CleanupRemoves(p.state.1, c.disk);
      }
    }
  }

  /**
   * A run that returns has returned the output path (the caller's, or
   * `output_<hex>.mp4`), ran one trim job per materialised trim and one
   * concat job per concat with segments, deleted every segment file
   * again, and left every concat action of the plan sorted.  Once a concat
   * ran, the manifest is gone and the output exists, unless the output is
   * itself one of the segment files cleanup deletes.
   */
  lemma GenerateSuccess(plan: EditPlan, input: string, requested: Option<string>, hex8: string,
                        cwd: string, fails: Job -> bool, files: set<string>)
    requires Generate(plan, input, requested, hex8, cwd, fails, files).result.Ok?
    ensures var o := Generate(plan, input, requested, hex8, cwd, fails, files);
      o.result.value == (if Present(requested) then requested.value else "output_" + hex8 + ".mp4")
      && (forall p :: p in TrimTargets(Actions(plan)) ==> p !in o.disk.files)
      && o.actions == SortedUpTo(Actions(plan), |Actions(plan)|)
      && |o.disk.jobs| == |TrimTargets(Actions(plan))| + CountWithSegments(Actions(plan))
    ensures var o := Generate(plan, input, requested, hex8, cwd, fails, files);
      CountWithSegments(Actions(plan)) > 0 ==>
        ManifestPath !in o.disk.files
        && (o.result.value != ManifestPath && o.result.value !in TrimTargets(Actions(plan)) ==> o.result.value in o.disk.files)
  {
    var acts := Actions(plan);
    var out := OutputPath(requested, hex8);
    var p := TrimPass(acts, input, fails, Disk(files, [], []), []);
    TrimPassTargets(acts, input, fails, Disk(files, [], []), []);
    TrimPassJobs(acts, input, fails, Disk(files, [], []), []);
    ConcatPassJobs(acts, out, cwd, fails, p.state.0);
    var c := ConcatPass(acts, out, cwd, fails, p.state.0);
    CleanupRemoves(p.state.1, c.disk);
    if CountWithSegments(acts) > 0 {
      ConcatPassOutput(acts, out, cwd, fails, p.state.0);
    }
  }

  /**
   * When a concat raises, nothing is cleaned up: no warning was printed and
   * every segment the trim pass created (other than one that collides with
   * the manifest's path) is still on disk, as is every file that existed before.
   */
  lemma GenerateFailureLeavesSegments(plan: EditPlan, input: string, requested: Option<string>, hex8: string,
                                      cwd: string, fails: Job -> bool, files: set<string>)
    requires Generate(plan, input, requested, hex8, cwd, fails, files).result.Err?
    ensures var o := Generate(plan, input, requested, hex8, cwd, fails, files);
      o.disk.warnings == [] && files - {ManifestPath} <= o.disk.files
    ensures TrimPass(Actions(plan), input, fails, Disk(files, [], []), []).Continue? ==>
      var o := Generate(plan, input, requested, hex8, cwd, fails, files);
      forall p :: p in TrimTargets(Actions(plan)) && p != ManifestPath ==> p in o.disk.files
  {
    var acts := Actions(plan);
    var out := OutputPath(requested, hex8);
    var d := Disk(files, [], []);
    TrimPassJobs(acts, input, fails, d, []);
    var p := TrimPass(acts, input, fails, d, []);
    if p.Continue? {
      TrimPassFiles(acts, input, fails, d, []);
      ConcatPassJobs(acts, out, cwd, fails, p.state.0);
    }
  }

  // ---------------------------------------------------------------- manifest

  /** The segments whose `temp/<file>` exists, in their order. */
  function Listed(segs: seq<SegmentRef>, files: set<string>): (r: seq<SegmentRef>)
    requires Filed(segs)
    ensures Filed(r)
  {
    if segs == [] then []
    else Listed(segs[..|segs| - 1], files) + (if RefPath(segs[|segs| - 1]) in files then [segs[|segs| - 1]] else [])
  }

  function Lines(cwd: string, segs: seq<SegmentRef>): seq<string>
    requires Filed(segs)
  {
    if segs == [] then [] else Lines(cwd, segs[..|segs| - 1]) + [ManifestLine(cwd, RefPath(segs[|segs| - 1]))]
  }

  lemma {:induction false} ManifestIsListed(segs: seq<SegmentRef>, files: set<string>, cwd: string)
    requires Filed(segs)
    ensures ManifestLines(segs, files, cwd) == Lines(cwd, Listed(segs, files))
  {
    if segs != [] {
      var pre := segs[..|segs| - 1];
      ManifestIsListed(pre, files, cwd);
      var l := Listed(pre, files);
      if RefPath(segs[|segs| - 1]) in files {
        assert (l + [segs[|segs| - 1]])[..|l|] == l;
      } else {
        assert Listed(segs, files) == l;
      }
    }
  }

  lemma {:induction false} ListedOrdered(segs: seq<SegmentRef>, files: set<string>)
    requires Filed(segs) && Ordered(segs, PositionKey, false)
    ensures Ordered(Listed(segs, files), PositionKey, false)
    ensures forall i :: 0 <= i < |Listed(segs, files)| ==> Listed(segs, files)[i] in segs
  {
    ListedMembers(segs, files);
    if segs != [] {
      var pre, last := segs[..|segs| - 1], segs[|segs| - 1];
      OrderedInit(segs, PositionKey, false);
      ListedOrdered(pre, files);
      var l := Listed(pre, files);
      forall i | 0 <= i < |l| ensures Rank(PositionKey, false, l[i]) <= Rank(PositionKey, false, last) {
        var k :| 0 <= k < |pre| && pre[k] == l[i];
        assert segs[k] == l[i];
      }
      if RefPath(last) in files {
        OrderedSnoc(l, last, PositionKey, false);
      }
    }
  }

  lemma {:induction false} ListedMembers(segs: seq<SegmentRef>, files: set<string>)
    requires Filed(segs)
    ensures forall i :: 0 <= i < |Listed(segs, files)| ==> Listed(segs, files)[i] in segs
  {
    if segs != [] {
      var pre := segs[..|segs| - 1];
      ListedMembers(pre, files);
      var l := Listed(pre, files);
      forall i | 0 <= i < |l| ensures l[i] in segs {
        var k :| 0 <= k < |pre| && pre[k] == l[i];
        assert segs[k] == l[i];
      }
    }
  }

  /** Each segment appears in the listing as often as in the input when its file exists, and not at all otherwise. */
  lemma {:induction false} ListedCount(segs: seq<SegmentRef>, files: set<string>, x: SegmentRef)
    requires Filed(segs)
    ensures multiset(Listed(segs, files))[x] == if x.file.Some? && RefPath(x) in files then multiset(segs)[x] else 0
  {
    if segs != [] {
      var pre := segs[..|segs| - 1];
      ListedCount(pre, files, x);
      assert segs == pre + [segs[|segs| - 1]];
    }
  }

  /**
   * The manifest of a concat lists one `file '<absolute path>'` line per
   * segment whose file exists (the manifest itself included), in ascending
   * position order, each existing segment exactly as often as the action
   * names it.
   */
  lemma ManifestContents(segs: seq<SegmentRef>, files: set<string>, cwd: string)
    requires Filed(segs)
    ensures Filed(ByPosition(segs))
      && ManifestLines(ByPosition(segs), files, cwd) == Lines(cwd, Listed(ByPosition(segs), files))
      && Ordered(Listed(ByPosition(segs), files), PositionKey, false)
      && multiset(Listed(ByPosition(segs), files)) == multiset(Listed(segs, files))
  {
    var sorted := ByPosition(segs);
    FiledSorted(segs);
    ManifestIsListed(sorted, files, cwd);
    SortOrdered(segs, PositionKey, false);
    ListedOrdered(sorted, files);
    SortPermutes(segs, PositionKey, false);
    forall x ensures multiset(Listed(sorted, files))[x] == multiset(Listed(segs, files))[x] {
      ListedCount(sorted, files, x);
      ListedCount(segs, files, x);
    }
  }

  // ------------------------------------------------------------ plan mutation

  /**
   * The in-place sort leaves a concat action's segments ordered by
   * position, as a permutation of the original, with equal positions in
   * their original order, and changes nothing else about the action.
   */
  lemma SortedAction(a: Action, k: real)
    requires HasSegments(a) && Positioned(a.segments.value)
    ensures var s := Sorted(a).segments.value;
      Ordered(s, PositionKey, false)
      && multiset(s) == multiset(a.segments.value)
      && WithRank(s, PositionKey, false, k) == WithRank(a.segments.value, PositionKey, false, k)
    ensures Sorted(a).(segments := a.segments) == a
  {
    SortOrdered(a.segments.value, PositionKey, false);
    SortPermutes(a.segments.value, PositionKey, false);
    SortStable(a.segments.value, PositionKey, false, k);
  }
}

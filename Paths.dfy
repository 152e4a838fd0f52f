/**
 * The POSIX flavour of Python's `os.path` functions the pipeline uses to
 * name its output files: `basename`, the root half of `splitext`, and
 * `join`.  Paths are plain strings; nothing here touches a file system.
 */
module Paths {
  import opened Strings

  /** Index of the last `c` in `s`, or -1 (Python's `s.rfind(c)`). */
  function LastIndex(s: string, c: char): (r: int)
    ensures -1 <= r < |s|
    ensures r >= 0 ==> s[r] == c
    ensures forall i :: r < i < |s| ==> s[i] != c
  {
    if s == [] then -1
    else if s[|s| - 1] == c then |s| - 1
    else LastIndex(s[..|s| - 1], c)
  }

  /** `os.path.basename(p)`: everything after the last '/'. */
  function Basename(p: string): (r: string)
    ensures |r| <= |p| && r == p[|p| - |r|..]
    ensures '/' !in r
  {
    var k := LastIndex(p, '/');
    var r := p[k + 1..];
    assert forall j :: 0 <= j < |r| ==> r[j] != '/' by {
      forall j | 0 <= j < |r| ensures r[j] != '/' {
        assert r[j] == p[k + 1 + j];
      }
    }
    r
  }

  predicate AllDots(s: string)
  {
    forall i :: 0 <= i < |s| ==> s[i] == '.'
  }

  /**
   * `os.path.splitext(p)[0]`: `p` without its extension, where the
   * extension starts at the last '.' of the last component, unless that
   * component has only dots before it (".bashrc" has no extension).
   */
  function SplitextRoot(p: string): string
  {
    var sep := LastIndex(p, '/');
    var dot := LastIndex(p, '.');
    if dot > sep && !AllDots(p[sep + 1..dot]) then p[..dot] else p
  }

  /** `os.path.splitext(os.path.basename(path))[0]`: the file name without directory or extension. */
  function Stem(path: string): (r: string)
    ensures '/' !in r
  {
    var b := Basename(path);
    var r := SplitextRoot(b);
    assert r == b || r == b[..|r|];
    assert forall k :: 0 <= k < |r| ==> r[k] == b[k];
    r
  }

  /** `os.path.join(a, b)`: an absolute `b` replaces `a`; otherwise one '/' goes between them when needed. */
  function Join(a: string, b: string): (r: string)
    ensures StartsWith(b, "/") ==> r == b
    ensures !StartsWith(b, "/") ==> EndsWith(r, b)
  {
    if StartsWith(b, "/") then b
    else if a == [] || EndsWith(a, "/") then a + b
    else a + "/" + b
  }

  /** Joining a name without a leading '/' to a directory not ending in '/' puts exactly one '/' between them. */
  lemma JoinRelative(a: string, b: string)
    requires a != [] && !EndsWith(a, "/")
    requires b == [] || b[0] != '/'
    ensures Join(a, b) == a + "/" + b
  {
  }

  /** The last component of `dir/name` is `name` when `name` has no '/'. */
  lemma {:induction false} BasenameOfJoin(dir: string, name: string)
    requires '/' !in name
    ensures Basename(dir + "/" + name) == name
  {
    var p := dir + "/" + name;
    assert p[|dir|] == '/';
    assert forall i :: |dir| < i < |p| ==> p[i] == name[i - |dir| - 1];
    var k := LastIndex(p, '/');
    assert k == |dir|;
    assert p[k + 1..] == name;
  }

  /**
   * A name of the form `stem + ext`, where `ext` is '.' followed by
   * characters that are neither '.' nor '/', and `stem` ends with a character
   * other than '.' and '/', has `stem` as its splitext root.
   */
  lemma {:induction false} SplitextRootOfExt(stem: string, ext: string)
    requires '/' !in stem && stem != [] && stem[|stem| - 1] != '.'
    requires |ext| >= 1 && ext[0] == '.' && '/' !in ext && '.' !in ext[1..]
    ensures SplitextRoot(stem + ext) == stem
  {
    var p := stem + ext;
    assert p[|stem|] == '.';
    assert forall i :: |stem| < i < |p| ==> p[i] != '.' by {
      forall i | |stem| < i < |p| ensures p[i] != '.' {
        assert p[i] == ext[1..][i - |stem| - 1];
      }
    }
    var d := LastIndex(p, '.');
    assert d == |stem|;
    assert forall i :: 0 <= i < |p| ==> p[i] != '/' by {
      forall i | 0 <= i < |p| ensures p[i] != '/' {
        if i < |stem| { assert p[i] == stem[i]; } else { assert p[i] == ext[i - |stem|]; }
      }
    }
    assert LastIndex(p, '/') == -1;
    assert p[0..|stem|][|stem| - 1] == stem[|stem| - 1];
  }

  /** A file name without '/' joined to a directory is a direct child named by it. */
  lemma JoinName(dir: string, name: string)
    requires dir != [] && !EndsWith(dir, "/") && '/' !in name
    ensures Join(dir, name) == dir + "/" + name
    ensures Basename(Join(dir, name)) == name
  {
    assert name == [] || name[0] != '/';
    JoinRelative(dir, name);
    BasenameOfJoin(dir, name);
  }

  /** The stem of `dir/stem.ext` is `stem`. */
  lemma StemOfPath(dir: string, stem: string, ext: string)
    requires '/' !in stem && stem != [] && stem[|stem| - 1] != '.'
    requires |ext| >= 1 && ext[0] == '.' && '/' !in ext && '.' !in ext[1..]
    ensures Stem(dir + "/" + (stem + ext)) == stem
  {
    assert '/' !in stem + ext by {
      forall i | 0 <= i < |stem + ext| ensures (stem + ext)[i] != '/' {
        if i < |stem| { assert (stem + ext)[i] == stem[i]; } else { assert (stem + ext)[i] == ext[i - |stem|]; }
      }
    }
    BasenameOfJoin(dir, stem + ext);
    SplitextRootOfExt(stem, ext);
  }
}

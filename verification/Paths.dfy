/** Directory paths: the parent of a path, and every directory above it. */
module Paths {
  import opened Collections

  function TrimRight(path: string): (r: string)
    ensures r <= path
    ensures |r| > 0 ==> r[|r| - 1] != '/'
    decreases |path|
  {
    if |path| > 0 && path[|path| - 1] == '/' then TrimRight(path[..|path| - 1]) else path
  }

  /** The last index of a slash, or -1. */
  function LastSlash(path: string): (i: int)
    ensures -1 <= i < |path|
    ensures i >= 0 ==> path[i] == '/'
    ensures forall j | i < j < |path| :: path[j] != '/'
    decreases |path|
  {
    if |path| == 0 then -1
    else if path[|path| - 1] == '/' then |path| - 1
    else LastSlash(path[..|path| - 1])
  }

  /** "/" is its own parent, and the parent of whatever has no directory part. */
  function ParentDir(path: string): string {
    if path == "/" then "/"
    else
      var trimmed := TrimRight(path);
      var i := LastSlash(trimmed);
      if i <= 0 then "/" else trimmed[..i]
  }

  /** Slashes at the end of a path make no difference to its parent. */
  lemma SlashAtEnd(path: string)
    ensures ParentDir(path + "/") == ParentDir(path)
  {
    assert (path + "/")[..|path + "/"| - 1] == path;
    assert TrimRight(path + "/") == TrimRight(path);
    if path == "/" {
      assert path[..0] == "";
      assert TrimRight(path) == "";
    } else if path == "" {
      assert path + "/" == "/";
    }
  }

  predicate HasSlash(path: string) {
    exists j :: 0 <= j < |path| && path[j] == '/'
  }

  lemma LastSlashIs(path: string, i: nat)
    requires i < |path| && path[i] == '/' && forall j | i < j < |path| :: path[j] != '/'
    ensures LastSlash(path) == i
  {}

  /** On clean absolute paths the parent is what a file system means by it. */
  lemma ParentOfEntry(dir: string, name: string)
    requires |name| > 0 && !HasSlash(name)
    requires dir == "" || (|dir| > 1 && dir[|dir| - 1] != '/')
    ensures ParentDir(dir + "/" + name) == if dir == "" then "/" else dir
  {
    var path := dir + "/" + name;
    assert path[|dir|] == '/' && path[|path| - 1] == name[|name| - 1] && path != "/";
    assert forall j | |dir| < j < |path| :: path[j] == name[j - |dir| - 1];
    LastSlashIs(path, |dir|);
    assert path[..|dir|] == dir;
  }

  /** How far a path can be from the root. */
  function Distance(path: string): nat {
    if path == "/" then 0 else |path| + 1
  }

  /** Going up ends at the root, for any string at all. */
  lemma ParentIsCloser(path: string)
    requires path != "/"
    ensures Distance(ParentDir(path)) < Distance(path)
  {}

  /** `dir` and everything above it, ending with the root. */
  function UpFrom(dir: string): (dirs: seq<string>)
    ensures |dirs| > 0 && dirs[0] == dir && dirs[|dirs| - 1] == "/"
    ensures forall i, j | 0 <= i && j == i + 1 < |dirs| :: dirs[j] == ParentDir(dirs[i])
    decreases Distance(dir)
  {
    if dir == "/" then [dir]
    else
      ParentIsCloser(dir);
      [dir] + UpFrom(ParentDir(dir))
  }

  /** The directories a set of files needs: each file's directory and all above it. */
  function DirsOf(paths: set<string>): set<string> {
    set path, dir | path in paths && dir in UpFrom(ParentDir(path)) :: dir
  }

  lemma UpFromIsClosed(dir: string, d: string)
    requires d in UpFrom(dir)
    ensures ParentDir(d) in UpFrom(dir)
    decreases Distance(dir)
  {
    if dir != "/" {
      ParentIsCloser(dir);
      if d != dir {
        UpFromIsClosed(ParentDir(dir), d);
      }
    }
  }

  /** The needed directories are the smallest set with every file's own that is closed upwards. */
  lemma DirsAreLeast(paths: set<string>, other: set<string>)
    requires forall path | path in paths :: ParentDir(path) in other
    requires forall d | d in other :: ParentDir(d) in other
    ensures DirsOf(paths) <= other
    ensures forall path | path in paths :: ParentDir(path) in DirsOf(paths)
    ensures forall d | d in DirsOf(paths) :: ParentDir(d) in DirsOf(paths)
  {
    forall d | d in DirsOf(paths) ensures d in other && ParentDir(d) in DirsOf(paths) {
      var path :| path in paths && d in UpFrom(ParentDir(path));
      UpFromStays(ParentDir(path), d, other);
      UpFromIsClosed(ParentDir(path), d);
    }
    forall path | path in paths ensures ParentDir(path) in DirsOf(paths) {
      assert ParentDir(path) == UpFrom(ParentDir(path))[0];
      assert path in paths && ParentDir(path) in UpFrom(ParentDir(path));
    }
  }

  lemma {:induction false} UpFromStays(dir: string, d: string, other: set<string>)
    requires d in UpFrom(dir) && dir in other
    requires forall e | e in other :: ParentDir(e) in other
    ensures d in other
    decreases Distance(dir)
  {
    if dir != "/" && d != dir {
      ParentIsCloser(dir);
      UpFromStays(ParentDir(dir), d, other);
    }
  }

  // ------------------------------------------------------------------
  // Clean paths

  predicate SlashesApart(path: string, j: nat)
    requires j + 1 < |path|
  {
    path[j] == '/' ==> path[j + 1] != '/'
  }

  /** The path of a file when it is clean, absolute or relative: no empty element, and no slash at the end. */
  ghost predicate IsClean(path: string) {
    && |path| > 0 && path[|path| - 1] != '/'
    && forall j: nat | j + 1 < |path| :: SlashesApart(path, j)
  }

  /** `d` and a slash are what the path begins with. */
  predicate IsAbove(d: string, path: string) {
    d != "" && d + "/" <= path
  }

  /** Cutting a clean path at its last slash leaves a clean one. */
  lemma CutIsClean(path: string, i: nat)
    requires IsClean(path) && 0 < i < |path| && path[i] == '/'
    ensures IsClean(path[..i])
  {
    assert SlashesApart(path, i - 1);
    forall j: nat | j + 1 < i ensures SlashesApart(path[..i], j) {
      assert SlashesApart(path, j);
    }
  }

  lemma AboveEndsAtSlash(d: string, path: string)
    requires IsAbove(d, path)
    ensures 0 < |d| < |path| && path[|d|] == '/' && d == path[..|d|]
  {
    assert path[|d|] == (d + "/")[|d|];
  }

  /** What is above a path is the part up to the last slash, or above that. */
  lemma AboveCut(path: string, i: nat, d: string)
    requires 0 < i < |path| && path[i] == '/' && forall j | i < j < |path| :: path[j] != '/'
    ensures IsAbove(d, path) <==> d == path[..i] || IsAbove(d, path[..i])
  {
    var q := path[..i];
    if IsAbove(d, path) {
      AboveEndsAtSlash(d, path);
      if |d| < i {
        assert d + "/" == q[..|d| + 1];
      }
    }
    if d == q {
      assert d + "/" == path[..i + 1];
    } else if IsAbove(d, q) {
      assert d + "/" == q[..|d| + 1] == path[..|d| + 1];
    }
  }

  lemma {:induction false} UpFromIs(path: string, d: string)
    requires IsClean(path)
    ensures d in UpFrom(ParentDir(path)) <==> d == "/" || IsAbove(d, path)
    decreases |path|
  {
    hide IsClean;
    CleanIsTrimmed(path);
    var i := LastSlash(path);
    if i <= 0 {
      assert UpFrom("/") == ["/"];
      if IsAbove(d, path) {
        AboveEndsAtSlash(d, path);
      }
    } else {
      var q := path[..i];
      CutIsClean(path, i);
      CleanIsTrimmed(q);
      UpFromIs(q, d);
      AboveCut(path, i, d);
      assert d in UpFrom(q) <==> d == q || d in UpFrom(ParentDir(q));
    }
  }

  lemma CleanIsTrimmed(path: string)
    requires IsClean(path)
    ensures TrimRight(path) == path && path != "/"
  {}

  /** For clean paths the needed directories are the root and what some path begins with, up to a slash. */
  lemma DirsAre(paths: set<string>, d: string)
    requires paths != {} && forall path | path in paths :: IsClean(path)
    ensures d in DirsOf(paths) <==> d == "/" || exists path :: path in paths && IsAbove(d, path)
    ensures d in DirsOf(paths) && d != "/" ==> IsClean(d)
  {
    hide IsClean, IsAbove, UpFrom, ParentDir;
    forall path | path in paths ensures d in UpFrom(ParentDir(path)) <==> d == "/" || IsAbove(d, path) {
      UpFromIs(path, d);
    }
    if d == "/" {
      var some := ElementOf(paths);
      assert d in UpFrom(ParentDir(some));
    }
    if path :| path in paths && IsAbove(d, path) {
      assert d in UpFrom(ParentDir(path));
      AboveIsClean(path, d);
    }
  }

  lemma AboveIsClean(path: string, d: string)
    requires IsClean(path) && IsAbove(d, path)
    ensures IsClean(d)
  {
    AboveEndsAtSlash(d, path);
    CutIsClean(path, |d|);
  }

  // ------------------------------------------------------------------
  // The loops

  /** What going up from one path adds. */
  method AddDirsAbove(path: string, before: set<string>) returns (dirs: set<string>)
    ensures forall d :: d in dirs <==> d in before || d in UpFrom(ParentDir(path))
  {
    dirs := before;
    var dir := ParentDir(path);
    while dir != "/"
      invariant forall d :: d in dirs || d in UpFrom(dir) <==> d in before || d in UpFrom(ParentDir(path))
      decreases Distance(dir)
    {
      dirs := dirs + {dir};
      ParentIsCloser(dir);
      assert forall d :: d in UpFrom(dir) <==> d == dir || d in UpFrom(ParentDir(dir));
      dir := ParentDir(dir);
    }
    dirs := dirs + {dir};
    assert UpFrom("/") == ["/"];
  }

  /** The directories above all of `paths`, each found by going up until the root. */
  method CollectDirs(paths: map<int, string>) returns (dirs: set<string>)
    ensures dirs == DirsOf(paths.Values)
  {
    dirs := {};
    var left := paths.Keys;
    ghost var done: set<string> := {};
    while left != {}
      invariant left <= paths.Keys && done == Image(paths, paths.Keys - left)
      invariant forall d :: d in dirs <==> d in DirsOf(done)
    {
      ghost var some := ElementOf(left);
      var id :| id in left;
      var path := paths[id];
      ImageOfOneMore(paths, paths.Keys - left, id);
      assert paths.Keys - left + {id} == paths.Keys - (left - {id});
      left := left - {id};
      dirs := AddDirsAbove(path, dirs);
      DirsOfOneMore(done, path);
      done := done + {path};
    }
    ImageOfAll(paths);
  }

  lemma DirsOfOneMore(paths: set<string>, path: string)
    ensures forall d :: d in DirsOf(paths + {path}) <==> d in DirsOf(paths) || d in UpFrom(ParentDir(path))
  {
    forall d | d in UpFrom(ParentDir(path)) ensures d in DirsOf(paths + {path}) {
      assert path in paths + {path} && d in UpFrom(ParentDir(path));
    }
  }
}

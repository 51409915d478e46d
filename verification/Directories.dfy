/**
 Directory symbols: one symbol and one sentinel for each directory above a file, the
 sentinels' references forming a tree with the root directory on top.
 */
module Directories {
  import opened Collections
  import opened Containment
  import opened Entities
  import opened Forest
  import opened Paths
  import opened Store
  import opened StoreInvariant
  import opened Shape

  // ------------------------------------------------------------------
  // Files get their directory's instance

  /** The instance of its directory that file `id` gets. */
  function DirInstance(
      dirOf: map<int, string>, dirs: seq<string>, first: int, id: int, length: int): seq<InstanceInfo> {
    if id in dirOf && DirIndex(dirs, dirOf[id]) >= 0
    then [WholeInstance(first + DirIndex(dirs, dirOf[id]), InstanceType.Containment, length)] else []
  }

  /** Each listed file gets one instance more of its directory, the other objects none. */
  lemma {:induction false} DirInstancesAt(
      objects: seq<ObjectRec>, dirOf: map<int, string>, dirs: seq<string>, first: int, files: seq<int>, o: int)
    requires forall i, j | 0 <= i < j < |files| :: files[i] != files[j]
    requires 0 <= o < |objects|
    ensures var r := WithDirInstances(objects, dirOf, dirs, first, files)[o];
            && r.path == objects[o].path && r.content == objects[o].content && r.refs == objects[o].refs
            && r.insts == objects[o].insts
                 + if o + 1 in files then DirInstance(dirOf, dirs, first, o + 1, |objects[o].content|) else []
    decreases |files|
  {
    if |files| > 0 {
      var rest, last := files[..|files| - 1], files[|files| - 1];
      DirInstancesAt(objects, dirOf, dirs, first, rest, o);
      assert o + 1 in files <==> o + 1 in rest || o + 1 == last;
      assert o + 1 == last ==> o + 1 !in rest;
    }
  }

  // ------------------------------------------------------------------
  // Sentinels get a reference for each child

  /** The reference to `child` that the sentinel of `dir` gets, if it is the directory above. */
  function EdgeRef(
      up: string -> string, dirs: seq<string>, firstSymbol: int, dir: string, child: string): seq<RefInfo> {
    if up(child) == dir && child != dir && DirIndex(dirs, child) >= 0
    then [RefInfo(firstSymbol + DirIndex(dirs, child), 0, 0, None)] else []
  }

  /** The references that the sentinel of `dir` gets, in the order of `children`. */
  function ChildRefs(
      up: string -> string, dirs: seq<string>, firstSymbol: int, dir: string, children: seq<string>): seq<RefInfo>
    decreases |children|
  {
    if |children| == 0 then []
    else
      ChildRefs(up, dirs, firstSymbol, dir, children[..|children| - 1])
      + EdgeRef(up, dirs, firstSymbol, dir, children[|children| - 1])
  }

  lemma DirIndexIsInverse(dirs: seq<string>, i: nat)
    requires i < |dirs| && forall a, b | 0 <= a < b < |dirs| :: dirs[a] != dirs[b]
    ensures DirIndex(dirs, dirs[i]) == i
  {
    assert dirs[i] in dirs;
  }

  lemma EdgeAdded(
      up: string -> string, before: seq<ObjectRec>, dirs: seq<string>, firstSymbol: int, firstObject: int,
      child: string, o: int)
    requires 0 <= o < |before| && 0 < firstObject && firstObject + |dirs| == |before| + 1
    requires forall a, b | 0 <= a < b < |dirs| :: dirs[a] != dirs[b]
    ensures var after := WithDirRef(up, before, dirs, firstSymbol, firstObject, child);
            && |after| == |before| && after[o].(refs := []) == before[o].(refs := [])
            && after[o].refs == before[o].refs
                 + if o + 1 >= firstObject then EdgeRef(up, dirs, firstSymbol, dirs[o + 1 - firstObject], child) else []
  {
    assert before[o].refs + [] == before[o].refs;
    if o + 1 >= firstObject {
      DirIndexIsInverse(dirs, o + 1 - firstObject);
    }
  }

  lemma {:induction false} DirRefsAt(
      up: string -> string, objects: seq<ObjectRec>, dirs: seq<string>, firstSymbol: int, firstObject: int,
      children: seq<string>, o: int)
    requires 0 <= o < |objects| && 0 < firstObject && firstObject + |dirs| == |objects| + 1
    requires forall a, b | 0 <= a < b < |dirs| :: dirs[a] != dirs[b]
    ensures var r := WithDirRefs(up, objects, dirs, firstSymbol, firstObject, children)[o];
            && r.(refs := []) == objects[o].(refs := [])
            && r.refs == objects[o].refs
                 + if o + 1 < firstObject then []
                   else ChildRefs(up, dirs, firstSymbol, dirs[o + 1 - firstObject], children)
    decreases |children|
  {
    if |children| > 0 {
      var rest, child := children[..|children| - 1], children[|children| - 1];
      var before := WithDirRefs(up, objects, dirs, firstSymbol, firstObject, rest);
      assert WithDirRefs(up, objects, dirs, firstSymbol, firstObject, children)
          == WithDirRef(up, before, dirs, firstSymbol, firstObject, child);
      DirRefsAt(up, objects, dirs, firstSymbol, firstObject, rest, o);
      EdgeAdded(up, before, dirs, firstSymbol, firstObject, child, o);
    }
  }

  // ------------------------------------------------------------------
  // The whole step

  /** The three maps are ranged over completely: the needed directories twice, and the files. */
  ghost predicate Ranges(p: Project, dirs: seq<string>, files: seq<int>, children: seq<string>) {
    && Enumerates(dirs, DirsOf(p.files.pathByID.Values))
    && Enumerates(children, DirsOf(p.files.pathByID.Values))
    && Enumerates(files, p.files.pathByID.Keys)
  }

  lemma FileHasDirectory(p: Project, dirs: seq<string>, f: int)
    requires Enumerates(dirs, DirsOf(p.files.pathByID.Values)) && f in p.files.pathByID
    ensures f in DirOfFiles(p.files.pathByID) && DirIndex(dirs, DirOfFiles(p.files.pathByID)[f]) >= 0
  {
    DirsContainParents(p.files.pathByID.Values, p.files.pathByID[f]);
    assert ParentDir(p.files.pathByID[f]) in dirs;
  }

  lemma DirsContainParents(paths: set<string>, path: string)
    requires path in paths
    ensures ParentDir(path) in DirsOf(paths)
  {
    assert ParentDir(path) == UpFrom(ParentDir(path))[0];
    assert path in paths && ParentDir(path) in UpFrom(ParentDir(path));
  }

  /** What the step leaves in a file's object. */
  lemma FileAfter(
      up: string -> string, objects: seq<ObjectRec>, dirOf: map<int, string>, firstSymbol: int,
      dirs: seq<string>, files: seq<int>, children: seq<string>, o: int)
    requires forall a, b | 0 <= a < b < |dirs| :: dirs[a] != dirs[b]
    requires forall i, j | 0 <= i < j < |files| :: files[i] != files[j]
    requires 0 <= o < |objects| && o + 1 in files
    ensures var r := WithDirectories(up, objects, dirOf, firstSymbol, dirs, files, children)[o];
            && r.content == objects[o].content && r.refs == objects[o].refs && r.path == objects[o].path
            && r.insts == objects[o].insts + DirInstance(dirOf, dirs, firstSymbol, o + 1, |objects[o].content|)
  {
    hide WithDirInstances, WithDirRefs, DirInstance, ChildRefs;
    var a := objects + Sentinels(firstSymbol, dirs);
    var b := WithDirInstances(a, dirOf, dirs, firstSymbol, files);
    hide Sentinels;
    DirInstancesAt(a, dirOf, dirs, firstSymbol, files, o);
    DirRefsAt(up, b, dirs, firstSymbol, |objects| + 1, children, o);
  }

  /** What the step creates for directory `i`. */
  lemma SentinelAfter(
      up: string -> string, objects: seq<ObjectRec>, dirOf: map<int, string>, firstSymbol: int,
      dirs: seq<string>, files: seq<int>, children: seq<string>, i: nat)
    requires forall a, b | 0 <= a < b < |dirs| :: dirs[a] != dirs[b]
    requires forall i, j | 0 <= i < j < |files| :: files[i] != files[j]
    requires i < |dirs| && forall f | f in files :: IsObject(objects, f)
    ensures WithDirectories(up, objects, dirOf, firstSymbol, dirs, files, children)[|objects| + i]
            == ObjectRec(dirs[i], [], [WholeInstance(firstSymbol + i, InstanceType.Sentinel, 0)],
                         ChildRefs(up, dirs, firstSymbol, dirs[i], children))
  {
    hide WithDirInstances, WithDirRefs, DirInstance, ChildRefs;
    var a := objects + Sentinels(firstSymbol, dirs);
    var b := WithDirInstances(a, dirOf, dirs, firstSymbol, files);
    var o := |objects| + i;
    assert a[o] == Sentinels(firstSymbol, dirs)[i];
    assert a[o] == ObjectRec(dirs[i], [], [WholeInstance(firstSymbol + i, InstanceType.Sentinel, 0)], []);
    assert o + 1 !in files;
    hide Sentinels, WholeInstance;
    DirInstancesAt(a, dirOf, dirs, firstSymbol, files, o);
    DirRefsAt(up, b, dirs, firstSymbol, |objects| + 1, children, o);
  }

  lemma CreateDirectorySymbolsShaped(p: Project, dirs: seq<string>, files: seq<int>, children: seq<string>)
    requires Invariant(p) && Shaped(p) && !p.directoriesCreated && |dirs| > 0 && Ranges(p, dirs, files, children)
    ensures var q := CreateDirectorySymbols(p, dirs, files, children);
            KeepsFiles(p, q) && Shaped(q) && forall f | f in p.files.pathByID :: HasDirectory(q, f)
  {
    var q := CreateDirectorySymbols(p, dirs, files, children);
    forall f | f in p.files.pathByID
      ensures FileIsShaped(q, f) && (HasModule(p, f) ==> HasModule(q, f)) && HasDirectory(q, f)
    {
      DirectoryAtFile(p, dirs, files, children, f);
    }
  }

  lemma FileFacts(p: Project, f: int)
    requires Invariant(p) && Shaped(p) && f in p.files.pathByID
    ensures FileIsShaped(p, f) && NamesKnown(|p.symbols.list|, p.objects[f - 1])
    ensures !IsTaken(p.instances, Slot(f, |p.objects[f - 1].insts|))
  {
    assert FileIsShaped(p, f);
    assert NamesKnown(|p.symbols.list|, p.objects[f - 1]);
    NothingTakenBeyond(p, f, |p.objects[f - 1].insts|);
  }

  /** The instance that the step appends on file `f` is of the symbol of the file's own directory. */
  lemma DirectoryOnFile(
      p: Project, dirs: seq<string>, files: seq<int>, children: seq<string>, f: int) returns (symbol: int)
    requires !p.directoriesCreated && |dirs| > 0 && Ranges(p, dirs, files, children)
    requires f in p.files.pathByID && IsObject(p.objects, f)
    ensures var q := CreateDirectorySymbols(p, dirs, files, children);
            && |q.objects| == |p.objects| + |dirs| && 0 < symbol <= |q.symbols.list|
            && q.symbols.list[symbol - 1] == Symbol(symbol, ParentDir(p.files.pathByID[f]), NoScope, Directory)
            && q.objects[f - 1] == p.objects[f - 1].(insts := p.objects[f - 1].insts
                 + [InstanceInfo(symbol, InstanceType.Containment, 0, ToInt32(|p.objects[f - 1].content|), false,
                                 None, None, None)])
  {
    hide DirsOf, WithDirectories, ParentDir;
    var dirOf := DirOfFiles(p.files.pathByID);
    assert f in files;
    FileHasDirectory(p, dirs, f);
    FileAfter(ParentDir, p.objects, dirOf, |p.symbols.list| + 1, dirs, files, children, f - 1);
    var i := DirIndex(dirs, dirOf[f]);
    assert DirSymbols(|p.symbols.list| + 1, dirs)[i] == Symbol(|p.symbols.list| + 1 + i, dirs[i], NoScope, Directory);
    symbol := |p.symbols.list| + 1 + i;
  }

  lemma DirectoryAtFile(p: Project, dirs: seq<string>, files: seq<int>, children: seq<string>, f: int)
    requires Invariant(p) && Shaped(p) && !p.directoriesCreated && |dirs| > 0 && Ranges(p, dirs, files, children)
    requires f in p.files.pathByID
    ensures var q := CreateDirectorySymbols(p, dirs, files, children);
            FileIsShaped(q, f) && (HasModule(p, f) ==> HasModule(q, f)) && HasDirectory(q, f)
  {
    var q := CreateDirectorySymbols(p, dirs, files, children);
    FileFacts(p, f);
    var symbol := DirectoryOnFile(p, dirs, files, children, f);
    DirectoryAtObject(p.symbols.list, q.symbols.list, p.instances, f, p.objects[f - 1], q.objects[f - 1],
                      symbol, ModuleDone(p.modules, f));
  }

  /** A file's object with its directory's instance appended. */
  lemma DirectoryAtObject(
      list: seq<Symbol>, more: seq<Symbol>, t: InstanceTable, f: int, o: ObjectRec, r: ObjectRec, symbol: int, m: bool)
    requires IsShaped(list, t, f, o, m, false) && NamesKnown(|list|, o) && list <= more
    requires !IsTaken(t, Slot(f, |o.insts|)) && KindOf(more, symbol) == Directory && r.content == o.content
    requires r.insts == o.insts + [WholeInstance(symbol, InstanceType.Containment, |o.content|)]
    ensures IsShaped(more, t, f, r, m, true) && HasWhole(more, t, f, r, Directory)
    ensures HasWhole(list, t, f, o, Module) ==> HasWhole(more, t, f, r, Module)
  {
    var info := WholeInstance(symbol, InstanceType.Containment, |o.content|);
    SameInstancesShaped(list, more, t, f, o, o, m, m, false, false);
    WholeAppendedShaped(more, t, f, o, info, m, m, false, true);
    SameInstancesShapedAgain(more, t, f, o.(insts := o.insts + [info]), r, m, true);
  }

  /** Only instances and content matter for the shape. */
  lemma SameInstancesShapedAgain(
      list: seq<Symbol>, t: InstanceTable, f: int, o: ObjectRec, r: ObjectRec, m: bool, d: bool)
    requires IsShaped(list, t, f, o, m, d) && r.insts == o.insts && r.content == o.content
    ensures IsShaped(list, t, f, r, m, d)
    ensures forall kind :: HasWhole(list, t, f, o, kind) ==> HasWhole(list, t, f, r, kind)
  {
    forall k ensures IsWhole(t, f, r, k) <==> IsWhole(t, f, o, k) {}
    forall kind | HasWhole(list, t, f, o, kind) ensures HasWhole(list, t, f, r, kind) {
      var k :| IsWhole(t, f, o, k) && KindOf(list, o.insts[k].symbolLocalId) == kind;
      assert IsWhole(t, f, r, k);
    }
  }

  // ------------------------------------------------------------------
  // The tree of directories

  /** The directory above each one, by position; -1 above the root. */
  ghost function DirParents(dirs: seq<string>): (parent: seq<int>)
    ensures |parent| == |dirs| && IsParents(parent)
  {
    seq(|dirs|, i requires 0 <= i < |dirs| => if dirs[i] == "/" then -1 else DirIndex(dirs, ParentDir(dirs[i])))
  }

  /** How often `refs` name the symbol `id`. */
  ghost function Uses(refs: seq<RefInfo>, id: int): nat {
    if |refs| == 0 then 0 else Uses(refs[1..], id) + if refs[0].toSymbolLocalId == id then 1 else 0
  }

  lemma {:induction false} UsesAppend(a: seq<RefInfo>, b: seq<RefInfo>, id: int)
    ensures Uses(a + b, id) == Uses(a, id) + Uses(b, id)
  {
    if |a| == 0 {
      assert a + b == b;
    } else {
      UsesAppend(a[1..], b, id);
      assert (a + b)[1..] == a[1..] + b;
    }
  }

  /** The sentinel of `dir` refers to directory `j` once if it is the one above it, and else not at all. */
  lemma {:induction false} ChildRefsAreEdges(
      up: string -> string, dirs: seq<string>, firstSymbol: int, dir: string, children: seq<string>, j: nat)
    requires j < |dirs| && forall a, b | 0 <= a < b < |dirs| :: dirs[a] != dirs[b]
    requires forall a, b | 0 <= a < b < |children| :: children[a] != children[b]
    ensures Uses(ChildRefs(up, dirs, firstSymbol, dir, children), firstSymbol + j)
            == if dirs[j] in children && dirs[j] != dir && up(dirs[j]) == dir then 1 else 0
    decreases |children|
  {
    if |children| > 0 {
      var rest, child := children[..|children| - 1], children[|children| - 1];
      ChildRefsAreEdges(up, dirs, firstSymbol, dir, rest, j);
      UsesAppend(ChildRefs(up, dirs, firstSymbol, dir, rest), EdgeRef(up, dirs, firstSymbol, dir, child),
                 firstSymbol + j);
      DirIndexIsInverse(dirs, j);
      assert dirs[j] in children <==> dirs[j] in rest || dirs[j] == child;
      assert dirs[j] == child ==> dirs[j] !in rest;
    }
  }

  /** Going up from any directory ends at the root, which is one of them. */
  lemma {:induction false} DirParentsReachRoot(dirs: seq<string>, paths: set<string>, i: nat)
    requires Enumerates(dirs, DirsOf(paths)) && i < |dirs|
    ensures Rooted(DirParents(dirs), i) && "/" in dirs
    decreases Distance(dirs[i])
  {
    var up := DirParents(dirs);
    NoneIsRooted(up);
    assert dirs[i] in DirsOf(paths);
    if dirs[i] != "/" {
      ParentIsCloser(dirs[i]);
      DirsClosed(paths, dirs[i]);
      assert ParentDir(dirs[i]) in dirs;
      DirParentsReachRoot(dirs, paths, up[i]);
    } else {
      assert dirs[i] in dirs;
    }
    RootedStep(up, i);
  }

  lemma DirsClosed(paths: set<string>, d: string)
    requires d in DirsOf(paths)
    ensures ParentDir(d) in DirsOf(paths)
  {
    var path :| path in paths && d in UpFrom(ParentDir(path));
    UpFromIsClosed(ParentDir(path), d);
    assert path in paths && ParentDir(d) in UpFrom(ParentDir(path));
  }

  /** How often sentinel `i` refers to directory `j`. */
  lemma EdgesOf(
      up: string -> string, objects: seq<ObjectRec>, dirOf: map<int, string>, firstSymbol: int,
      dirs: seq<string>, files: seq<int>, children: seq<string>, i: nat, j: nat)
    requires forall a, b | 0 <= a < b < |dirs| :: dirs[a] != dirs[b]
    requires forall a, b | 0 <= a < b < |children| :: children[a] != children[b]
    requires forall a, b | 0 <= a < b < |files| :: files[a] != files[b]
    requires i < |dirs| && j < |dirs| && forall f | f in files :: IsObject(objects, f)
    ensures var o := WithDirectories(up, objects, dirOf, firstSymbol, dirs, files, children)[|objects| + i];
            && o.path == dirs[i]
            && Uses(o.refs, firstSymbol + j)
               == if dirs[j] in children && dirs[j] != dirs[i] && up(dirs[j]) == dirs[i] then 1 else 0
  {
    SentinelAfter(up, objects, dirOf, firstSymbol, dirs, files, children, i);
    ChildRefsAreEdges(up, dirs, firstSymbol, dirs[i], children, j);
  }

  lemma FilesAreObjects(p: Project, files: seq<int>)
    requires FilesAgree(p.files, p.objects) && Enumerates(files, p.files.pathByID.Keys)
    ensures forall f | f in files :: IsObject(p.objects, f)
  {
    forall f | f in files ensures IsObject(p.objects, f) {
      assert f in p.files.pathByID;
    }
  }

  /** The objects after the step. */
  lemma CreatedObjects(p: Project, dirs: seq<string>, files: seq<int>, children: seq<string>)
    requires !p.directoriesCreated && |dirs| > 0
    ensures CreateDirectorySymbols(p, dirs, files, children).objects
            == WithDirectories(ParentDir, p.objects, DirOfFiles(p.files.pathByID), |p.symbols.list| + 1,
                               dirs, files, children)
  {
    hide WithDirectories, DirSymbols;
  }

  lemma RangesOnce(p: Project, dirs: seq<string>, files: seq<int>, children: seq<string>)
    requires Ranges(p, dirs, files, children)
    ensures forall i, j | 0 <= i < j < |dirs| :: dirs[i] != dirs[j]
    ensures forall i, j | 0 <= i < j < |files| :: files[i] != files[j]
    ensures forall i, j | 0 <= i < j < |children| :: children[i] != children[j]
  {
    hide Enumerates, DirsOf;
    EnumeratesOnce(dirs, DirsOf(p.files.pathByID.Values));
    EnumeratesOnce(children, DirsOf(p.files.pathByID.Values));
    EnumeratesOnce(files, p.files.pathByID.Keys);
  }

  /** One symbol and one empty object for each directory needed, next to each other in order. */
  lemma DirectoriesAreCreated(p: Project, dirs: seq<string>, files: seq<int>, children: seq<string>, i: nat)
    requires FilesAgree(p.files, p.objects) && !p.directoriesCreated && Ranges(p, dirs, files, children) && i < |dirs|
    ensures var q := CreateDirectorySymbols(p, dirs, files, children);
            var symbol := |p.symbols.list| + 1 + i;
            && |q.symbols.list| == |p.symbols.list| + |dirs| && |q.objects| == |p.objects| + |dirs|
            && q.symbols.list[symbol - 1] == Symbol(symbol, dirs[i], NoScope, Directory)
            && q.objects[|p.objects| + i].path == dirs[i] && q.objects[|p.objects| + i].content == []
            && q.objects[|p.objects| + i].insts
               == [InstanceInfo(symbol, InstanceType.Sentinel, 0, 0, false, None, None, None)]
  {
    hide DirsOf, Enumerates, DirIndex, WithDirectories, Sentinels, ChildRefs, ParentDir, FilesAgree;
    RangesOnce(p, dirs, files, children);
    FilesAreObjects(p, files);
    SentinelAfter(ParentDir, p.objects, DirOfFiles(p.files.pathByID), |p.symbols.list| + 1, dirs, files, children, i);
    assert DirSymbols(|p.symbols.list| + 1, dirs)[i] == Symbol(|p.symbols.list| + 1 + i, dirs[i], NoScope, Directory);
  }

  /** Every directory but the root is referred to exactly once, from the sentinel of the one above it. */
  lemma DirectoriesFormATree(p: Project, dirs: seq<string>, files: seq<int>, children: seq<string>, i: nat, j: nat)
    requires FilesAgree(p.files, p.objects) && !p.directoriesCreated && Ranges(p, dirs, files, children)
    requires i < |dirs| && j < |dirs|
    ensures |CreateDirectorySymbols(p, dirs, files, children).objects| == |p.objects| + |dirs|
    ensures var q := CreateDirectorySymbols(p, dirs, files, children);
            Uses(q.objects[|p.objects| + i].refs, |p.symbols.list| + 1 + j) == if DirParents(dirs)[j] == i then 1 else 0
  {
    hide DirsOf, Enumerates, DirIndex, WithDirectories, CreateDirectorySymbols, DirParents, ParentDir, FilesAgree;
    CreatedObjects(p, dirs, files, children);
    RangesOnce(p, dirs, files, children);
    FilesAreObjects(p, files);
    ParentIsAmong(dirs, p.files.pathByID.Values, children, i, j);
    EdgesOf(ParentDir, p.objects, DirOfFiles(p.files.pathByID), |p.symbols.list| + 1, dirs, files, children, i, j);
  }

  /** Going up from any of them ends, and only at the root directory. */
  lemma DirectoriesHangFromRoot(dirs: seq<string>, paths: set<string>)
    requires Enumerates(dirs, DirsOf(paths))
    ensures IsForest(DirParents(dirs))
    ensures forall j | 0 <= j < |dirs| :: DirParents(dirs)[j] == -1 <==> dirs[j] == "/"
  {
    forall k | 0 <= k < |dirs| ensures Rooted(DirParents(dirs), k) {
      DirParentsReachRoot(dirs, paths, k);
    }
    forall j | 0 <= j < |dirs| ensures DirParents(dirs)[j] == -1 <==> dirs[j] == "/" {
      ParentIsAmong(dirs, paths, dirs, j, j);
    }
  }

  lemma ParentIsAmong(dirs: seq<string>, paths: set<string>, children: seq<string>, i: nat, j: nat)
    requires Enumerates(dirs, DirsOf(paths)) && Enumerates(children, DirsOf(paths)) && i < |dirs| && j < |dirs|
    ensures DirParents(dirs)[j] == -1 <==> dirs[j] == "/"
    ensures DirParents(dirs)[j] == i <==> dirs[j] in children && dirs[j] != dirs[i] && ParentDir(dirs[j]) == dirs[i]
  {
    assert dirs[j] in dirs;
    if dirs[j] != "/" {
      DirsClosed(paths, dirs[j]);
      assert ParentDir(dirs[j]) in dirs;
      DirIndexIsInverse(dirs, i);
      ParentIsCloser(dirs[j]);
    }
  }
}

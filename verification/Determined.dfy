/**
 Finalising twice: the second time nothing is left to create, and the numbers, which depend
 on nothing but the project, come out the same.
 */
module Determined {
  import opened Collections
  import opened Containment
  import opened Forest
  import opened Entities
  import opened Numbering
  import opened Paths
  import opened Store
  import opened Runs

  function FlagsOf(insts: seq<InstanceInfo>): (flags: seq<bool>)
    ensures |flags| == |insts|
  {
    seq(|insts|, k requires 0 <= k < |insts| => insts[k].folded)
  }

  function TokensOf(refs: seq<RefInfo>): (ranges: seq<Range>)
    ensures |ranges| == |refs|
  {
    seq(|refs|, k requires 0 <= k < |refs| => Range(refs[k].start, refs[k].end))
  }

  /** The numbers that object `o` of the project gets. */
  ghost predicate AreObjectNumbers(p: Project, o: nat, num: seq<Place>, points: seq<Point>)
    requires o < |p.objects|
  {
    var insts := p.objects[o].insts;
    AreNumbers(Extents(insts, RankBySymbol(p.symbols.list)), StatedOf(p.instances, o + 1, |insts|), FlagsOf(insts),
               TokensOf(p.objects[o].refs), num, points)
  }

  /** Every module has its symbol. */
  predicate ModulesCreated(t: ModuleTable) {
    forall m | m in t.byID :: t.byID[m].symbolID != 0
  }

  lemma {:induction false} EachModuleCreated(p: Project, modules: seq<int>)
    requires forall m | m in modules :: m in p.modules.byID
    ensures var q := CreateEachModule(p, modules);
            && q.files == p.files
            && (forall m | m in modules :: q.modules.byID[m].symbolID != 0)
            && (forall m | m in p.modules.byID && p.modules.byID[m].symbolID != 0 :: q.modules.byID[m].symbolID != 0)
    decreases |modules|
  {
    if |modules| > 0 {
      EachModuleCreated(p, modules[..|modules| - 1]);
    }
  }

  lemma {:induction false} NoModuleLeft(p: Project, modules: seq<int>)
    requires ModulesCreated(p.modules) && forall m | m in modules :: m in p.modules.byID
    ensures CreateEachModule(p, modules) == p
    decreases |modules|
  {
    if |modules| > 0 {
      NoModuleLeft(p, modules[..|modules| - 1]);
    }
  }

  lemma NoDirectoryLeft(p: Project, dirs: seq<string>, other: seq<string>, files: seq<int>, children: seq<string>)
    requires p.directoriesCreated || |dirs| == 0
    requires Enumerates(dirs, DirsOf(p.files.pathByID.Values)) && Enumerates(other, DirsOf(p.files.pathByID.Values))
    ensures CreateDirectorySymbols(p, other, files, children) == p
  {
    if |other| > 0 {
      EnumeratesSome(other, DirsOf(p.files.pathByID.Values));
    }
  }

  /** Right after a Marshal, another one changes nothing, in whatever order it ranges over the maps. */
  lemma SecondMarshalChangesNothing(p: Project, first: Op, second: Op)
    requires first.CallMarshal? && Possible(p, first)
    requires second.CallMarshal? && Possible(Apply(p, first), second)
    ensures Apply(Apply(p, first), second) == Apply(p, first)
  {
    hide DirsOf, WithDirectories, DirSymbols, Store.CreateModuleSymbol;
    var created := CreateModuleSymbols(p, first.modules);
    EachModuleCreated(p, first.modules);
    assert forall m | m in p.modules.byID :: m in first.modules;
    var q := CreateDirectorySymbols(created, first.dirs, first.files, first.children);
    assert ModulesCreated(q.modules) && q.imports == [] && q.files == p.files;
    NoModuleLeft(q, second.modules);
    assert CreateModuleSymbols(q, second.modules) == q;
    NoDirectoryLeft(q, first.dirs, second.dirs, second.files, second.children);
  }

  /** So the numbers of every object are the same both times. */
  lemma SecondMarshalNumbersTheSame(
      p: Project, first: Op, second: Op, o: nat, num: seq<Place>, points: seq<Point>, num': seq<Place>,
      points': seq<Point>)
    requires first.CallMarshal? && Possible(p, first)
    requires second.CallMarshal? && Possible(Apply(p, first), second)
    requires o < |Apply(p, first).objects| && AreObjectNumbers(Apply(p, first), o, num, points)
    requires o < |Apply(Apply(p, first), second).objects|
    requires AreObjectNumbers(Apply(Apply(p, first), second), o, num', points')
    ensures num == num' && points == points'
  {
    SecondMarshalChangesNothing(p, first, second);
    var q := Apply(p, first);
    hide Possible, Apply, AreNumbers;
    var insts := q.objects[o].insts;
    NumbersAreDetermined(
      Extents(insts, RankBySymbol(q.symbols.list)), StatedOf(q.instances, o + 1, |insts|), FlagsOf(insts),
      TokensOf(q.objects[o].refs), num, points, num', points');
  }
}

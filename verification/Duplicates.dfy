/** Runs on which a file ends up with one reference twice: each resolution forgets what the last one added. */
module Duplicates {
  import opened Containment
  import opened Entities
  import opened Store
  import opened Runs
  import opened Resolution

  /** A symbol declared in the first byte of "/a", the first file. */
  function Declaring(name: string): Op {
    CallAddSymbol(
      SymbolCall(1, 1, name, Global, Function, Definition, 0, 1, Spans(None, None, None), NO_PARENT))
  }

  /** A use of it in the third byte. */
  function UseOf(name: string): Reference {
    Reference(1, Position("/a", 1, 0), name, Position("/a", 1, 2), Position("/a", 1, 3), None)
  }

  /** A module, a file of four bytes in it, and one symbol. */
  const SETUP: seq<Op> :=
    [CallAddModule("m"), CallAddFile(Some(1), "/a", [0, 0, 0, 0], InstanceType.Source), Declaring("x")]

  /** The same reference to `x` that is asked for and resolved twice is in the file twice. */
  const ASKED_TWICE: seq<Op> :=
    SETUP + [CallAddReference(UseOf("x")), CallResolveReferences, CallAddReference(UseOf("x")), CallResolveReferences]

  /** After a resolution that failed on `y`, one that succeeds adds the reference to `x` again. */
  const REPEATED: seq<Op> :=
    SETUP + [CallAddReference(UseOf("x")), CallAddReference(UseOf("y")), CallResolveReferences,
             Declaring("y"), CallResolveReferences]

  /** Two resolutions that both fail on `y` add the reference to `x` each. */
  const FAILED_TWICE: seq<Op> :=
    SETUP + [CallAddReference(UseOf("x")), CallAddReference(UseOf("y")), CallResolveReferences, CallResolveReferences]

  /** What the log says of the file at the project's object 1, and which symbols can be found. */
  ghost predicate Stands(p: Project, found: map<FileName, int>, log: seq<Reference>, refs: seq<RefInfo>) {
    && p.modules.byID.Keys == {1} && p.files.pathByID == map[1 := "/a"] && p.symbols.byFileAndName == found
    && |p.objects| == 1 && p.objects[0].content == [0, 0, 0, 0] && p.objects[0].refs == refs && p.references == log
  }

  const X: FileName := FileName("/a", "x")
  const Y: FileName := FileName("/a", "y")

  lemma SetUp() returns (projects: seq<Project>, calls: seq<Op>)
    ensures IsRun(projects, calls) && |projects| == 4 && calls == SETUP
    ensures var p := projects[3];
            Stands(p, map[X := 2], [], []) && |p.symbols.list| == 2 && SymbolKey("y", Global) !in p.symbols.byKey
  {
    projects, calls := ExtendRun([EMPTY], [], SETUP[0]);
    hide IsRun;
    projects, calls := ExtendRun(projects, calls, SETUP[1]);
    projects, calls := ExtendRun(projects, calls, SETUP[2]);
  }

  /** One reference logged. */
  lemma Logged(p: Project, found: map<FileName, int>, log: seq<Reference>, refs: seq<RefInfo>, name: string)
    requires Stands(p, found, log, refs)
    ensures var q := Apply(p, CallAddReference(UseOf(name)));
            Stands(q, found, log + [UseOf(name)], refs) && q.symbols == p.symbols
  {}

  /** The reference to a symbol as the file gets it. */
  function RefTo(symbolID: int): RefInfo {
    RefInfo(symbolID, 2, 3, None)
  }

  lemma ResolvedOne(p: Project, refs: seq<RefInfo>)
    requires Stands(p, map[X := 2], [UseOf("x")], refs)
    ensures var q := Apply(p, CallResolveReferences); Stands(q, map[X := 2], [], refs + [RefTo(2)])
  {
    assert FirstFailure(p, 1) == 1;
    assert ResolveLog(p, 1) == ResolveOne(p, p.references[0], ResolveLog(p, 0));
  }

  lemma InTheEnd(p: Project, found: map<FileName, int>, log: seq<Reference>, refs: seq<RefInfo>)
    requires Stands(p, found, log, refs)
    ensures |p.objects| == 1 && p.objects[0].refs == refs && p.references == log
  {}

  lemma TwiceTheSame(refs: seq<RefInfo>)
    requires |refs| >= 2 && refs[0] == refs[1]
    ensures !DistinctTokens(refs)
  {
    assert TokenOf(refs[0]) == TokenOf(refs[1]);
  }

  lemma AskedTwice() returns (projects: seq<Project>, calls: seq<Op>)
    ensures IsRun(projects, calls) && calls == ASKED_TWICE && |projects| == 8
    ensures |projects[7].objects| == 1 && projects[7].objects[0].refs == [RefTo(2), RefTo(2)]
    ensures projects[7].references == [] && !DistinctTokens(projects[7].objects[0].refs)
  {
    projects, calls := SetUp();
    hide IsRun, Apply, DistinctTokens, Stands, UseOf;
    var ask, resolve := CallAddReference(UseOf("x")), CallResolveReferences;
    Logged(projects[3], map[X := 2], [], [], "x");
    projects, calls := ExtendRun(projects, calls, ask);
    ResolvedOne(projects[4], []);
    projects, calls := ExtendRun(projects, calls, resolve);
    Logged(projects[5], map[X := 2], [], [RefTo(2)], "x");
    projects, calls := ExtendRun(projects, calls, ask);
    ResolvedOne(projects[6], [RefTo(2)]);
    projects, calls := ExtendRun(projects, calls, resolve);
    InTheEnd(projects[7], map[X := 2], [], [RefTo(2), RefTo(2)]);
    TwiceTheSame(projects[7].objects[0].refs);
  }

  lemma FailsOnSecond(p: Project, refs: seq<RefInfo>)
    requires Stands(p, map[X := 2], [UseOf("x"), UseOf("y")], refs)
    ensures var q := Apply(p, CallResolveReferences);
            && Stands(q, map[X := 2], [UseOf("x"), UseOf("y")], refs + [RefTo(2)])
            && ResolveOutcome(p) == MissingTarget
            && q.symbols == p.symbols
  {
    assert FirstFailure(p, 1) == 1;
    assert ResolveLog(p, 1) == ResolveOne(p, p.references[0], ResolveLog(p, 0));
  }

  lemma SecondDeclared(p: Project, log: seq<Reference>, refs: seq<RefInfo>)
    requires Stands(p, map[X := 2], log, refs) && |p.symbols.list| == 2 && SymbolKey("y", Global) !in p.symbols.byKey
    ensures Stands(Apply(p, Declaring("y")), map[X := 2, Y := 3], log, refs)
  {}

  lemma ResolvesBoth(p: Project, refs: seq<RefInfo>)
    requires Stands(p, map[X := 2, Y := 3], [UseOf("x"), UseOf("y")], refs)
    ensures var q := Apply(p, CallResolveReferences);
            Stands(q, map[X := 2, Y := 3], [], refs + [RefTo(2), RefTo(3)]) && ResolveOutcome(p) == Resolved
  {
    assert FirstFailure(p, 2) == 2 && FirstFailure(p, 1) == 2;
    assert ResolveLog(p, 1) == ResolveOne(p, p.references[0], ResolveLog(p, 0));
    assert ResolveLog(p, 2) == ResolveOne(p, p.references[1], ResolveLog(p, 1));
  }

  /** The first resolution fails, the second succeeds, and the reference to `x` is there from both. */
  lemma RepeatedAfterFailure() returns (projects: seq<Project>, calls: seq<Op>)
    ensures IsRun(projects, calls) && calls == REPEATED && |projects| == 9
    ensures ResolveOutcome(projects[5]) == MissingTarget && ResolveOutcome(projects[7]) == Resolved
    ensures |projects[8].objects| == 1 && projects[8].objects[0].refs == [RefTo(2), RefTo(2), RefTo(3)]
    ensures projects[8].references == [] && !DistinctTokens(projects[8].objects[0].refs)
  {
    projects, calls := SetUp();
    hide IsRun, Apply, ResolveOutcome, DistinctTokens, Stands, UseOf;
    Logged(projects[3], map[X := 2], [], [], "x");
    projects, calls := ExtendRun(projects, calls, CallAddReference(UseOf("x")));
    Logged(projects[4], map[X := 2], [UseOf("x")], [], "y");
    projects, calls := ExtendRun(projects, calls, CallAddReference(UseOf("y")));
    FailsOnSecond(projects[5], []);
    projects, calls := ExtendRun(projects, calls, CallResolveReferences);
    SecondDeclared(projects[6], [UseOf("x"), UseOf("y")], [RefTo(2)]);
    projects, calls := ExtendRun(projects, calls, Declaring("y"));
    ResolvesBoth(projects[7], [RefTo(2)]);
    projects, calls := ExtendRun(projects, calls, CallResolveReferences);
    InTheEnd(projects[8], map[X := 2, Y := 3], [], [RefTo(2), RefTo(2), RefTo(3)]);
    TwiceTheSame(projects[8].objects[0].refs);
  }

  /** Both resolutions fail, and the reference to `x` is there from both. */
  lemma FailedTwice() returns (projects: seq<Project>, calls: seq<Op>)
    ensures IsRun(projects, calls) && calls == FAILED_TWICE && |projects| == 8
    ensures ResolveOutcome(projects[5]) == MissingTarget && ResolveOutcome(projects[6]) == MissingTarget
    ensures |projects[7].objects| == 1 && projects[7].objects[0].refs == [RefTo(2), RefTo(2)]
    ensures !DistinctTokens(projects[7].objects[0].refs)
  {
    projects, calls := SetUp();
    hide IsRun, Apply, ResolveOutcome, DistinctTokens, Stands, UseOf;
    Logged(projects[3], map[X := 2], [], [], "x");
    projects, calls := ExtendRun(projects, calls, CallAddReference(UseOf("x")));
    Logged(projects[4], map[X := 2], [UseOf("x")], [], "y");
    projects, calls := ExtendRun(projects, calls, CallAddReference(UseOf("y")));
    FailsOnSecond(projects[5], []);
    projects, calls := ExtendRun(projects, calls, CallResolveReferences);
    FailsOnSecond(projects[6], [RefTo(2)]);
    projects, calls := ExtendRun(projects, calls, CallResolveReferences);
    InTheEnd(projects[7], map[X := 2], [UseOf("x"), UseOf("y")], [RefTo(2), RefTo(2)]);
    TwiceTheSame(projects[7].objects[0].refs);
  }
}

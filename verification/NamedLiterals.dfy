/** The calls of the file parser's walks, given the table of the literals that have a name already. */
module NamedLiterals {
  import opened Entities
  import opened Syntax
  import opened LiteralCount

  /** The names that a list of calls leaves in the table of literals, by their starts. */
  function Named(table: map<int, string>, adds: seq<Call>): map<int, string>
    decreases |adds|
  {
    if |adds| == 0 then table
    else
      var before, last := Named(table, adds[..|adds| - 1]), adds[|adds| - 1].inst;
      if last.kind == Literal then before[last.start := last.name] else before
  }

  lemma {:induction false} NamedInTurn(table: map<int, string>, a: seq<Call>, b: seq<Call>)
    ensures Named(Named(table, a), b) == Named(table, a + b)
    decreases |b|
  {
    if |b| == 0 {
      assert a + b == a;
    } else {
      NamedInTurn(table, a, b[..|b| - 1]);
      assert (a + b)[..|a + b| - 1] == a + b[..|b| - 1];
    }
  }

  lemma NoneNamed(table: map<int, string>)
    ensures Named(table, []) == table
  {}

  /** The table knows exactly the literals that have been added, besides those it knew before. */
  lemma {:induction false} NamedKeys(table: map<int, string>, adds: seq<Call>, start: int)
    ensures start in Named(table, adds) <==> start in table || start in Starts(adds)
    decreases |adds|
  {
    if |adds| > 0 {
      NamedKeys(table, adds[..|adds| - 1], start);
    }
  }

  // ------------------------------------------------------------------
  // The walks, from whatever has been named before

  /** The outermost literals of an initialiser that have no name yet, claimed for `owner`. */
  function ClaimedFrom(nodes: seq<Node>, owner: Inst, table: map<int, string>): seq<Call>
    decreases nodes, 0
  {
    if |nodes| == 0 then []
    else
      var first := ClaimedInFrom(nodes[0], owner, table);
      first + ClaimedFrom(nodes[1..], owner, Named(table, first))
  }

  function ClaimedInFrom(n: Node, owner: Inst, table: map<int, string>): seq<Call>
    decreases n, 0
  {
    match n
    case FuncLit(start, end, body) =>
      if start in table then [] else LitAdds(start, end, body, owner.name, Some(owner))
    case Member(_, _, _, children) => ClaimedFrom(children, owner, table)
    case Other(_, _, children) => ClaimedFrom(children, owner, table)
  }

  /** What the walk over everything adds: members, and the literals that have no name yet. */
  function LooseFrom(nodes: seq<Node>, pkg: string, table: map<int, string>): seq<Call>
    decreases nodes, 0
  {
    if |nodes| == 0 then []
    else
      var first := LooseInFrom(nodes[0], pkg, table);
      first + LooseFrom(nodes[1..], pkg, Named(table, first))
  }

  function LooseInFrom(n: Node, pkg: string, table: map<int, string>): seq<Call>
    decreases n, 0
  {
    match n
    case FuncLit(start, end, body) => if start in table then [] else LitAdds(start, end, body, pkg, None)
    case Member(start, end, name, children) =>
      [Call(Inst(MemberKind, name, start, end), None)] + LooseFrom(children, pkg, table)
    case Other(_, _, children) => LooseFrom(children, pkg, table)
  }

  /** The first `k` names of a spec, each with the literals of its own initialiser. */
  function NamesFrom(spec: Spec, k: nat, table: map<int, string>): seq<Call>
    requires k <= |spec.names|
  {
    if k == 0 then []
    else
      var before, name := NamesFrom(spec, k - 1, table), spec.names[k - 1];
      if !name.isDeclared then before
      else
        before + [Call(NameInst(spec, name), None)]
        + if IsPaired(spec) then ClaimedFrom([spec.values[k - 1]], NameInst(spec, name), Named(table, before)) else []
  }

  /** The names of the first `j` specs. */
  function SpecsFrom(specs: seq<Spec>, j: nat, table: map<int, string>): seq<Call>
    requires j <= |specs|
  {
    if j == 0 then []
    else
      var before := SpecsFrom(specs, j - 1, table);
      before + NamesFrom(specs[j - 1], |specs[j - 1].names|, Named(table, before))
  }

  /** The walk over the first `j` specs afterwards. */
  function SpecsLooseFrom(specs: seq<Spec>, j: nat, pkg: string, table: map<int, string>): seq<Call>
    requires j <= |specs|
  {
    if j == 0 then []
    else
      var before := SpecsLooseFrom(specs, j - 1, pkg, table);
      before + LooseFrom(NodesOf(specs[j - 1]), pkg, Named(table, before))
  }

  function DeclFrom(d: Decl, pkg: string, table: map<int, string>): seq<Call> {
    match d
    case FuncDecl(start, end, fullName, body) =>
      [Call(Inst(Declared, fullName, start, end), None)] + BodyAdds(body, fullName)
    case ValueDecl(_, _, specs) =>
      var names := SpecsFrom(specs, |specs|, table);
      names + SpecsLooseFrom(specs, |specs|, pkg, Named(table, names))
    case Loose(node) => LooseInFrom(node, pkg, table)
  }

  function FileFrom(decls: seq<Decl>, pkg: string, table: map<int, string>): seq<Call> {
    if |decls| == 0 then []
    else
      var first := DeclFrom(decls[0], pkg, table);
      first + FileFrom(decls[1..], pkg, Named(table, first))
  }

  // ------------------------------------------------------------------
  // What stays without a name

  /** No literal of value `i` has a name when its turn comes. */
  lemma NotYetNamed(table: map<int, string>, spec: Spec, i: nat)
    requires SpecNested(spec) && i < |spec.names| == |spec.values|
    requires forall start | start in LitStarts(NodesOf(spec)) :: start !in table
    ensures forall start | start in LitStarts([spec.values[i]]) ::
              start !in Named(table, NamesAdds(spec, i))
  {
    hide SpecNested, LitStarts, Starts, ClaimedAdds;
    NamesHaveStarts(spec, i);
    LaterClaimsDiffer(spec, i);
    OneNode(spec.values[i]);
    ChildStarts(NodesOf(spec), |spec.annotation| + i);
    forall start | start in LitStarts([spec.values[i]]) ensures start !in Named(table, NamesAdds(spec, i)) {
      NamedKeys(table, NamesAdds(spec, i), start);
    }
  }

  /** Whatever has been done before, only literals of these nodes are added. */
  lemma {:induction false} LooseAmong(nodes: seq<Node>, pkg: string, done: set<int>, lo: int, hi: int, start: int)
    requires AreNested(nodes, lo, hi) && start in Starts(LooseAdds(nodes, pkg, done))
    ensures start in LitStarts(nodes)
    decreases nodes, 0
  {
    hide Starts;
    NoStarts();
    if |nodes| > 0 {
      StartsJoined(LooseIn(nodes[0], pkg, done), LooseAdds(nodes[1..], pkg, done));
      if start in Starts(LooseIn(nodes[0], pkg, done)) {
        LooseNodeAmong(nodes[0], pkg, done, start);
      } else {
        LooseAmong(nodes[1..], pkg, done, nodes[0].end, hi, start);
      }
    }
  }

  lemma {:induction false} LooseNodeAmong(n: Node, pkg: string, done: set<int>, start: int)
    requires IsNested(n) && start in Starts(LooseIn(n, pkg, done))
    ensures start in LitStartsIn(n)
    decreases n, 0
  {
    hide Starts;
    NoStarts();
    match n
    case FuncLit(first, end, body) => LitHasStarts(first, end, body, pkg, None);
    case Member(first, end, name, children) =>
      var member := Call(Inst(MemberKind, name, first, end), None);
      StartsJoined([member], LooseAdds(children, pkg, done));
      StartsOfOne(member);
      LooseAmong(children, pkg, done, first + 1, end, start);
    case Other(first, end, children) => LooseAmong(children, pkg, done, first, end, start);
  }

  /** Walking the first node names no literal of the others. */
  lemma StillLoose(table: map<int, string>, nodes: seq<Node>, pkg: string, done: set<int>, lo: int, hi: int)
    requires AreNested(nodes, lo, hi) && |nodes| > 0
    requires forall start | start in LitStarts(nodes) :: start in done <==> start in table
    ensures forall start | start in LitStarts(nodes[1..]) ::
              start in done <==> start in Named(table, LooseIn(nodes[0], pkg, done))
  {
    hide Starts, Named, LooseIn;
    SiblingsDiffer(nodes, lo, hi);
    forall start | start in LitStarts(nodes[1..])
      ensures start in done <==> start in Named(table, LooseIn(nodes[0], pkg, done))
    {
      NamedKeys(table, LooseIn(nodes[0], pkg, done), start);
      if start in Starts(LooseIn(nodes[0], pkg, done)) {
        LooseNodeAmong(nodes[0], pkg, done, start);
      }
    }
  }

  lemma {:induction false} SpecsInTurn(specs: seq<Spec>, j: nat)
    requires j < |specs|
    ensures SpecsAdds(specs[..j + 1]) == SpecsAdds(specs[..j]) + NamesAdds(specs[j], |specs[j].names|)
    decreases j
  {
    hide NamesAdds;
    if j == 0 {
      assert specs[..1][1..] == [] && specs[..0] == [];
    } else {
      SpecsInTurn(specs[1..], j - 1);
      assert specs[..j + 1][1..] == specs[1..][..j] && specs[..j][1..] == specs[1..][..j - 1];
    }
  }

  lemma {:induction false} LooseInTurn(specs: seq<Spec>, pkg: string, done: set<int>, j: nat)
    requires j < |specs|
    ensures SpecsLoose(specs[..j + 1], pkg, done)
            == SpecsLoose(specs[..j], pkg, done) + LooseAdds(NodesOf(specs[j]), pkg, done)
    decreases j
  {
    hide LooseAdds;
    if j == 0 {
      assert specs[..1][1..] == [] && specs[..0] == [];
    } else {
      LooseInTurn(specs[1..], pkg, done, j - 1);
      assert specs[..j + 1][1..] == specs[1..][..j] && specs[..j][1..] == specs[1..][..j - 1];
    }
  }

  /** Different specs hold different literals, and later specs those past `specs[j].start`. */
  lemma {:induction false} SpecHoldsLits(specs: seq<Spec>, lo: int, hi: int, j: nat)
    requires SpecsNested(specs, lo, hi) && j < |specs|
    ensures SpecNested(specs[j]) && LitStarts(NodesOf(specs[j])) <= SpecsLits(specs)
    ensures SpecsStarts(specs[..j]) !! LitStarts(NodesOf(specs[j]))
    ensures SpecsLits(specs[..j]) !! LitStarts(NodesOf(specs[j]))
    ensures SpecsNested(specs[..j], lo, specs[j].start)
    decreases |specs|
  {
    hide SpecNested, LitStarts, ClaimedStarts, NodesOf;
    SpecLies(specs[0]);
    SpecsLie(specs[1..], specs[0].end, hi);
    if j > 0 {
      SpecHoldsLits(specs[1..], specs[0].end, hi, j - 1);
      assert specs[..j][1..] == specs[1..][..j - 1] && specs[..j][0] == specs[0];
      SpecsLie(specs[..j], lo, specs[j].start);
    }
    SpecLies(specs[j]);
    BelowAbove(SpecsLits(specs[..j]), LitStarts(NodesOf(specs[j])), specs[j].start);
  }

  lemma SpecNodes(spec: Spec)
    requires SpecNested(spec)
    ensures |spec.names| > 0 && AreNested(NodesOf(spec), NamesEnd(spec), spec.end)
  {}

  lemma {:induction false} SpecsLooseAmong(specs: seq<Spec>, pkg: string, done: set<int>, lo: int, hi: int, start: int)
    requires SpecsNested(specs, lo, hi) && start in Starts(SpecsLoose(specs, pkg, done))
    ensures start in SpecsLits(specs)
    decreases |specs|
  {
    hide Starts, SpecNested, LooseAdds, LitStarts;
    NoStarts();
    if |specs| > 0 {
      StartsJoined(LooseAdds(NodesOf(specs[0]), pkg, done), SpecsLoose(specs[1..], pkg, done));
      if start in Starts(LooseAdds(NodesOf(specs[0]), pkg, done)) {
        SpecNodes(specs[0]);
        LooseAmong(NodesOf(specs[0]), pkg, done, NamesEnd(specs[0]), specs[0].end, start);
      } else {
        SpecsLooseAmong(specs[1..], pkg, done, specs[0].end, hi, start);
      }
    }
  }

  /** Walking the first specs names no literal of the next. */
  lemma SpecStillLoose(table: map<int, string>, specs: seq<Spec>, pkg: string, done: set<int>, lo: int, hi: int, j: nat)
    requires SpecsNested(specs, lo, hi) && j < |specs|
    requires forall start | start in SpecsLits(specs) :: start in done <==> start in table
    ensures forall start | start in LitStarts(NodesOf(specs[j])) ::
              start in done <==> start in Named(table, SpecsLoose(specs[..j], pkg, done))
  {
    hide Starts, Named, SpecsLoose, SpecsNested, SpecNested, LitStarts, SpecsLits;
    SpecHoldsLits(specs, lo, hi, j);
    forall start | start in LitStarts(NodesOf(specs[j]))
      ensures start in done <==> start in Named(table, SpecsLoose(specs[..j], pkg, done))
    {
      NamedKeys(table, SpecsLoose(specs[..j], pkg, done), start);
      if start in Starts(SpecsLoose(specs[..j], pkg, done)) {
        SpecsLooseAmong(specs[..j], pkg, done, lo, specs[j].start, start);
      }
    }
  }

  /** Claiming for the first specs names no literal of the next. */
  lemma SpecStillUnnamed(table: map<int, string>, specs: seq<Spec>, lo: int, hi: int, j: nat)
    requires SpecsNested(specs, lo, hi) && j < |specs| && forall start | start in SpecsLits(specs) :: start !in table
    ensures SpecNested(specs[j])
    ensures forall start | start in LitStarts(NodesOf(specs[j])) :: start !in Named(table, SpecsAdds(specs[..j]))
  {
    hide Starts, Named, SpecsAdds, SpecsNested, SpecNested, LitStarts, SpecsLits, SpecsStarts;
    SpecHoldsLits(specs, lo, hi, j);
    SpecsHaveStarts(specs[..j], lo, specs[j].start);
    forall start | start in LitStarts(NodesOf(specs[j])) ensures start !in Named(table, SpecsAdds(specs[..j])) {
      NamedKeys(table, SpecsAdds(specs[..j]), start);
    }
  }

  lemma AllClaimed(table: map<int, string>, specs: seq<Spec>, lo: int, hi: int)
    requires SpecsNested(specs, lo, hi) && forall start | start in SpecsLits(specs) :: start !in table
    ensures forall start | start in SpecsLits(specs) ::
              start in SpecsStarts(specs) <==> start in Named(table, SpecsAdds(specs))
  {
    hide Starts, Named, SpecsNested, SpecsLits, SpecsAdds, SpecsStarts;
    SpecsHaveStarts(specs, lo, hi);
    forall start | start in SpecsLits(specs)
      ensures start in SpecsStarts(specs) <==> start in Named(table, SpecsAdds(specs))
    {
      NamedKeys(table, SpecsAdds(specs), start);
    }
  }

  lemma FirstUnnamed(decls: seq<Decl>)
    requires |decls| > 0
    ensures DeclLits(decls[0]) <= FileLits(decls)
  {}

  lemma RestUnnamed(table: map<int, string>, decls: seq<Decl>, pkg: string, lo: int, hi: int)
    requires FileNested(decls, lo, hi) && |decls| > 0 && forall start | start in FileLits(decls) :: start !in table
    ensures forall start | start in FileLits(decls[1..]) :: start !in Named(table, DeclAdds(decls[0], pkg))
  {
    hide Starts, Named, DeclAdds, DeclNested, DeclLits;
    DeclHasStarts(decls[0], pkg);
    DeclLies(decls[0]);
    FileLies(decls[1..], DeclEnd(decls[0]), hi);
    forall start | start in FileLits(decls[1..]) ensures start !in Named(table, DeclAdds(decls[0], pkg)) {
      NamedKeys(table, DeclAdds(decls[0], pkg), start);
    }
  }

  // ------------------------------------------------------------------
  // Nothing named before: the calls are those of the syntax alone

  lemma {:induction false} ClaimedIsFresh(nodes: seq<Node>, owner: Inst, table: map<int, string>, lo: int, hi: int)
    requires AreNested(nodes, lo, hi) && forall start | start in LitStarts(nodes) :: start !in table
    ensures ClaimedFrom(nodes, owner, table) == ClaimedAdds(nodes, owner)
    decreases nodes, 0
  {
    hide Named, Starts;
    if |nodes| > 0 {
      ClaimedInIsFresh(nodes[0], owner, table);
      ClaimedHaveStartsIn(nodes[0], owner);
      SiblingsDiffer(nodes, lo, hi);
      forall start | start in LitStarts(nodes[1..]) ensures start !in Named(table, ClaimedIn(nodes[0], owner)) {
        NamedKeys(table, ClaimedIn(nodes[0], owner), start);
      }
      ClaimedIsFresh(nodes[1..], owner, Named(table, ClaimedIn(nodes[0], owner)), nodes[0].end, hi);
    }
  }

  lemma {:induction false} ClaimedInIsFresh(n: Node, owner: Inst, table: map<int, string>)
    requires IsNested(n) && forall start | start in LitStartsIn(n) :: start !in table
    ensures ClaimedInFrom(n, owner, table) == ClaimedIn(n, owner)
    decreases n, 0
  {
    match n
    case FuncLit(start, _, _) => assert start in LitStartsIn(n);
    case Member(start, end, _, children) => ClaimedIsFresh(children, owner, table, start + 1, end);
    case Other(start, end, children) => ClaimedIsFresh(children, owner, table, start, end);
  }

  /** `done` are the literals that have a name. */
  lemma {:induction false} LooseIsFresh(
      nodes: seq<Node>, pkg: string, done: set<int>, table: map<int, string>, lo: int, hi: int)
    requires AreNested(nodes, lo, hi) && forall start | start in LitStarts(nodes) :: start in done <==> start in table
    ensures LooseFrom(nodes, pkg, table) == LooseAdds(nodes, pkg, done)
    decreases nodes, 0
  {
    if |nodes| > 0 {
      hide LooseIn, LooseInFrom, LitStartsIn, Named, IsNested;
      LooseInIsFresh(nodes[0], pkg, done, table);
      StillLoose(table, nodes, pkg, done, lo, hi);
      LooseIsFresh(nodes[1..], pkg, done, Named(table, LooseIn(nodes[0], pkg, done)), nodes[0].end, hi);
    }
  }

  lemma {:induction false} LooseInIsFresh(n: Node, pkg: string, done: set<int>, table: map<int, string>)
    requires IsNested(n) && forall start | start in LitStartsIn(n) :: start in done <==> start in table
    ensures LooseInFrom(n, pkg, table) == LooseIn(n, pkg, done)
    decreases n, 0
  {
    match n
    case FuncLit(start, _, _) => assert start in LitStartsIn(n);
    case Member(start, end, _, children) => LooseIsFresh(children, pkg, done, table, start + 1, end);
    case Other(start, end, children) => LooseIsFresh(children, pkg, done, table, start, end);
  }

  lemma {:induction false} NamesAreFresh(spec: Spec, k: nat, table: map<int, string>)
    requires SpecNested(spec) && k <= |spec.names|
    requires forall start | start in LitStarts(NodesOf(spec)) :: start !in table
    ensures NamesFrom(spec, k, table) == NamesAdds(spec, k)
  {
    hide SpecNested, LitStarts, ClaimedAdds, ClaimedFrom, Named;
    if k > 0 {
      NamesAreFresh(spec, k - 1, table);
      if spec.names[k - 1].isDeclared && IsPaired(spec) {
        NotYetNamed(table, spec, k - 1);
        ValueFacts(spec, k - 1);
        ClaimedIsFresh([spec.values[k - 1]], NameInst(spec, spec.names[k - 1]), Named(table, NamesAdds(spec, k - 1)),
                       spec.values[k - 1].start, spec.values[k - 1].end);
      }
    }
  }

  lemma {:induction false} SpecsAreFresh(specs: seq<Spec>, j: nat, table: map<int, string>, lo: int, hi: int)
    requires SpecsNested(specs, lo, hi) && j <= |specs| && forall start | start in SpecsLits(specs) :: start !in table
    ensures SpecsFrom(specs, j, table) == SpecsAdds(specs[..j])
    decreases j
  {
    hide SpecNested, SpecsNested, LitStarts, NodesOf, NamesAdds, NamesFrom, Named, SpecsLits;
    if j > 0 {
      SpecsAreFresh(specs, j - 1, table, lo, hi);
      SpecStillUnnamed(table, specs, lo, hi, j - 1);
      NamesAreFresh(specs[j - 1], |specs[j - 1].names|, Named(table, SpecsAdds(specs[..j - 1])));
      SpecsInTurn(specs, j - 1);
    }
  }

  lemma {:induction false} SpecsLooseAreFresh(
      specs: seq<Spec>, j: nat, pkg: string, done: set<int>, table: map<int, string>, lo: int, hi: int)
    requires SpecsNested(specs, lo, hi) && j <= |specs|
    requires forall start | start in SpecsLits(specs) :: start in done <==> start in table
    ensures SpecsLooseFrom(specs, j, pkg, table) == SpecsLoose(specs[..j], pkg, done)
    decreases j
  {
    hide SpecNested, SpecsNested, LitStarts, LooseAdds, LooseFrom, Named, SpecsLits, AreNested;
    if j > 0 {
      SpecsLooseAreFresh(specs, j - 1, pkg, done, table, lo, hi);
      SpecStillLoose(table, specs, pkg, done, lo, hi, j - 1);
      SpecHoldsLits(specs, lo, hi, j - 1);
      SpecNodes(specs[j - 1]);
      LooseIsFresh(NodesOf(specs[j - 1]), pkg, done, Named(table, SpecsLoose(specs[..j - 1], pkg, done)),
                   NamesEnd(specs[j - 1]), specs[j - 1].end);
      LooseInTurn(specs, pkg, done, j - 1);
    }
  }

  lemma DeclIsFresh(d: Decl, pkg: string, table: map<int, string>)
    requires DeclNested(d) && forall start | start in DeclLits(d) :: start !in table
    ensures DeclFrom(d, pkg, table) == DeclAdds(d, pkg)
  {
    hide SpecsNested, SpecsLits, SpecsAdds, SpecsFrom, SpecsLoose, SpecsLooseFrom, LooseIn, LooseInFrom, Named;
    match d
    case FuncDecl(_, _, _, _) =>
    case ValueDecl(start, end, specs) =>
      SpecsAreFresh(specs, |specs|, table, start, end);
      AllClaimed(table, specs, start, end);
      SpecsLooseAreFresh(specs, |specs|, pkg, SpecsStarts(specs), Named(table, SpecsAdds(specs)), start, end);
      assert specs[..|specs|] == specs;
    case Loose(node) => LooseInIsFresh(node, pkg, {}, table);
  }

  /** On a well-nested file none of whose literals has a name, the walk makes the calls of the file's syntax. */
  lemma {:induction false} FileIsFresh(decls: seq<Decl>, pkg: string, table: map<int, string>, lo: int, hi: int)
    requires FileNested(decls, lo, hi) && forall start | start in FileLits(decls) :: start !in table
    ensures FileFrom(decls, pkg, table) == FileAdds(decls, pkg)
    decreases |decls|
  {
    hide DeclAdds, DeclFrom, DeclNested, DeclLits, DeclEnd, DeclStart, Named;
    if |decls| > 0 {
      FirstUnnamed(decls);
      DeclIsFresh(decls[0], pkg, table);
      RestUnnamed(table, decls, pkg, lo, hi);
      FileIsFresh(decls[1..], pkg, Named(table, DeclAdds(decls[0], pkg)), DeclEnd(decls[0]), hi);
    }
  }
}

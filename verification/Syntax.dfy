/**
 The declarations a file parser adds, over an abstract syntax tree that keeps of each node
 its byte range and what decides about instances: function literals, local types and
 interface methods, and package-level values with their initialisers.
 */
module Syntax {
  import opened Entities

  /** `Member` is a type or an interface method, which gets an instance of its own. */
  datatype Node =
    | FuncLit(start: int, end: int, body: seq<Node>)
    | Member(start: int, end: int, name: string, children: seq<Node>)
    | Other(start: int, end: int, children: seq<Node>)

  /** A declared name; blank names and names without an object are not declared. */
  datatype Name = Name(start: int, end: int, fullName: string, isDeclared: bool)

  datatype Spec = Spec(start: int, end: int, names: seq<Name>, annotation: seq<Node>, values: seq<Node>)

  datatype Decl =
    | FuncDecl(start: int, end: int, fullName: string, body: seq<Node>)
    | ValueDecl(start: int, end: int, specs: seq<Spec>)
    | Loose(node: Node)

  datatype Kind = Literal | Declared | MemberKind

  datatype Inst = Inst(kind: Kind, name: string, start: int, end: int)

  /** One call to AddSymbol, with the instance stated as its parent. */
  datatype Call = Call(inst: Inst, owner: Option<Inst>)

  function Decimal(n: int): string
    decreases if n < 0 then 1 - n else n
  {
    if n < 0 then "-" + Decimal(-n)
    else if n < 10 then [('0' as int + n) as char]
    else Decimal(n / 10) + [('0' as int + n % 10) as char]
  }

  function LitName(parent: string, start: int): string {
    parent + ":<anon" + Decimal(start) + ">"
  }

  // ------------------------------------------------------------------
  // Inside function bodies

  function LitInst(parent: string, start: int, end: int): Inst {
    Inst(Literal, LitName(parent, start), start, end)
  }

  /** A literal, then what its body adds under the literal's name. */
  function LitAdds(start: int, end: int, body: seq<Node>, parent: string, owner: Option<Inst>): seq<Call>
    decreases body, 1
  {
    [Call(LitInst(parent, start, end), owner)] + BodyAdds(body, LitName(parent, start))
  }

  function BodyAdds(nodes: seq<Node>, parent: string): seq<Call>
    decreases nodes, 0
  {
    if |nodes| == 0 then [] else NodeAdds(nodes[0], parent) + BodyAdds(nodes[1..], parent)
  }

  function NodeAdds(n: Node, parent: string): seq<Call>
    decreases n, 0
  {
    match n
    case FuncLit(start, end, body) => LitAdds(start, end, body, parent, None)
    case Member(start, end, name, children) =>
      [Call(Inst(MemberKind, name, start, end), None)] + BodyAdds(children, parent)
    case Other(_, _, children) => BodyAdds(children, parent)
  }

  // ------------------------------------------------------------------
  // Initialisers of package-level values

  /** The outermost literals of an initialiser, claimed for its name. */
  function ClaimedAdds(nodes: seq<Node>, owner: Inst): seq<Call> {
    if |nodes| == 0 then [] else ClaimedIn(nodes[0], owner) + ClaimedAdds(nodes[1..], owner)
  }

  function ClaimedIn(n: Node, owner: Inst): seq<Call> {
    match n
    case FuncLit(start, end, body) =>
      LitAdds(start, end, body, owner.name, Some(owner))
    case Member(_, _, _, children) => ClaimedAdds(children, owner)
    case Other(_, _, children) => ClaimedAdds(children, owner)
  }

  /** What the walk over the whole file finds, literals that start in `done` left out. */
  function LooseAdds(nodes: seq<Node>, pkg: string, done: set<int>): seq<Call> {
    if |nodes| == 0 then [] else LooseIn(nodes[0], pkg, done) + LooseAdds(nodes[1..], pkg, done)
  }

  function LooseIn(n: Node, pkg: string, done: set<int>): seq<Call> {
    match n
    case FuncLit(start, end, body) =>
      if start in done then [] else LitAdds(start, end, body, pkg, None)
    case Member(start, end, name, children) =>
      [Call(Inst(MemberKind, name, start, end), None)] + LooseAdds(children, pkg, done)
    case Other(_, _, children) => LooseAdds(children, pkg, done)
  }

  /** The starts of all literals, nested ones included. */
  function LitStarts(nodes: seq<Node>): set<int> {
    if |nodes| == 0 then {} else LitStartsIn(nodes[0]) + LitStarts(nodes[1..])
  }

  function LitStartsIn(n: Node): set<int> {
    match n
    case FuncLit(start, _, body) => {start} + LitStarts(body)
    case Member(_, _, _, children) => LitStarts(children)
    case Other(_, _, children) => LitStarts(children)
  }

  /** One value for each name. */
  predicate IsPaired(spec: Spec) {
    |spec.values| == |spec.names|
  }

  /** Several names with initialisers get their identifiers as extents, otherwise the whole spec. */
  function NameInst(spec: Spec, name: Name): Inst {
    if |spec.names| > 1 && |spec.values| > 0 then Inst(Declared, name.fullName, name.start, name.end)
    else Inst(Declared, name.fullName, spec.start, spec.end)
  }

  /** The first `k` names, each with the literals of its own initialiser. */
  function NamesAdds(spec: Spec, k: nat): seq<Call>
    requires k <= |spec.names|
  {
    if k == 0 then []
    else
      var before, name := NamesAdds(spec, k - 1), spec.names[k - 1];
      if !name.isDeclared then before
      else
        before + [Call(NameInst(spec, name), None)]
        + if IsPaired(spec) then ClaimedAdds([spec.values[k - 1]], NameInst(spec, name)) else []
  }

  /** The starts of the literals that the first `k` names claim. */
  function ClaimedStarts(spec: Spec, k: nat): set<int>
    requires k <= |spec.names|
  {
    if k == 0 then {}
    else
      ClaimedStarts(spec, k - 1)
      + if spec.names[k - 1].isDeclared && IsPaired(spec) then LitStarts([spec.values[k - 1]]) else {}
  }

  function SpecsAdds(specs: seq<Spec>): seq<Call> {
    if |specs| == 0 then [] else NamesAdds(specs[0], |specs[0].names|) + SpecsAdds(specs[1..])
  }

  function SpecsStarts(specs: seq<Spec>): set<int> {
    if |specs| == 0 then {} else ClaimedStarts(specs[0], |specs[0].names|) + SpecsStarts(specs[1..])
  }

  /** The walk over the same specs afterwards. */
  function SpecsLoose(specs: seq<Spec>, pkg: string, done: set<int>): seq<Call> {
    if |specs| == 0 then []
    else LooseAdds(specs[0].annotation + specs[0].values, pkg, done) + SpecsLoose(specs[1..], pkg, done)
  }

  function DeclAdds(d: Decl, pkg: string): seq<Call> {
    match d
    case FuncDecl(start, end, fullName, body) =>
      [Call(Inst(Declared, fullName, start, end), None)] + BodyAdds(body, fullName)
    case ValueDecl(_, _, specs) => SpecsAdds(specs) + SpecsLoose(specs, pkg, SpecsStarts(specs))
    case Loose(node) => LooseIn(node, pkg, {})
  }

  /** Everything a file adds, declaration by declaration. */
  function FileAdds(decls: seq<Decl>, pkg: string): seq<Call> {
    if |decls| == 0 then [] else DeclAdds(decls[0], pkg) + FileAdds(decls[1..], pkg)
  }

  // ------------------------------------------------------------------
  // Well-nested trees

  /** Siblings one after the other between `lo` and `hi`. */
  predicate AreNested(nodes: seq<Node>, lo: int, hi: int) {
    if |nodes| == 0 then lo <= hi
    else lo <= nodes[0].start && IsNested(nodes[0]) && AreNested(nodes[1..], nodes[0].end, hi)
  }

  /** What has an instance starts with a token of its own, before anything inside it. */
  predicate IsNested(n: Node) {
    match n
    case FuncLit(start, end, body) => start < end && AreNested(body, start + 1, end)
    case Member(start, end, _, children) => start < end && AreNested(children, start + 1, end)
    case Other(start, end, children) => start <= end && AreNested(children, start, end)
  }

  predicate NamesNested(names: seq<Name>, lo: int, hi: int) {
    if |names| == 0 then lo <= hi
    else lo <= names[0].start < names[0].end && NamesNested(names[1..], names[0].end, hi)
  }

  /** Names first, at least one, then the annotation and the values. */
  predicate SpecNested(spec: Spec) {
    && |spec.names| > 0 && NamesNested(spec.names, spec.start, spec.names[|spec.names| - 1].end)
    && AreNested(spec.annotation + spec.values, spec.names[|spec.names| - 1].end, spec.end)
  }

  predicate SpecsNested(specs: seq<Spec>, lo: int, hi: int) {
    if |specs| == 0 then lo <= hi
    else lo <= specs[0].start && SpecNested(specs[0]) && SpecsNested(specs[1..], specs[0].end, hi)
  }

  function DeclStart(d: Decl): int {
    match d
    case FuncDecl(start, _, _, _) => start
    case ValueDecl(start, _, _) => start
    case Loose(node) => node.start
  }

  function DeclEnd(d: Decl): int {
    match d
    case FuncDecl(_, end, _, _) => end
    case ValueDecl(_, end, _) => end
    case Loose(node) => node.end
  }

  predicate DeclNested(d: Decl) {
    match d
    case FuncDecl(start, end, _, body) => start < end && AreNested(body, start + 1, end)
    case ValueDecl(start, end, specs) => SpecsNested(specs, start, end)
    case Loose(node) => IsNested(node)
  }

  predicate FileNested(decls: seq<Decl>, lo: int, hi: int) {
    if |decls| == 0 then lo <= hi
    else lo <= DeclStart(decls[0]) && DeclNested(decls[0]) && FileNested(decls[1..], DeclEnd(decls[0]), hi)
  }
}

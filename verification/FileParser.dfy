/** The walks of the file parser, with the literals they have named so far. */
module FileParser {
  import opened Entities
  import opened Syntax
  import opened LiteralCount
  import opened NamedLiterals
  import OnePass

  class FileParser {
    const pkg: string
    /** The calls made on the index so far. */
    var added: seq<Call>
    var anonFuncByPos: map<int, string>

    constructor (pkg: string)
      ensures this.pkg == pkg && added == [] && anonFuncByPos == map[]
    {
      this.pkg := pkg;
      added, anonFuncByPos := [], map[];
    }

    /** The calls `adds` were made, and their literals' names recorded. */
    twostate predicate HasAdded(adds: seq<Call>)
      reads this
    {
      added == old(added) + adds && anonFuncByPos == Named(old(anonFuncByPos), adds)
    }

    method AddSymbol(inst: Inst, owner: Option<Inst>)
      requires inst.kind != Literal
      modifies this
      ensures HasAdded([Call(inst, owner)]) && anonFuncByPos == old(anonFuncByPos)
    {
      added := added + [Call(inst, owner)];
      assert [Call(inst, owner)][..0] == [];
    }

    /** Adds a literal under the name of what it stands in, and walks its body under its own. */
    method FuncLitParser(start: int, end: int, body: seq<Node>, parent: string, owner: Option<Inst>)
      modifies this
      ensures HasAdded(LitAdds(start, end, body, parent, owner))
      decreases body, 1
    {
      ghost var table := anonFuncByPos;
      var name := LitName(parent, start);
      var first := Call(Inst(Literal, name, start, end), owner);
      added := added + [first];
      anonFuncByPos := anonFuncByPos[start := name];
      assert [first][..0] == [];
      assert anonFuncByPos == Named(table, [first]);
      FunctionBodyParser(body, name);
      NamedInTurn(table, [first], BodyAdds(body, name));
    }

    method FunctionBodyParser(nodes: seq<Node>, parent: string)
      modifies this
      ensures HasAdded(BodyAdds(nodes, parent))
      decreases nodes, 0
    {
      hide Named, NodeAdds;
      ghost var table := anonFuncByPos;
      NoneNamed(table);
      if |nodes| > 0 {
        BodyNode(nodes[0], parent);
        FunctionBodyParser(nodes[1..], parent);
        NamedInTurn(table, NodeAdds(nodes[0], parent), BodyAdds(nodes[1..], parent));
      }
    }

    method BodyNode(n: Node, parent: string)
      modifies this
      ensures HasAdded(NodeAdds(n, parent))
      decreases n, 0
    {
      ghost var table := anonFuncByPos;
      match n
      case FuncLit(start, end, body) => FuncLitParser(start, end, body, parent, None);
      case Member(start, end, name, children) =>
        AddSymbol(Inst(MemberKind, name, start, end), None);
        FunctionBodyParser(children, parent);
        NamedInTurn(table, [Call(Inst(MemberKind, name, start, end), None)], BodyAdds(children, parent));
      case Other(_, _, children) => FunctionBodyParser(children, parent);
    }

    /** Claims for `owner` the outermost literals of one initialiser that have no name yet. */
    method InitialiserFuncLits(nodes: seq<Node>, owner: Inst)
      modifies this
      ensures HasAdded(ClaimedFrom(nodes, owner, old(anonFuncByPos)))
      decreases nodes, 0
    {
      hide ClaimedInFrom, Named;
      ghost var table := anonFuncByPos;
      NoneNamed(table);
      if |nodes| > 0 {
        InitialiserNode(nodes[0], owner);
        InitialiserFuncLits(nodes[1..], owner);
        NamedInTurn(table, ClaimedInFrom(nodes[0], owner, table),
                    ClaimedFrom(nodes[1..], owner, Named(table, ClaimedInFrom(nodes[0], owner, table))));
      }
    }

    method InitialiserNode(n: Node, owner: Inst)
      modifies this
      ensures HasAdded(ClaimedInFrom(n, owner, old(anonFuncByPos)))
      decreases n, 0
    {
      match n
      case FuncLit(start, end, body) =>
        if start in anonFuncByPos {
          return;
        }
        FuncLitParser(start, end, body, owner.name, Some(owner));
      case Member(_, _, _, children) => InitialiserFuncLits(children, owner);
      case Other(_, _, children) => InitialiserFuncLits(children, owner);
    }

    /** One symbol for each declared name of a spec, with the literals of its own initialiser. */
    method ValueSpecParser(spec: Spec)
      modifies this
      ensures HasAdded(NamesFrom(spec, |spec.names|, old(anonFuncByPos)))
    {
      hide ClaimedFrom;
      ghost var table := anonFuncByPos;
      for nameIdx := 0 to |spec.names|
        invariant HasAdded(NamesFrom(spec, nameIdx, table))
      {
        var name := spec.names[nameIdx];
        if !name.isDeclared {
          continue;
        }
        ghost var before := NamesFrom(spec, nameIdx, table);
        var inst := NameInst(spec, name);
        AddSymbol(inst, None);
        NamedInTurn(table, before, [Call(inst, None)]);
        if |spec.values| == |spec.names| {
          ghost var claimed := ClaimedFrom([spec.values[nameIdx]], inst, anonFuncByPos);
          InitialiserFuncLits([spec.values[nameIdx]], inst);
          NamedInTurn(table, before + [Call(inst, None)], claimed);
        } else {
          assert before + [Call(inst, None)] + [] == before + [Call(inst, None)];
        }
      }
    }

    /** All specs of a declaration, before anything else looks into their values. */
    method ValueDeclParser(specs: seq<Spec>)
      modifies this
      ensures HasAdded(SpecsFrom(specs, |specs|, old(anonFuncByPos)))
    {
      hide NamesFrom, Named;
      ghost var table := anonFuncByPos;
      NoneNamed(table);
      for j := 0 to |specs|
        invariant HasAdded(SpecsFrom(specs, j, table))
      {
        ghost var before := SpecsFrom(specs, j, table);
        ValueSpecParser(specs[j]);
        NamedInTurn(table, before, NamesFrom(specs[j], |specs[j].names|, Named(table, before)));
      }
    }

    /** The walk over everything: literals not named yet are the package's. */
    method LooseWalk(nodes: seq<Node>)
      modifies this
      ensures HasAdded(LooseFrom(nodes, pkg, old(anonFuncByPos)))
      decreases nodes, 0
    {
      hide LooseInFrom, Named;
      ghost var table := anonFuncByPos;
      NoneNamed(table);
      if |nodes| > 0 {
        LooseNode(nodes[0]);
        LooseWalk(nodes[1..]);
        NamedInTurn(table, LooseInFrom(nodes[0], pkg, table),
                    LooseFrom(nodes[1..], pkg, Named(table, LooseInFrom(nodes[0], pkg, table))));
      }
    }

    method LooseNode(n: Node)
      modifies this
      ensures HasAdded(LooseInFrom(n, pkg, old(anonFuncByPos)))
      decreases n, 0
    {
      ghost var table := anonFuncByPos;
      match n
      case FuncLit(start, end, body) =>
        if start !in anonFuncByPos {
          FuncLitParser(start, end, body, pkg, None);
        }
      case Member(start, end, name, children) =>
        AddSymbol(Inst(MemberKind, name, start, end), None);
        LooseWalk(children);
        NamedInTurn(table, [Call(Inst(MemberKind, name, start, end), None)], LooseFrom(children, pkg, table));
      case Other(_, _, children) => LooseWalk(children);
    }

    /** The same walk over all specs of a declaration, their names claimed by then. */
    method LooseSpecs(specs: seq<Spec>)
      modifies this
      ensures HasAdded(SpecsLooseFrom(specs, |specs|, pkg, old(anonFuncByPos)))
    {
      hide LooseFrom, Named;
      ghost var table := anonFuncByPos;
      NoneNamed(table);
      for j := 0 to |specs|
        invariant HasAdded(SpecsLooseFrom(specs, j, pkg, table))
      {
        ghost var before := SpecsLooseFrom(specs, j, pkg, table);
        LooseWalk(specs[j].annotation + specs[j].values);
        NamedInTurn(table, before, LooseFrom(NodesOf(specs[j]), pkg, Named(table, before)));
      }
    }

    method ParseDecl(d: Decl)
      modifies this
      ensures HasAdded(DeclFrom(d, pkg, old(anonFuncByPos)))
    {
      ghost var table := anonFuncByPos;
      match d
      case FuncDecl(start, end, fullName, body) =>
        AddSymbol(Inst(Declared, fullName, start, end), None);
        FunctionBodyParser(body, fullName);
        NamedInTurn(table, [Call(Inst(Declared, fullName, start, end), None)], BodyAdds(body, fullName));
      case ValueDecl(_, _, specs) =>
        ValueDeclParser(specs);
        LooseSpecs(specs);
        ghost var names := SpecsFrom(specs, |specs|, table);
        NamedInTurn(table, names, SpecsLooseFrom(specs, |specs|, pkg, Named(table, names)));
      case Loose(node) => LooseNode(node);
    }

    /** The walk over the file, whatever has been named before; on a fresh parser it makes the file's calls. */
    method Parse(decls: seq<Decl>)
      modifies this
      ensures HasAdded(FileFrom(decls, pkg, old(anonFuncByPos)))
      ensures forall lo, hi | FileNested(decls, lo, hi) && old(anonFuncByPos) == map[] ::
                && added == old(added) + FileAdds(decls, pkg)
                && multiset(added) == multiset(old(added)) + OnePass.FileHere(decls, pkg)
    {
      ghost var table := anonFuncByPos;
      ParseDecls(decls);
      forall lo, hi | FileNested(decls, lo, hi) && table == map[]
        ensures FileFrom(decls, pkg, table) == FileAdds(decls, pkg)
        ensures multiset(FileAdds(decls, pkg)) == OnePass.FileHere(decls, pkg)
      {
        FileIsFresh(decls, pkg, table, lo, hi);
        OnePass.FileIsHere(decls, pkg, lo, hi);
      }
    }

    method ParseDecls(decls: seq<Decl>)
      modifies this
      ensures HasAdded(FileFrom(decls, pkg, old(anonFuncByPos)))
      decreases |decls|
    {
      hide DeclFrom, Named;
      ghost var table := anonFuncByPos;
      if |decls| == 0 {
        NoneNamed(table);
      } else {
        ParseDecl(decls[0]);
        ParseDecls(decls[1..]);
        ghost var first := DeclFrom(decls[0], pkg, table);
        NamedInTurn(table, first, FileFrom(decls[1..], pkg, Named(table, first)));
      }
    }
  }
}

/**
 What a file adds, said by one walk that knows at each node where it stands, and that the
 parser's passes with their table of named literals add the same calls, each as often.
 */
module OnePass {
  import opened Entities
  import opened Syntax
  import opened LiteralCount

  // ------------------------------------------------------------------
  // The one walk

  /** Nodes inside `parent`; a literal that is in no other belongs to `owner`. */
  function Here(nodes: seq<Node>, parent: string, owner: Option<Inst>): multiset<Call>
    decreases nodes, 0
  {
    if |nodes| == 0 then multiset{} else HereIn(nodes[0], parent, owner) + Here(nodes[1..], parent, owner)
  }

  function HereIn(n: Node, parent: string, owner: Option<Inst>): multiset<Call>
    decreases n, 0
  {
    match n
    case FuncLit(start, end, body) =>
      var name := parent + ":<anon" + Decimal(start) + ">";
      multiset{Call(Inst(Literal, name, start, end), owner)} + Here(body, name, None)
    case Member(start, end, name, children) =>
      multiset{Call(Inst(MemberKind, name, start, end), None)} + Here(children, parent, owner)
    case Other(_, _, children) => Here(children, parent, owner)
  }

  /** A name has the whole spec for its extent, unless it shares a spec that has values. */
  function Named(spec: Spec, name: Name): Inst {
    if |spec.names| <= 1 || spec.values == [] then Inst(Declared, name.fullName, spec.start, spec.end)
    else Inst(Declared, name.fullName, name.start, name.end)
  }

  /** The first `k` names, those that are declared. */
  function NamesHere(spec: Spec, k: nat): multiset<Call>
    requires k <= |spec.names|
  {
    if k == 0 then multiset{}
    else if !spec.names[k - 1].isDeclared then NamesHere(spec, k - 1)
    else NamesHere(spec, k - 1) + multiset{Call(Named(spec, spec.names[k - 1]), None)}
  }

  /** The first `k` values, each inside its own name when that is declared, and inside the package when not. */
  function ValuesHere(spec: Spec, k: nat, pkg: string): multiset<Call>
    requires k <= |spec.names| == |spec.values|
  {
    if k == 0 then multiset{}
    else
      var name, value := spec.names[k - 1], spec.values[k - 1];
      ValuesHere(spec, k - 1, pkg)
      + if name.isDeclared then HereIn(value, name.fullName, Some(Named(spec, name))) else HereIn(value, pkg, None)
  }

  function SpecHere(spec: Spec, pkg: string): multiset<Call> {
    NamesHere(spec, |spec.names|) + Here(spec.annotation, pkg, None)
    + if |spec.values| == |spec.names| then ValuesHere(spec, |spec.names|, pkg) else Here(spec.values, pkg, None)
  }

  function SpecsHere(specs: seq<Spec>, pkg: string): multiset<Call> {
    if |specs| == 0 then multiset{} else SpecHere(specs[0], pkg) + SpecsHere(specs[1..], pkg)
  }

  function DeclHere(d: Decl, pkg: string): multiset<Call> {
    match d
    case FuncDecl(start, end, fullName, body) =>
      multiset{Call(Inst(Declared, fullName, start, end), None)} + Here(body, fullName, None)
    case ValueDecl(_, _, specs) => SpecsHere(specs, pkg)
    case Loose(node) => HereIn(node, pkg, None)
  }

  function FileHere(decls: seq<Decl>, pkg: string): multiset<Call> {
    if |decls| == 0 then multiset{} else DeclHere(decls[0], pkg) + FileHere(decls[1..], pkg)
  }

  // ------------------------------------------------------------------
  // Numbers in names

  predicate IsDigit(c: char) {
    '0' <= c <= '9'
  }

  /** What a string of digits says. */
  function Reads(digits: string): int
    decreases |digits|
  {
    if |digits| == 0 then 0 else 10 * Reads(digits[..|digits| - 1]) + (digits[|digits| - 1] as int - '0' as int)
  }

  /** An offset is written in digits that read as that offset, without a zero in front. */
  lemma {:induction false} DecimalReads(n: nat)
    ensures var d := Decimal(n);
            && |d| > 0 && (forall i | 0 <= i < |d| :: IsDigit(d[i])) && Reads(d) == n && (d[0] == '0' ==> n == 0)
    decreases n
  {
    var d := Decimal(n);
    if n >= 10 {
      DecimalReads(n / 10);
      assert d[..|d| - 1] == Decimal(n / 10);
    } else {
      assert d[..0] == [];
    }
  }

  // ------------------------------------------------------------------
  // Bodies

  lemma {:induction false} BodyIsHere(nodes: seq<Node>, parent: string)
    ensures multiset(BodyAdds(nodes, parent)) == Here(nodes, parent, None)
    decreases nodes, 0
  {
    if |nodes| > 0 {
      NodeIsHere(nodes[0], parent);
      BodyIsHere(nodes[1..], parent);
    }
  }

  lemma {:induction false} LitIsHere(start: int, end: int, body: seq<Node>, parent: string, owner: Option<Inst>)
    ensures multiset(LitAdds(start, end, body, parent, owner)) == HereIn(FuncLit(start, end, body), parent, owner)
    decreases body, 1
  {
    BodyIsHere(body, LitName(parent, start));
  }

  lemma {:induction false} NodeIsHere(n: Node, parent: string)
    ensures multiset(NodeAdds(n, parent)) == HereIn(n, parent, None)
    decreases n, 0
  {
    match n
    case FuncLit(start, end, body) => LitIsHere(start, end, body, parent, None);
    case Member(_, _, _, children) => BodyIsHere(children, parent);
    case Other(_, _, children) => BodyIsHere(children, parent);
  }

  // ------------------------------------------------------------------
  // Initialisers

  /** Claimed first, the rest in the later walk. */
  lemma {:induction false} TwoPassesAreHere(nodes: seq<Node>, owner: Inst, pkg: string, done: set<int>)
    requires LitStarts(nodes) <= done
    ensures multiset(ClaimedAdds(nodes, owner)) + multiset(LooseAdds(nodes, pkg, done))
            == Here(nodes, owner.name, Some(owner))
    decreases nodes, 0
  {
    if |nodes| > 0 {
      TwoPassesInAreHere(nodes[0], owner, pkg, done);
      TwoPassesAreHere(nodes[1..], owner, pkg, done);
    }
  }

  lemma {:induction false} TwoPassesInAreHere(n: Node, owner: Inst, pkg: string, done: set<int>)
    requires LitStartsIn(n) <= done
    ensures multiset(ClaimedIn(n, owner)) + multiset(LooseIn(n, pkg, done)) == HereIn(n, owner.name, Some(owner))
    decreases n, 0
  {
    match n
    case FuncLit(start, end, body) =>
      assert start in LitStartsIn(n);
      LitIsHere(start, end, body, owner.name, Some(owner));
    case Member(_, _, _, children) => TwoPassesAreHere(children, owner, pkg, done);
    case Other(_, _, children) => TwoPassesAreHere(children, owner, pkg, done);
  }

  /** Not claimed at all. */
  lemma {:induction false} LooseIsHere(nodes: seq<Node>, pkg: string, done: set<int>)
    requires LitStarts(nodes) !! done
    ensures multiset(LooseAdds(nodes, pkg, done)) == Here(nodes, pkg, None)
    decreases nodes, 0
  {
    if |nodes| > 0 {
      LooseInIsHere(nodes[0], pkg, done);
      LooseIsHere(nodes[1..], pkg, done);
    }
  }

  lemma {:induction false} LooseInIsHere(n: Node, pkg: string, done: set<int>)
    requires LitStartsIn(n) !! done
    ensures multiset(LooseIn(n, pkg, done)) == HereIn(n, pkg, None)
    decreases n, 0
  {
    match n
    case FuncLit(start, end, body) =>
      assert start in LitStartsIn(n);
      LitIsHere(start, end, body, pkg, None);
    case Member(_, _, _, children) => LooseIsHere(children, pkg, done);
    case Other(_, _, children) => LooseIsHere(children, pkg, done);
  }

  // ------------------------------------------------------------------
  // Specs

  lemma {:induction false} LooseJoined(a: seq<Node>, b: seq<Node>, pkg: string, done: set<int>)
    ensures LooseAdds(a + b, pkg, done) == LooseAdds(a, pkg, done) + LooseAdds(b, pkg, done)
    decreases |a|
  {
    if |a| == 0 {
      assert a + b == b;
    } else {
      LooseJoined(a[1..], b, pkg, done);
      assert (a + b)[1..] == a[1..] + b;
    }
  }

  lemma OneNodeAdds(n: Node, owner: Inst, pkg: string, done: set<int>)
    ensures ClaimedAdds([n], owner) == ClaimedIn(n, owner) && LooseAdds([n], pkg, done) == LooseIn(n, pkg, done)
  {
    assert [n][1..] == [];
  }

  /** Adding up in another order. */
  lemma Rearranged(
      n: multiset<Call>, l: multiset<Call>, h: multiset<Call>, v: multiset<Call>, first: multiset<Call>,
      c: multiset<Call>, o: multiset<Call>, w: multiset<Call>)
    requires n + l == h + v && c + o == w
    ensures (n + first + c) + (l + o) == (h + first) + (v + w)
  {
    forall x ensures ((n + first + c) + (l + o))[x] == ((h + first) + (v + w))[x] {
      assert (n + l)[x] == (h + v)[x] && (c + o)[x] == w[x];
    }
  }

  lemma Reordered(n: multiset<Call>, t: multiset<Call>, v: multiset<Call>, h: multiset<Call>, x: multiset<Call>)
    requires n + v == h + x
    ensures n + (t + v) == h + t + x
  {
    forall a ensures (n + (t + v))[a] == (h + t + x)[a] {
      assert (n + v)[a] == (h + x)[a];
    }
  }

  /** Names with a value each: what the first `k` add in both passes. */
  lemma {:induction false} PairedAreHere(spec: Spec, k: nat, pkg: string, done: set<int>)
    requires SpecNested(spec) && DoneFits(spec, done) && IsPaired(spec) && k <= |spec.names|
    ensures multiset(NamesAdds(spec, k)) + multiset(LooseAdds(spec.values[..k], pkg, done))
            == NamesHere(spec, k) + ValuesHere(spec, k, pkg)
  {
    hide SpecNested, DoneFits, ClaimedIn, LooseIn, HereIn, LitStartsIn;
    if k == 0 {
      assert spec.values[..0] == [];
    } else {
      hide NamesAdds, LooseAdds, NamesHere, ValuesHere;
      var name, value := spec.names[k - 1], spec.values[k - 1];
      PairedAreHere(spec, k - 1, pkg, done);
      NodeIsSettled(spec, done, |spec.annotation| + k - 1);
      var names, loose := NamesAdds(spec, k - 1), LooseAdds(spec.values[..k - 1], pkg, done);
      var first, claimed, rest, w := multiset{}, [], LooseIn(value, pkg, done), HereIn(value, pkg, None);
      if name.isDeclared {
        first, claimed := multiset{Call(Named(spec, name), None)}, ClaimedIn(value, NameInst(spec, name));
        w := HereIn(value, name.fullName, Some(Named(spec, name)));
        TwoPassesInAreHere(value, NameInst(spec, name), pkg, done);
      } else {
        LooseInIsHere(value, pkg, done);
      }
      HereJoined(spec, k, pkg, first, w);
      Rearranged(multiset(names), multiset(loose), NamesHere(spec, k - 1), ValuesHere(spec, k - 1, pkg),
                 first, multiset(claimed), multiset(rest), w);
      BothPassesJoined(spec, k, pkg, done, first, claimed);
    }
  }

  lemma HereJoined(spec: Spec, k: nat, pkg: string, first: multiset<Call>, w: multiset<Call>)
    requires IsPaired(spec) && 0 < k <= |spec.names|
    requires var name, value := spec.names[k - 1], spec.values[k - 1];
             if name.isDeclared
             then first == multiset{Call(Named(spec, name), None)}
                  && w == HereIn(value, name.fullName, Some(Named(spec, name)))
             else first == multiset{} && w == HereIn(value, pkg, None)
    ensures NamesHere(spec, k) == NamesHere(spec, k - 1) + first
    ensures ValuesHere(spec, k, pkg) == ValuesHere(spec, k - 1, pkg) + w
  {
    hide HereIn;
  }

  /** Both passes over one name and value more. */
  lemma BothPassesJoined(spec: Spec, k: nat, pkg: string, done: set<int>, first: multiset<Call>, claimed: seq<Call>)
    requires IsPaired(spec) && 0 < k <= |spec.names|
    requires var name, value := spec.names[k - 1], spec.values[k - 1];
             && (if name.isDeclared
                 then
                   && first == multiset{Call(Named(spec, name), None)}
                   && claimed == ClaimedIn(value, NameInst(spec, name))
                 else first == multiset{} && claimed == [])
    ensures multiset(NamesAdds(spec, k)) == multiset(NamesAdds(spec, k - 1)) + first + multiset(claimed)
    ensures multiset(LooseAdds(spec.values[..k], pkg, done))
            == multiset(LooseAdds(spec.values[..k - 1], pkg, done)) + multiset(LooseIn(spec.values[k - 1], pkg, done))
  {
    hide ClaimedIn, LooseIn;
    var value, name := spec.values[k - 1], spec.names[k - 1];
    OneNodeAdds(value, NameInst(spec, name), pkg, done);
    assert spec.values[..k] == spec.values[..k - 1] + [value];
    LooseJoined(spec.values[..k - 1], [value], pkg, done);
    if name.isDeclared {
      assert NamesAdds(spec, k) == NamesAdds(spec, k - 1) + [Call(NameInst(spec, name), None)] + claimed;
      assert NameInst(spec, name) == Named(spec, name);
    }
  }

  lemma {:induction false} UnpairedAreHere(spec: Spec, k: nat)
    requires !IsPaired(spec) && k <= |spec.names|
    ensures multiset(NamesAdds(spec, k)) == NamesHere(spec, k)
  {
    if k > 0 {
      UnpairedAreHere(spec, k - 1);
    }
  }

  /** Nodes none of whose literals are claimed. */
  lemma {:induction false} UnclaimedStarts(nodes: seq<Node>, done: set<int>)
    requires forall m | 0 <= m < |nodes| :: LitStartsIn(nodes[m]) !! done
    ensures LitStarts(nodes) !! done
  {
    if |nodes| > 0 {
      UnclaimedStarts(nodes[1..], done);
    }
  }

  lemma SpecIsHere(spec: Spec, pkg: string, done: set<int>)
    requires SpecNested(spec) && DoneFits(spec, done)
    ensures multiset(NamesAdds(spec, |spec.names|)) + multiset(LooseAdds(NodesOf(spec), pkg, done))
            == SpecHere(spec, pkg)
  {
    hide SpecNested, DoneFits, LitStartsIn, LitStarts, NamesAdds, LooseAdds, Here, NamesHere, ValuesHere;
    forall m | 0 <= m < |spec.annotation| ensures LitStartsIn(spec.annotation[m]) !! done {
      NodeIsSettled(spec, done, m);
    }
    UnclaimedStarts(spec.annotation, done);
    LooseIsHere(spec.annotation, pkg, done);
    LooseJoined(spec.annotation, spec.values, pkg, done);
    var names := NamesAdds(spec, |spec.names|);
    var typed, valued := LooseAdds(spec.annotation, pkg, done), LooseAdds(spec.values, pkg, done);
    assert multiset(LooseAdds(NodesOf(spec), pkg, done)) == multiset(typed) + multiset(valued);
    if IsPaired(spec) {
      PairedAreHere(spec, |spec.names|, pkg, done);
      assert spec.values[..|spec.names|] == spec.values;
      Reordered(multiset(names), multiset(typed), multiset(valued), NamesHere(spec, |spec.names|),
                ValuesHere(spec, |spec.names|, pkg));
    } else {
      UnpairedAreHere(spec, |spec.names|);
      forall m | 0 <= m < |spec.values| ensures LitStartsIn(spec.values[m]) !! done {
        NodeIsSettled(spec, done, |spec.annotation| + m);
      }
      UnclaimedStarts(spec.values, done);
      LooseIsHere(spec.values, pkg, done);
      Reordered(multiset(names), multiset(typed), multiset(valued), NamesHere(spec, |spec.names|),
                Here(spec.values, pkg, None));
    }
  }

  lemma {:induction false} SpecsAreHere(specs: seq<Spec>, pkg: string, done: set<int>, lo: int, hi: int)
    requires SpecsNested(specs, lo, hi) && forall j | 0 <= j < |specs| :: DoneFits(specs[j], done)
    ensures multiset(SpecsAdds(specs)) + multiset(SpecsLoose(specs, pkg, done)) == SpecsHere(specs, pkg)
    decreases |specs|
  {
    hide SpecNested, DoneFits, NamesAdds, LooseAdds, SpecHere;
    if |specs| > 0 {
      SpecIsHere(specs[0], pkg, done);
      SpecsAreHere(specs[1..], pkg, done, specs[0].end, hi);
    }
  }

  // ------------------------------------------------------------------
  // Files

  lemma DeclIsHere(d: Decl, pkg: string)
    requires DeclNested(d)
    ensures multiset(DeclAdds(d, pkg)) == DeclHere(d, pkg)
  {
    hide SpecsNested, Here, HereIn, BodyAdds, LooseIn, SpecsAdds, SpecsLoose, SpecsHere, DoneFits;
    match d
    case FuncDecl(_, _, fullName, body) => BodyIsHere(body, fullName);
    case ValueDecl(start, end, specs) =>
      forall j | 0 <= j < |specs| ensures DoneFits(specs[j], SpecsStarts(specs)) {
        DoneFitsAll(specs, start, end, j);
      }
      SpecsAreHere(specs, pkg, SpecsStarts(specs), start, end);
    case Loose(node) => LooseInIsHere(node, pkg, {});
  }

  /** A well-nested file makes the calls of the one walk, each of them as often, in some order. */
  lemma {:induction false} FileIsHere(decls: seq<Decl>, pkg: string, lo: int, hi: int)
    requires FileNested(decls, lo, hi)
    ensures multiset(FileAdds(decls, pkg)) == FileHere(decls, pkg)
    decreases |decls|
  {
    hide DeclNested, DeclAdds, DeclHere, DeclEnd, DeclStart;
    if |decls| > 0 {
      DeclIsHere(decls[0], pkg);
      FileIsHere(decls[1..], pkg, DeclEnd(decls[0]), hi);
    }
  }
}

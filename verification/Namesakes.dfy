/**
 Where the instances of a walk lie, and how the two passes over an initialiser add up: what is
 claimed for a name first and what is found later are what one walk would add.
 */
module Namesakes {
  import opened Entities
  import opened Syntax
  import opened Literals

  // ------------------------------------------------------------------
  // Where instances lie

  lemma LitLies(start: int, end: int, body: seq<Node>, parent: string, owner: Option<Inst>)
    requires start < end && AreNested(body, start + 1, end)
    ensures forall y | y in Insts(LitAdds(start, end, body, parent, owner)) :: LiesIn(y, start, end)
  {
    hide Insts;
    BodyIsPlaced(body, LitName(parent, start), start + 1, end);
    InstsJoined([Call(LitInst(parent, start, end), owner)], BodyAdds(body, LitName(parent, start)));
    InstsOfOne(Call(LitInst(parent, start, end), owner));
  }

  lemma {:induction false} LooseLie(nodes: seq<Node>, pkg: string, done: set<int>, lo: int, hi: int)
    requires AreNested(nodes, lo, hi)
    ensures lo <= hi && forall y | y in Insts(LooseAdds(nodes, pkg, done)) :: LiesIn(y, lo, hi)
    decreases nodes, 0
  {
    hide Insts;
    if |nodes| == 0 {
      NoInsts();
    } else {
      LooseNodeLies(nodes[0], pkg, done);
      LooseLie(nodes[1..], pkg, done, nodes[0].end, hi);
      InstsJoined(LooseIn(nodes[0], pkg, done), LooseAdds(nodes[1..], pkg, done));
    }
  }

  lemma {:induction false} LooseNodeLies(n: Node, pkg: string, done: set<int>)
    requires IsNested(n)
    ensures n.start <= n.end && forall y | y in Insts(LooseIn(n, pkg, done)) :: LiesIn(y, n.start, n.end)
    decreases n, 0
  {
    hide Insts;
    match n
    case FuncLit(start, end, body) =>
      NoInsts();
      LitLies(start, end, body, pkg, None);
    case Member(start, end, name, children) =>
      LooseLie(children, pkg, done, start + 1, end);
      InstsJoined([Call(Inst(MemberKind, name, start, end), None)], LooseAdds(children, pkg, done));
      InstsOfOne(Call(Inst(MemberKind, name, start, end), None));
    case Other(start, end, children) => LooseLie(children, pkg, done, start, end);
  }

  // ------------------------------------------------------------------
  // An initialiser in two passes

  lemma {:induction false} LitInsts(start: int, end: int, body: seq<Node>, parent: string, owner: Option<Inst>)
    ensures Insts(LitAdds(start, end, body, parent, owner)) == Insts(LitAdds(start, end, body, parent, None))
  {
    hide Insts;
    var rest := BodyAdds(body, LitName(parent, start));
    InstsJoined([Call(LitInst(parent, start, end), owner)], rest);
    InstsJoined([Call(LitInst(parent, start, end), None)], rest);
    InstsOfOne(Call(LitInst(parent, start, end), owner));
    InstsOfOne(Call(LitInst(parent, start, end), None));
  }

  /** Claiming its literals and finding the rest later adds what walking it as a body would. */
  lemma {:induction false} TwoPasses(nodes: seq<Node>, owner: Inst, pkg: string, done: set<int>)
    requires LitStarts(nodes) <= done
    ensures Insts(ClaimedAdds(nodes, owner)) + Insts(LooseAdds(nodes, pkg, done)) == Insts(BodyAdds(nodes, owner.name))
    decreases nodes, 0
  {
    hide Insts;
    if |nodes| == 0 {
      NoInsts();
    } else {
      TwoPassesIn(nodes[0], owner, pkg, done);
      TwoPasses(nodes[1..], owner, pkg, done);
      InstsJoined(ClaimedIn(nodes[0], owner), ClaimedAdds(nodes[1..], owner));
      InstsJoined(LooseIn(nodes[0], pkg, done), LooseAdds(nodes[1..], pkg, done));
      InstsJoined(NodeAdds(nodes[0], owner.name), BodyAdds(nodes[1..], owner.name));
    }
  }

  lemma {:induction false} TwoPassesIn(n: Node, owner: Inst, pkg: string, done: set<int>)
    requires LitStartsIn(n) <= done
    ensures Insts(ClaimedIn(n, owner)) + Insts(LooseIn(n, pkg, done)) == Insts(NodeAdds(n, owner.name))
    decreases n, 0
  {
    hide Insts;
    match n
    case FuncLit(start, end, body) =>
      NoInsts();
      assert start in LitStartsIn(n);
      LitInsts(start, end, body, owner.name, Some(owner));
    case Member(start, end, name, children) =>
      TwoPasses(children, owner, pkg, done);
      InstsJoined([Call(Inst(MemberKind, name, start, end), None)], LooseAdds(children, pkg, done));
      InstsJoined([Call(Inst(MemberKind, name, start, end), None)], BodyAdds(children, owner.name));
    case Other(_, _, children) => TwoPasses(children, owner, pkg, done);
  }

  lemma InstOf(adds: seq<Call>, a: Call)
    requires a in adds
    ensures a.inst in Insts(adds)
  {}

  /** A claimed literal is owned and named after its owner, or lies inside one that is. */
  lemma {:induction false} OwnedOrInside(nodes: seq<Node>, owner: Inst, lo: int, hi: int, a: Call)
    requires AreNested(nodes, lo, hi) && a in ClaimedAdds(nodes, owner)
    ensures a.owner == Some(owner) ==> a.inst.kind == Literal && a.inst.name == LitName(owner.name, a.inst.start)
    ensures a.owner.Some? ==> a.owner == Some(owner)
    ensures a.owner.None? ==> exists y :: y in Insts(ClaimedAdds(nodes, owner)) && y != a.inst && Spans(y, a.inst)
    decreases nodes, 0
  {
    hide Insts;
    InstsJoined(ClaimedIn(nodes[0], owner), ClaimedAdds(nodes[1..], owner));
    if a in ClaimedIn(nodes[0], owner) {
      OwnedOrInsideNode(nodes[0], owner, a);
    } else {
      OwnedOrInside(nodes[1..], owner, nodes[0].end, hi, a);
    }
  }

  lemma {:induction false} OwnedOrInsideNode(n: Node, owner: Inst, a: Call)
    requires IsNested(n) && a in ClaimedIn(n, owner)
    ensures a.owner == Some(owner) ==> a.inst.kind == Literal && a.inst.name == LitName(owner.name, a.inst.start)
    ensures a.owner.Some? ==> a.owner == Some(owner)
    ensures a.owner.None? ==> exists y :: y in Insts(ClaimedIn(n, owner)) && y != a.inst && Spans(y, a.inst)
    decreases n, 0
  {
    hide Insts;
    match n
    case FuncLit(start, end, body) =>
      var first, rest := Call(LitInst(owner.name, start, end), Some(owner)), BodyAdds(body, LitName(owner.name, start));
      if a != first {
        assert a in rest;
        BodyHasNoOwner(body, LitName(owner.name, start), a);
        BodyIsPlaced(body, LitName(owner.name, start), start + 1, end);
        InstOf(rest, a);
        assert LiesIn(a.inst, start + 1, end);
        InstOf(ClaimedIn(n, owner), first);
      }
    case Member(start, end, _, children) => OwnedOrInside(children, owner, start + 1, end, a);
    case Other(start, end, children) => OwnedOrInside(children, owner, start, end, a);
  }

  lemma {:induction false} BodyHasNoOwner(nodes: seq<Node>, parent: string, a: Call)
    requires a in BodyAdds(nodes, parent)
    ensures a.owner == None
    decreases nodes, 0
  {
    if a in NodeAdds(nodes[0], parent) {
      NodeHasNoOwner(nodes[0], parent, a);
    } else {
      BodyHasNoOwner(nodes[1..], parent, a);
    }
  }

  lemma {:induction false} NodeHasNoOwner(n: Node, parent: string, a: Call)
    requires a in NodeAdds(n, parent)
    ensures a.owner == None
    decreases n, 0
  {
    match n
    case FuncLit(start, end, body) =>
      if a != Call(LitInst(parent, start, end), None) {
        BodyHasNoOwner(body, LitName(parent, start), a);
      }
    case Member(start, end, name, children) =>
      if a != Call(Inst(MemberKind, name, start, end), None) {
        BodyHasNoOwner(children, parent, a);
      }
    case Other(_, _, children) => BodyHasNoOwner(children, parent, a);
  }
}

/** Where the literals of a well-nested tree lie: each directly inside what it is named after. */
module Literals {
  import opened Entities
  import opened Syntax

  /** The instances that a list of calls adds. */
  function Insts(adds: seq<Call>): set<Inst> {
    set a | a in adds :: a.inst
  }

  predicate Spans(y: Inst, x: Inst) {
    y.start <= x.start && x.end <= y.end
  }

  /** `p` is the innermost instance around `x`, and `x` is named after it unless it is a member. */
  ghost predicate IsDirectlyIn(all: set<Inst>, x: Inst, p: Inst) {
    && p in all && Spans(p, x) && (p.start, p.end) != (x.start, x.end)
    && (forall y | y in all && y != x && Spans(y, x) :: y == p || (Spans(y, p) && (y.start, y.end) != (p.start, p.end)))
    && (x.kind == Literal && p.kind != MemberKind ==> x.name == LitName(p.name, x.start))
  }

  ghost predicate IsTop(all: set<Inst>, parent: string, x: Inst) {
    && (forall y | y in all && y != x :: !Spans(y, x))
    && (x.kind == Literal ==> x.name == LitName(parent, x.start))
  }

  ghost predicate IsSomewhereIn(all: set<Inst>, x: Inst) {
    exists p :: IsDirectlyIn(all, x, p)
  }

  predicate LiesIn(x: Inst, lo: int, hi: int) {
    lo <= x.start < x.end <= hi
  }

  /** All between `lo` and `hi`, each on top or directly inside another. */
  ghost predicate IsPlaced(all: set<Inst>, parent: string, lo: int, hi: int) {
    && (forall x | x in all :: LiesIn(x, lo, hi))
    && (forall x | x in all :: IsTop(all, parent, x) || IsSomewhereIn(all, x))
  }

  lemma NothingPlaced(parent: string, lo: int, hi: int)
    ensures IsPlaced({}, parent, lo, hi)
  {}

  lemma PlacedWider(all: set<Inst>, parent: string, lo: int, hi: int, lo': int, hi': int)
    requires IsPlaced(all, parent, lo, hi) && lo' <= lo && hi <= hi'
    ensures IsPlaced(all, parent, lo', hi')
  {}

  /** What surrounds or avoids a whole region does not come between things in it. */
  lemma StaysDirectlyIn(some: set<Inst>, all: set<Inst>, x: Inst, p: Inst, lo: int, hi: int)
    requires IsDirectlyIn(some, x, p) && some <= all && x in some
    requires forall z | z in some :: LiesIn(z, lo, hi)
    requires forall y | y in all && y !in some ::
               y.end <= lo || hi <= y.start || (y.start <= lo && hi <= y.end && (y.start, y.end) != (p.start, p.end))
    ensures IsDirectlyIn(all, x, p)
  {
    assert LiesIn(x, lo, hi) && LiesIn(p, lo, hi);
  }

  /** Two stretches one after the other. */
  lemma PlacedBoth(a: set<Inst>, b: set<Inst>, parent: string, lo: int, mid: int, hi: int)
    requires IsPlaced(a, parent, lo, mid) && IsPlaced(b, parent, mid, hi) && lo <= mid <= hi
    ensures IsPlaced(a + b, parent, lo, hi)
  {
    var all := a + b;
    forall x | x in all ensures IsTop(all, parent, x) || IsSomewhereIn(all, x) {
      if x in a {
        assert LiesIn(x, lo, mid);
        if !IsTop(a, parent, x) {
          var p :| IsDirectlyIn(a, x, p);
          StaysDirectlyIn(a, all, x, p, lo, mid);
        }
      } else {
        assert LiesIn(x, mid, hi);
        if !IsTop(b, parent, x) {
          var p :| IsDirectlyIn(b, x, p);
          StaysDirectlyIn(b, all, x, p, mid, hi);
        }
      }
    }
  }

  /** An instance around everything: what was on top is now directly inside it. */
  lemma PlacedAround(all: set<Inst>, parent: string, outer: Inst, inner: string)
    requires outer.start < outer.end && IsPlaced(all, inner, outer.start + 1, outer.end)
    requires outer.kind == Literal ==> outer.name == LitName(parent, outer.start)
    requires outer.kind != MemberKind ==> outer.name == inner
    ensures IsPlaced(all + {outer}, parent, outer.start, outer.end)
  {
    var more := all + {outer};
    assert forall x | x in all :: LiesIn(x, outer.start + 1, outer.end);
    forall x | x in more ensures IsTop(more, parent, x) || IsSomewhereIn(more, x) {
      if x == outer {
        assert IsTop(more, parent, x);
      } else if IsTop(all, inner, x) {
        assert IsDirectlyIn(more, x, outer);
      } else {
        var p :| IsDirectlyIn(all, x, p);
        assert IsDirectlyIn(more, x, p);
      }
    }
  }

  lemma InstsJoined(a: seq<Call>, b: seq<Call>)
    ensures Insts(a + b) == Insts(a) + Insts(b)
  {
    forall x | x in Insts(a) + Insts(b) ensures x in Insts(a + b) {
      if x in Insts(a) {
        var y :| y in a && y.inst == x;
        assert y in a + b;
      } else {
        var y :| y in b && y.inst == x;
        assert y in a + b;
      }
    }
  }

  lemma InstsOfOne(a: Call)
    ensures Insts([a]) == {a.inst}
  {
    assert a in [a];
  }

  /** A well-nested body is placed under the name it is walked with. */
  lemma {:induction false} BodyIsPlaced(nodes: seq<Node>, parent: string, lo: int, hi: int)
    requires AreNested(nodes, lo, hi)
    ensures lo <= hi && IsPlaced(Insts(BodyAdds(nodes, parent)), parent, lo, hi)
    decreases nodes, 0
  {
    hide IsPlaced, Insts;
    if |nodes| == 0 {
      assert BodyAdds(nodes, parent) == [];
      NoInsts();
      NothingPlaced(parent, lo, hi);
    } else {
      NodeIsPlaced(nodes[0], parent);
      BodyIsPlaced(nodes[1..], parent, nodes[0].end, hi);
      InstsJoined(NodeAdds(nodes[0], parent), BodyAdds(nodes[1..], parent));
      PlacedWider(Insts(NodeAdds(nodes[0], parent)), parent, nodes[0].start, nodes[0].end, lo, nodes[0].end);
      PlacedBoth(Insts(NodeAdds(nodes[0], parent)), Insts(BodyAdds(nodes[1..], parent)), parent, lo, nodes[0].end, hi);
    }
  }

  lemma NoInsts()
    ensures Insts([]) == {}
  {}

  lemma WrappedIsPlaced(outer: Inst, owner: Option<Inst>, body: seq<Node>, parent: string, inner: string)
    requires outer.start < outer.end
    requires IsPlaced(Insts(BodyAdds(body, inner)), inner, outer.start + 1, outer.end)
    requires outer.kind == Literal ==> outer.name == LitName(parent, outer.start)
    requires outer.kind != MemberKind ==> outer.name == inner
    ensures IsPlaced(Insts([Call(outer, owner)] + BodyAdds(body, inner)), parent, outer.start, outer.end)
  {
    hide IsPlaced, Insts;
    InstsJoined([Call(outer, owner)], BodyAdds(body, inner));
    InstsOfOne(Call(outer, owner));
    PlacedAround(Insts(BodyAdds(body, inner)), parent, outer, inner);
    assert {outer} + Insts(BodyAdds(body, inner)) == Insts(BodyAdds(body, inner)) + {outer};
  }

  lemma {:induction false} NodeIsPlaced(n: Node, parent: string)
    requires IsNested(n)
    ensures n.start <= n.end && IsPlaced(Insts(NodeAdds(n, parent)), parent, n.start, n.end)
    decreases n, 0
  {
    hide IsPlaced, Insts;
    match n
    case FuncLit(start, end, body) =>
      BodyIsPlaced(body, LitName(parent, start), start + 1, end);
      WrappedIsPlaced(LitInst(parent, start, end), None, body, parent, LitName(parent, start));
    case Member(start, end, name, children) =>
      BodyIsPlaced(children, parent, start + 1, end);
      WrappedIsPlaced(Inst(MemberKind, name, start, end), None, children, parent, parent);
    case Other(start, end, children) =>
      BodyIsPlaced(children, parent, start, end);
  }
}

/**
 The preorder walk over child lists, as a transition on values: what every step of the
 explicit stack keeps, and what that leaves at the end.

 The invariant is kept in four parts, each with its own lemma per step.
 */
module WalkProof {
  import opened StableOrder
  import opened Forest

  /** The children of `p`, each once, in `order`. */
  ghost predicate IsChildList(parent: seq<int>, order: seq<nat>, p: int, list: seq<nat>)
    requires forall x: nat | x < |parent| :: x in order
  {
    && (forall i | 0 <= i < |list| :: list[i] < |parent| && parent[list[i]] == p)
    && (forall i, j | 0 <= i < j < |list| :: Pos(order, list[i]) < Pos(order, list[j]))
    && (forall x: nat {:trigger parent[x]} {:trigger x in list} | x < |parent| && parent[x] == p :: x in list)
  }

  /** A parent array with the child lists that invert it; node -1 stands for the roots. */
  datatype Graph = Graph(parent: seq<int>, order: seq<nat>, folded: seq<bool>, kids: seq<seq<nat>>, roots: seq<nat>)
  {
    ghost predicate Sized() {
      && IsParents(parent) && |folded| == |parent| && |kids| == |parent|
      && (forall x: nat | x < |parent| :: x in order)
    }

    ghost predicate Inverted()
      requires Sized()
    {
      forall p {:trigger IsChildList(parent, order, p, List(p))} | -1 <= p < |parent| ::
        IsChildList(parent, order, p, List(p))
    }

    function List(node: int): seq<nat>
      requires -1 <= node < |kids|
    {
      if node == -1 then roots else kids[node]
    }
  }

  /** `next` is the position in the node's child list still to be visited. */
  datatype Frame = Frame(node: int, next: nat)

  /** How far the walk has come. */
  datatype Progress =
    Progress(num: seq<Place>, events: seq<Event>, entered: set<nat>, closed: set<nat>, frames: seq<Frame>)

  /** Every event so far has its number, one stride each. */
  ghost predicate Dated(w: Progress) {
    && w.closed <= w.entered
    && (forall x | x in w.entered :: x < |w.num|)
    && |w.events| == |w.entered| + |w.closed|
    && (forall i | 0 <= i < |w.events| ::
          w.events[i].node < |w.num| && NumberOf(w.num, w.events[i]) == STRIDE * (i + 1))
    && (forall e: Event :: e in w.events <==> if e.Enter? then e.node in w.entered else e.node in w.closed)
  }

  /** The rules between a parent and its child, as far as both have been visited. */
  ghost predicate Ruled(g: Graph, w: Progress) {
    && |w.num| == |g.parent| == |g.folded| && IsParents(g.parent)
    && (forall x: nat {:trigger w.num[x]} | x < |w.num| && x in w.entered :: w.num[x].level >= 0)
    && (forall x: nat {:trigger w.num[x]} | x < |w.num| && x in w.closed :: w.num[x].enter < w.num[x].exit)
    && (forall x: nat {:trigger g.parent[x]} | x < |w.num| && x in w.entered && g.parent[x] == -1 ::
          w.num[x].level == 0 && w.num[x].fold == 0)
    && (forall x: nat {:trigger g.parent[x]} | x < |w.num| && x in w.entered && g.parent[x] >= 0 ::
          && g.parent[x] in w.entered
          && w.num[g.parent[x]].enter < w.num[x].enter
          && w.num[x].level == w.num[g.parent[x]].level + 1
          && w.num[x].fold == w.num[g.parent[x]].fold + FoldStep(g.folded[g.parent[x]]))
    && (forall x: nat {:trigger g.parent[x]} | x < |w.num| && g.parent[x] >= 0 && g.parent[x] in w.closed ::
          x in w.closed && w.num[x].exit < w.num[g.parent[x]].exit)
  }

  /** A visited node comes after all its earlier siblings are closed. */
  ghost predicate InSiblingOrder(g: Graph, w: Progress) {
    && |w.num| == |g.parent|
    && (forall x: nat | x < |g.parent| :: x in g.order)
    && (forall a: nat, b: nat {:trigger Pos(g.order, a), Pos(g.order, b)} |
          a < |w.num| && b < |w.num| && b in w.entered && g.parent[a] == g.parent[b]
            && Pos(g.order, a) < Pos(g.order, b) ::
          a in w.closed && w.num[a].exit < w.num[b].enter)
  }

  /** The frames above the list of roots are the nodes open now. */
  ghost predicate Stacked(w: Progress) {
    && |w.frames| > 0 && w.frames[0].node == -1
    && (forall i | 0 < i < |w.frames| ::
          w.frames[i].node >= 0 && w.frames[i].node in w.entered && w.frames[i].node !in w.closed)
    && (forall x | x in w.entered && x !in w.closed :: exists i :: 0 < i < |w.frames| && w.frames[i].node == x)
    && (forall i, j | 0 <= i < j < |w.frames| :: w.frames[i].node != w.frames[j].node)
  }

  /** A frame has entered its first `next` children, and closed all but the one above it. */
  ghost predicate Visited(list: seq<nat>, next: nat, above: int, entered: set<nat>, closed: set<nat>) {
    && next <= |list|
    && (above >= 0 ==> next > 0 && list[next - 1] == above)
    && (forall j | 0 <= j < next :: list[j] in entered && (list[j] in closed || list[j] == above))
    && (forall j | next <= j < |list| :: list[j] !in entered)
  }

  function Above(frames: seq<Frame>, i: nat): int {
    if i + 1 < |frames| then frames[i + 1].node else -1
  }

  ghost predicate FrameVisited(g: Graph, w: Progress, i: nat) {
    && i < |w.frames| && -1 <= w.frames[i].node < |g.kids|
    && Visited(g.List(w.frames[i].node), w.frames[i].next, Above(w.frames, i), w.entered, w.closed)
  }

  ghost predicate AllVisited(g: Graph, w: Progress) {
    forall i: nat {:trigger FrameVisited(g, w, i)} | i < |w.frames| :: FrameVisited(g, w, i)
  }

  ghost predicate Walking(g: Graph, w: Progress) {
    && g.Sized() && g.Inverted() && |w.num| == |g.parent|
    && Dated(w) && Ruled(g, w) && InSiblingOrder(g, w) && Stacked(w) && AllVisited(g, w)
  }

  lemma StartOfWalk(g: Graph, num: seq<Place>)
    requires g.Sized() && g.Inverted() && |num| == |g.parent|
    ensures Walking(g, Progress(num, [], {}, {}, [Frame(-1, 0)]))
  {}

  lemma NumbersSoFar(w: Progress)
    requires Dated(w)
    ensures forall x: nat | x in w.entered :: w.num[x].enter <= STRIDE * |w.events|
    ensures forall x: nat | x in w.closed :: w.num[x].exit <= STRIDE * |w.events|
  {
    forall x: nat | x in w.entered ensures w.num[x].enter <= STRIDE * |w.events| {
      assert Enter(x) in w.events;
      var i :| 0 <= i < |w.events| && w.events[i] == Enter(x);
      assert NumberOf(w.num, w.events[i]) == STRIDE * (i + 1);
    }
    forall x: nat | x in w.closed ensures w.num[x].exit <= STRIDE * |w.events| {
      assert Exit(x) in w.events;
      var i :| 0 <= i < |w.events| && w.events[i] == Exit(x);
      assert NumberOf(w.num, w.events[i]) == STRIDE * (i + 1);
    }
  }

  // ------------------------------------------------------------------
  // Entering the next child of the top frame

  /** The fields written on a child entered under `node`, with `ticks` events before it. */
  ghost function EnteredPlace(g: Graph, num: seq<Place>, ticks: nat, node: int, child: nat): Place
    requires |num| == |g.folded| && -1 <= node < |num| && child < |num|
  {
    Place(STRIDE * (ticks + 1), num[child].exit,
          if node == -1 then 0 else num[node].level + 1,
          if node == -1 then 0 else num[node].fold + FoldStep(g.folded[node]))
  }

  ghost predicate CanEnter(g: Graph, w: Progress) {
    && |w.frames| > 0
    && var top := w.frames[|w.frames| - 1];
       -1 <= top.node < |g.kids| && top.next < |g.List(top.node)|
  }

  ghost function NextChild(g: Graph, w: Progress): nat
    requires CanEnter(g, w)
  {
    var top := w.frames[|w.frames| - 1];
    g.List(top.node)[top.next]
  }

  ghost function AfterEnter(g: Graph, w: Progress): Progress
    requires CanEnter(g, w) && |w.num| == |g.folded| == |g.kids| && NextChild(g, w) < |w.num|
  {
    var t := |w.frames| - 1;
    var node, next := w.frames[t].node, w.frames[t].next;
    var child := NextChild(g, w);
    Progress(w.num[child := EnteredPlace(g, w.num, |w.events|, node, child)], w.events + [Enter(child)],
             w.entered + {child}, w.closed, w.frames[t := Frame(node, next + 1)] + [Frame(child, 0)])
  }

  /** What a child about to be entered is. */
  lemma NextChildIsNew(g: Graph, w: Progress)
    requires Walking(g, w) && CanEnter(g, w)
    ensures var child := NextChild(g, w);
            child < |w.num| && child !in w.entered && g.parent[child] == w.frames[|w.frames| - 1].node
  {
    var t := |w.frames| - 1;
    assert FrameVisited(g, w, t);
    assert IsChildList(g.parent, g.order, w.frames[t].node, g.List(w.frames[t].node));
  }

  lemma EnterDated(w: Progress, child: nat, place: Place, frames: seq<Frame>)
    requires Dated(w) && child < |w.num| && child !in w.entered
    requires place.enter == STRIDE * (|w.events| + 1)
    ensures Dated(Progress(w.num[child := place], w.events + [Enter(child)], w.entered + {child}, w.closed, frames))
  {
    var v := Progress(w.num[child := place], w.events + [Enter(child)], w.entered + {child}, w.closed, frames);
    forall i | 0 <= i < |v.events|
      ensures v.events[i].node < |v.num| && NumberOf(v.num, v.events[i]) == STRIDE * (i + 1)
    {
      if i < |w.events| {
        assert w.events[i] in w.events;
        assert v.events[i] == w.events[i] && w.events[i].node != child;
      }
    }
  }

  lemma EnterRuled(g: Graph, w: Progress, child: nat, events: seq<Event>, frames: seq<Frame>)
    requires Ruled(g, w) && Dated(w)
    requires child < |w.num| && child !in w.entered
    requires g.parent[child] >= 0 ==> g.parent[child] in w.entered && g.parent[child] !in w.closed
    ensures var place := EnteredPlace(g, w.num, |w.events|, g.parent[child], child);
            Ruled(g, Progress(w.num[child := place], events, w.entered + {child}, w.closed, frames))
  {
    NumbersSoFar(w);
  }

  lemma EnterInSiblingOrder(
      g: Graph, w: Progress, list: seq<nat>, next: nat, place: Place, events: seq<Event>, frames: seq<Frame>)
    requires InSiblingOrder(g, w) && Dated(w)
    requires next < |list| && list[next] < |w.num| && list[next] !in w.entered
    requires IsChildList(g.parent, g.order, g.parent[list[next]], list)
    requires Visited(list, next, -1, w.entered, w.closed)
    requires place.enter == STRIDE * (|w.events| + 1)
    ensures InSiblingOrder(g, Progress(w.num[list[next] := place], events, w.entered + {list[next]}, w.closed, frames))
  {
    NumbersSoFar(w);
    hide Dated;
    var child := list[next];
    var v := Progress(w.num[child := place], events, w.entered + {child}, w.closed, frames);
    forall a: nat, b: nat |
      a < |v.num| && b < |v.num| && b in v.entered && g.parent[a] == g.parent[b] && Pos(g.order, a) < Pos(g.order, b)
      ensures a in v.closed && v.num[a].exit < v.num[b].enter
    {
      if b == child {
        assert a in list;
        var j :| 0 <= j < |list| && list[j] == a;
      } else {
        assert a in w.closed;
      }
    }
  }

  lemma EnterStacked(w: Progress, child: nat, top: Frame, num: seq<Place>, events: seq<Event>)
    requires Stacked(w) && child !in w.entered && w.closed <= w.entered
    requires top.node == w.frames[|w.frames| - 1].node
    ensures Stacked(Progress(num, events, w.entered + {child}, w.closed,
                             w.frames[|w.frames| - 1 := top] + [Frame(child, 0)]))
  {
    var t := |w.frames| - 1;
    var v := Progress(num, events, w.entered + {child}, w.closed, w.frames[t := top] + [Frame(child, 0)]);
    assert v.frames[t + 1].node == child;
    forall i | 0 <= i <= t ensures v.frames[i].node == w.frames[i].node {}
    assert forall i | 0 < i <= t :: w.frames[i].node != child;
    forall x | x in v.entered && x !in v.closed
      ensures exists i :: 0 < i < |v.frames| && v.frames[i].node == x
    {
      if x != child {
        var i :| 0 < i < |w.frames| && w.frames[i].node == x;
        assert v.frames[i].node == x;
      }
    }
  }

  /** Entering a child of another node leaves a frame's account of its own children true. */
  lemma EnterOther(g: Graph, w: Progress, i: nat, child: nat)
    requires g.Sized() && g.Inverted() && FrameVisited(g, w, i)
    requires child < |g.parent| && g.parent[child] != w.frames[i].node
    ensures Visited(g.List(w.frames[i].node), w.frames[i].next, Above(w.frames, i), w.entered + {child}, w.closed)
  {
    assert IsChildList(g.parent, g.order, w.frames[i].node, g.List(w.frames[i].node));
  }

  lemma EnterSelf(list: seq<nat>, next: nat, entered: set<nat>, closed: set<nat>)
    requires Visited(list, next, -1, entered, closed) && next < |list|
    requires forall i, j | 0 <= i < j < |list| :: list[i] != list[j]
    ensures Visited(list, next + 1, list[next], entered + {list[next]}, closed)
  {}

  lemma EnterFresh(g: Graph, entered: set<nat>, closed: set<nat>, child: nat)
    requires g.Sized() && g.Inverted() && child < |g.parent| && g.parent[child] != child
    requires forall x: nat | x < |g.parent| && x in entered :: g.parent[x] != child
    ensures Visited(g.List(child), 0, -1, entered + {child}, closed)
  {
    assert IsChildList(g.parent, g.order, child, g.List(child));
  }

  /** What entering the next child needs to know of that child. */
  ghost predicate NextChildFits(g: Graph, w: Progress) {
    && CanEnter(g, w) && |w.num| == |g.parent| == |g.folded| == |g.kids|
    && var child := NextChild(g, w);
       && child < |w.num| && g.parent[child] == w.frames[|w.frames| - 1].node != child
       && (forall x: nat | x < |g.parent| && x in w.entered :: g.parent[x] != child)
  }

  lemma EnterFrameBelow(g: Graph, w: Progress, i: nat)
    requires NextChildFits(g, w) && g.Sized() && g.Inverted()
    requires i < |w.frames| - 1 && FrameVisited(g, w, i) && w.frames[i].node != w.frames[|w.frames| - 1].node
    ensures FrameVisited(g, AfterEnter(g, w), i)
  {
    EnterOther(g, w, i, NextChild(g, w));
  }

  lemma EnterFrameTop(g: Graph, w: Progress)
    requires NextChildFits(g, w) && g.Sized() && g.Inverted()
    requires FrameVisited(g, w, |w.frames| - 1)
    ensures FrameVisited(g, AfterEnter(g, w), |w.frames| - 1)
  {
    var top := w.frames[|w.frames| - 1];
    DistinctChildren(g, top.node);
    EnterSelf(g.List(top.node), top.next, w.entered, w.closed);
    assert Above(AfterEnter(g, w).frames, |w.frames| - 1) == NextChild(g, w);
  }

  lemma EnterFrameNew(g: Graph, w: Progress)
    requires NextChildFits(g, w) && g.Sized() && g.Inverted()
    ensures FrameVisited(g, AfterEnter(g, w), |w.frames|)
  {
    EnterFresh(g, w.entered, w.closed, NextChild(g, w));
  }

  lemma EnterAllVisited(g: Graph, w: Progress)
    requires NextChildFits(g, w) && g.Sized() && g.Inverted() && AllVisited(g, w)
    requires forall i, j | 0 <= i < j < |w.frames| :: w.frames[i].node != w.frames[j].node
    ensures AllVisited(g, AfterEnter(g, w))
  {
    var t := |w.frames| - 1;
    forall i: nat | i < t + 2 ensures FrameVisited(g, AfterEnter(g, w), i) {
      if i < t {
        assert FrameVisited(g, w, i);
        EnterFrameBelow(g, w, i);
      } else if i == t {
        assert FrameVisited(g, w, i);
        EnterFrameTop(g, w);
      } else {
        EnterFrameNew(g, w);
      }
    }
  }

  lemma DistinctChildren(g: Graph, p: int)
    requires g.Sized() && g.Inverted() && -1 <= p < |g.parent|
    ensures forall i, j | 0 <= i < j < |g.List(p)| :: g.List(p)[i] != g.List(p)[j]
  {
    var list := g.List(p);
    assert IsChildList(g.parent, g.order, p, list);
    forall i, j | 0 <= i < j < |list| ensures list[i] != list[j] {
      assert Pos(g.order, list[i]) < Pos(g.order, list[j]);
    }
  }

  lemma ChildIsChildless(g: Graph, w: Progress, child: nat)
    requires Ruled(g, w) && child < |g.parent| && child !in w.entered
    requires g.parent[child] >= 0 ==> g.parent[child] in w.entered
    ensures g.parent[child] != child
    ensures forall x: nat | x < |g.parent| && x in w.entered :: g.parent[x] != child
  {}

  /** The node on top is open, or it is the list of roots. */
  lemma TopIsOpen(w: Progress)
    requires Stacked(w)
    ensures var node := w.frames[|w.frames| - 1].node;
            node == -1 || (node >= 0 && node in w.entered && node !in w.closed)
    ensures forall i, j | 0 <= i < j < |w.frames| :: w.frames[i].node != w.frames[j].node
  {}

  lemma EnterKeepsRules(g: Graph, w: Progress)
    requires Walking(g, w) && CanEnter(g, w) && NextChild(g, w) < |w.num|
    ensures Dated(AfterEnter(g, w)) && Ruled(g, AfterEnter(g, w))
  {
    NextChildIsNew(g, w);
    TopIsOpen(w);
    hide InSiblingOrder, Stacked, AllVisited;
    var node, child, v := w.frames[|w.frames| - 1].node, NextChild(g, w), AfterEnter(g, w);
    EnterDated(w, child, EnteredPlace(g, w.num, |w.events|, node, child), v.frames);
    EnterRuled(g, w, child, v.events, v.frames);
  }

  lemma TopList(g: Graph, w: Progress)
    requires Walking(g, w) && CanEnter(g, w)
    ensures var top := w.frames[|w.frames| - 1];
            && IsChildList(g.parent, g.order, top.node, g.List(top.node))
            && Visited(g.List(top.node), top.next, -1, w.entered, w.closed)
    ensures w.closed <= w.entered && |g.kids| == |w.num| == |g.folded|
  {
    hide Visited, IsChildList;
    assert FrameVisited(g, w, |w.frames| - 1);
  }

  lemma EnterKeepsOrder(g: Graph, w: Progress)
    requires Walking(g, w) && CanEnter(g, w) && NextChild(g, w) < |w.num|
    ensures InSiblingOrder(g, AfterEnter(g, w)) && Stacked(AfterEnter(g, w))
  {
    hide Ruled, Stacked, AllVisited, Dated, IsChildList, Visited, InSiblingOrder;
    NextChildIsNew(g, w);
    TopList(g, w);
    var t := |w.frames| - 1;
    var node, next, child, v := w.frames[t].node, w.frames[t].next, NextChild(g, w), AfterEnter(g, w);
    EnterInSiblingOrder(g, w, g.List(node), next, EnteredPlace(g, w.num, |w.events|, node, child), v.events, v.frames);
    EnterStacked(w, child, Frame(node, next + 1), v.num, v.events);
  }

  lemma EnterKeepsFrames(g: Graph, w: Progress)
    requires Walking(g, w) && CanEnter(g, w) && NextChild(g, w) < |w.num|
    ensures AllVisited(g, AfterEnter(g, w))
  {
    NextChildIsNew(g, w);
    TopIsOpen(w);
    ChildIsChildless(g, w, NextChild(g, w));
    EnterAllVisited(g, w);
  }

  lemma EnterStep(g: Graph, w: Progress)
    requires Walking(g, w) && CanEnter(g, w)
    ensures NextChild(g, w) < |w.num| && Walking(g, AfterEnter(g, w))
  {
    NextChildIsNew(g, w);
    hide Ruled, Stacked, AllVisited, Dated, InSiblingOrder;
    EnterKeepsRules(g, w);
    EnterKeepsOrder(g, w);
    EnterKeepsFrames(g, w);
  }

  // ------------------------------------------------------------------
  // Leaving a node all of whose children are done

  ghost predicate CanExit(g: Graph, w: Progress) {
    && |w.frames| > 1
    && var top := w.frames[|w.frames| - 1];
       0 <= top.node < |g.kids| && top.next == |g.List(top.node)|
  }

  ghost function AfterExit(w: Progress): Progress
    requires |w.frames| > 1 && 0 <= w.frames[|w.frames| - 1].node < |w.num|
  {
    var t := |w.frames| - 1;
    var node := w.frames[t].node;
    Progress(w.num[node := w.num[node].(exit := STRIDE * (|w.events| + 1))], w.events + [Exit(node)],
             w.entered, w.closed + {node}, w.frames[..t])
  }

  lemma ExitDated(w: Progress, node: nat, frames: seq<Frame>)
    requires Dated(w) && node in w.entered && node !in w.closed
    ensures Dated(Progress(w.num[node := w.num[node].(exit := STRIDE * (|w.events| + 1))], w.events + [Exit(node)],
                           w.entered, w.closed + {node}, frames))
  {
    var v := Progress(w.num[node := w.num[node].(exit := STRIDE * (|w.events| + 1))], w.events + [Exit(node)],
                      w.entered, w.closed + {node}, frames);
    forall i | 0 <= i < |v.events|
      ensures v.events[i].node < |v.num| && NumberOf(v.num, v.events[i]) == STRIDE * (i + 1)
    {
      if i < |w.events| {
        assert w.events[i] in w.events;
        assert v.events[i] == w.events[i] && w.events[i] != Exit(node);
      }
    }
  }

  lemma ExitRuled(g: Graph, w: Progress, node: nat, events: seq<Event>, frames: seq<Frame>)
    requires Ruled(g, w) && Dated(w) && node in w.entered && node !in w.closed
    requires forall x: nat | x < |g.parent| && g.parent[x] == node :: x in w.closed
    ensures Ruled(g, Progress(w.num[node := w.num[node].(exit := STRIDE * (|w.events| + 1))], events,
                              w.entered, w.closed + {node}, frames))
  {
    NumbersSoFar(w);
  }

  lemma ExitInSiblingOrder(g: Graph, w: Progress, node: nat, exit: int, events: seq<Event>, frames: seq<Frame>)
    requires InSiblingOrder(g, w) && node < |w.num| && node !in w.closed
    ensures InSiblingOrder(g, Progress(w.num[node := w.num[node].(exit := exit)], events,
                                       w.entered, w.closed + {node}, frames))
  {}

  lemma ExitStacked(w: Progress, num: seq<Place>, events: seq<Event>)
    requires Stacked(w) && |w.frames| > 1
    ensures Stacked(Progress(num, events, w.entered, w.closed + {w.frames[|w.frames| - 1].node as nat},
                             w.frames[..|w.frames| - 1]))
  {
    var t := |w.frames| - 1;
    var v := Progress(num, events, w.entered, w.closed + {w.frames[t].node as nat}, w.frames[..t]);
    forall x | x in v.entered && x !in v.closed
      ensures exists i :: 0 < i < |v.frames| && v.frames[i].node == x
    {
      var i :| 0 < i < |w.frames| && w.frames[i].node == x;
      assert v.frames[i].node == x;
    }
  }

  lemma ExitAllVisited(g: Graph, w: Progress)
    requires AllVisited(g, w) && CanExit(g, w) && |w.num| == |g.kids|
    ensures AllVisited(g, AfterExit(w))
  {
    var t := |w.frames| - 1;
    var v := AfterExit(w);
    forall i: nat | i < |v.frames| ensures FrameVisited(g, v, i) {
      assert FrameVisited(g, w, i);
      if i + 1 < t {
        assert Above(v.frames, i) == Above(w.frames, i);
      }
    }
  }

  lemma ExitKeepsRules(g: Graph, w: Progress)
    requires Dated(w) && Ruled(g, w) && InSiblingOrder(g, w) && Stacked(w) && |w.frames| > 1
    requires forall x: nat | x < |g.parent| && g.parent[x] == w.frames[|w.frames| - 1].node :: x in w.closed
    requires w.frames[|w.frames| - 1].node < |w.num|
    ensures Dated(AfterExit(w)) && Ruled(g, AfterExit(w)) && InSiblingOrder(g, AfterExit(w)) && Stacked(AfterExit(w))
  {
    var t := |w.frames| - 1;
    var node: nat := w.frames[t].node;
    var v := AfterExit(w);
    ExitDated(w, node, v.frames);
    ExitRuled(g, w, node, v.events, v.frames);
    ExitInSiblingOrder(g, w, node, STRIDE * (|w.events| + 1), v.events, v.frames);
    ExitStacked(w, v.num, v.events);
  }

  lemma ExitStep(g: Graph, w: Progress)
    requires Walking(g, w) && CanExit(g, w)
    ensures Walking(g, AfterExit(w))
  {
    AllChildrenClosed(g, w, |w.frames| - 1);
    ExitKeepsRules(g, w);
    ExitAllVisited(g, w);
  }

  /** A top frame that is through its list has closed every child. */
  lemma AllChildrenClosed(g: Graph, w: Progress, t: nat)
    requires g.Sized() && g.Inverted() && AllVisited(g, w)
    requires t + 1 == |w.frames| && -1 <= w.frames[t].node < |g.kids| && w.frames[t].next == |g.List(w.frames[t].node)|
    ensures forall x: nat | x < |g.parent| && g.parent[x] == w.frames[t].node :: x in w.closed
  {
    assert FrameVisited(g, w, t);
    var list := g.List(w.frames[t].node);
    assert IsChildList(g.parent, g.order, w.frames[t].node, list);
    forall x: nat | x < |g.parent| && g.parent[x] == w.frames[t].node ensures x in w.closed {
      assert x in list;
    }
  }

  // ------------------------------------------------------------------
  // The end of the walk

  ghost predicate Finished(g: Graph, w: Progress) {
    |w.frames| == 1 && w.frames[0].node == -1 && w.frames[0].next == |g.roots|
  }

  lemma {:induction false} EnteredIsRooted(g: Graph, w: Progress, x: nat)
    requires Ruled(g, w) && x in w.entered && x < |w.num|
    ensures Rooted(g.parent, x)
    decreases w.num[x].level
  {
    NoneIsRooted(g.parent);
    if g.parent[x] >= 0 {
      EnteredIsRooted(g, w, g.parent[x]);
    }
    RootedStep(g.parent, x);
  }

  lemma {:induction false} RootedIsClosed(g: Graph, w: Progress, x: nat, k: nat)
    requires Ruled(g, w)
    requires forall r: nat | r < |g.parent| && g.parent[r] == -1 :: r in w.closed
    requires x < |g.parent| && Up(g.parent, x, k) == -1
    ensures x in w.closed
    decreases k
  {
    if g.parent[x] >= 0 {
      RootedIsClosed(g, w, g.parent[x], k - 1);
    }
  }

  lemma {:induction false} BelowCount(n: nat, s: set<nat>)
    requires forall x | x in s :: x < n
    ensures |s| <= n
    ensures |s| == n <==> forall x: nat | x < n :: x in s
  {
    if n > 0 {
      var rest := s - {n - 1};
      BelowCount(n - 1, rest);
      if n - 1 in s {
        assert s == rest + {n - 1};
      } else {
        assert s == rest;
      }
    }
  }

  /** The walk ends having closed exactly the nodes that hang from a root. */
  lemma ReachedIsRooted(g: Graph, w: Progress)
    requires Walking(g, w) && Finished(g, w)
    ensures w.entered == w.closed
    ensures forall x: nat | x < |g.parent| :: x in w.closed <==> Rooted(g.parent, x)
  {
    AllChildrenClosed(g, w, 0);
    forall x: nat | x < |g.parent| ensures x in w.closed <==> Rooted(g.parent, x) {
      if x in w.closed {
        EnteredIsRooted(g, w, x);
      }
      if Rooted(g.parent, x) {
        var k: nat :| Up(g.parent, x, k) == -1;
        RootedIsClosed(g, w, x, k);
      }
    }
    assert forall x | x in w.entered :: x in w.closed;
  }

  lemma AllClosedIsNumbering(g: Graph, w: Progress)
    requires g.Sized() && Dated(w) && Ruled(g, w) && InSiblingOrder(g, w)
    requires forall x: nat | x < |w.num| :: x in w.closed
    ensures IsNumbering(g.parent, g.order, g.folded, w.num)
  {
    BelowCount(|w.num|, w.closed);
    BelowCount(|w.num|, w.entered);
    assert IsTimeline(w.num, w.events);
  }

  /** All nodes are reached exactly for a forest, and then the result is its numbering. */
  lemma EndOfWalk(g: Graph, w: Progress)
    requires Walking(g, w) && Finished(g, w)
    ensures |w.entered| <= |g.parent|
    ensures |w.entered| == |g.parent| <==> IsForest(g.parent)
    ensures IsForest(g.parent) ==> IsNumbering(g.parent, g.order, g.folded, w.num)
  {
    ReachedIsRooted(g, w);
    BelowCount(|g.parent|, w.entered);
    if IsForest(g.parent) {
      AllClosedIsNumbering(g, w);
    }
  }

  // ------------------------------------------------------------------
  // Whole runs

  /** One step of the walk: into the next child of the top frame, or out of a finished node. */
  ghost predicate Next(g: Graph, w: Progress, v: Progress) {
    && |w.num| == |g.parent| == |g.folded| == |g.kids|
    && if CanEnter(g, w) then NextChild(g, w) < |w.num| && v == AfterEnter(g, w)
       else CanExit(g, w) && v == AfterExit(w)
  }

  /** Every state the walk has been in, from nothing visited to now. */
  ghost predicate IsRun(g: Graph, run: seq<Progress>) {
    && |run| > 0 && |run[0].num| == |g.parent|
    && run[0] == Progress(run[0].num, [], {}, {}, [Frame(-1, 0)])
    && (forall i, j | 0 <= i && j == i + 1 < |run| :: Next(g, run[i], run[j]))
  }

  function Last<T>(run: seq<T>): T
    requires |run| > 0
  {
    run[|run| - 1]
  }

  lemma ExtendRun(g: Graph, run: seq<Progress>, v: Progress)
    requires IsRun(g, run) && Next(g, Last(run), v)
    ensures IsRun(g, run + [v]) && Last(run + [v]) == v
  {
    var longer := run + [v];
    forall i, j | 0 <= i && j == i + 1 < |longer| ensures Next(g, longer[i], longer[j]) {
      if j < |run| {
        assert longer[i] == run[i] && longer[j] == run[j];
      }
    }
  }

  /** Whatever the run, the invariant holds at its end. */
  lemma {:induction false} RunKeepsWalking(g: Graph, run: seq<Progress>)
    requires g.Sized() && g.Inverted() && IsRun(g, run)
    ensures Walking(g, Last(run))
  {
    if |run| == 1 {
      StartOfWalk(g, run[0].num);
    } else {
      var before := run[..|run| - 1];
      RunKeepsWalking(g, before);
      assert Next(g, Last(before), Last(run));
      if CanEnter(g, Last(before)) {
        EnterStep(g, Last(before));
      } else {
        ExitStep(g, Last(before));
      }
    }
  }

  /** No run is stuck before it has closed all it entered, and none is longer than 2n steps. */
  lemma RunProgresses(g: Graph, run: seq<Progress>)
    requires g.Sized() && g.Inverted() && IsRun(g, run)
    ensures var w := Last(run);
            && |w.num| == |g.parent| && |w.frames| > 0
            && |w.events| == |run| - 1 <= 2 * |g.parent|
            && (forall i | 0 < i < |w.frames| :: 0 <= w.frames[i].node < |g.parent|)
            && (CanEnter(g, w) ==> NextChild(g, w) < |g.parent| && |w.events| < 2 * |g.parent|)
            && (|w.frames| > 1 ==> CanEnter(g, w) || CanExit(g, w))
            && (CanExit(g, w) ==> |w.events| < 2 * |g.parent|)
  {
    RunKeepsWalking(g, run);
    RunLength(g, run);
    var w := Last(run);
    assert FrameVisited(g, w, |w.frames| - 1);
    EventsAreBounded(g, w);
    if CanEnter(g, w) {
      NextChildIsNew(g, w);
    }
  }

  lemma {:induction false} RunLength(g: Graph, run: seq<Progress>)
    requires IsRun(g, run)
    ensures |Last(run).events| == |run| - 1
  {
    if |run| > 1 {
      RunLength(g, run[..|run| - 1]);
      assert Next(g, run[|run| - 2], run[|run| - 1]);
    }
  }

  lemma CountsAreBounded(w: Progress)
    requires Dated(w)
    ensures |w.events| <= 2 * |w.num|
  {
    BelowCount(|w.num|, w.entered);
    BelowCount(|w.num|, w.closed);
  }

  lemma EventsAreBounded(g: Graph, w: Progress)
    requires Walking(g, w)
    ensures |w.events| <= 2 * |w.num|
    ensures CanEnter(g, w) || CanExit(g, w) ==> |w.events| < 2 * |w.num|
  {
    CountsAreBounded(w);
    if CanEnter(g, w) {
      EnterStep(g, w);
      CountsAreBounded(AfterEnter(g, w));
    } else if CanExit(g, w) {
      ExitStep(g, w);
      CountsAreBounded(AfterExit(w));
    }
  }

  /** A run that has come to its end has numbered all nodes exactly when they form a forest. */
  lemma EndOfRun(g: Graph, run: seq<Progress>)
    requires g.Sized() && g.Inverted() && IsRun(g, run) && Finished(g, Last(run))
    ensures |Last(run).entered| <= |g.parent| == |Last(run).num|
    ensures |Last(run).entered| == |g.parent| <==> IsForest(g.parent)
    ensures IsForest(g.parent) ==> IsNumbering(g.parent, g.order, g.folded, Last(run).num)
  {
    RunKeepsWalking(g, run);
    EndOfWalk(g, Last(run));
  }
}

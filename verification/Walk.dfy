/** Inverting the parent array and walking the result, writing the fields in place. */
module Walk {
  import opened StableOrder
  import opened Forest
  import opened WalkProof
  import opened Entities

  /** The part of the child list of `p` found among the first `m` in `order`. */
  ghost predicate IsChildPrefix(parent: seq<int>, order: seq<nat>, m: nat, p: int, list: seq<nat>)
    requires forall x: nat | x < |parent| :: x in order
  {
    && (forall i | 0 <= i < |list| :: list[i] < |parent| && parent[list[i]] == p && Pos(order, list[i]) < m)
    && (forall i, j | 0 <= i < j < |list| :: Pos(order, list[i]) < Pos(order, list[j]))
    && (forall x: nat {:trigger x in list} | x < |parent| && parent[x] == p && Pos(order, x) < m :: x in list)
  }

  /** Appending the next instance in `order` to its parent's list. */
  lemma ChildAppended(parent: seq<int>, order: seq<nat>, m: nat, list: seq<nat>)
    requires forall x: nat | x < |parent| :: x in order
    requires m < |order| && order[m] < |parent| && Pos(order, order[m]) == m
    requires IsChildPrefix(parent, order, m, parent[order[m]], list)
    ensures IsChildPrefix(parent, order, m + 1, parent[order[m]], list + [order[m]])
  {
    var longer := list + [order[m]];
    forall x: nat | x < |parent| && parent[x] == parent[order[m]] && Pos(order, x) < m + 1 ensures x in longer {
      if Pos(order, x) == m {
        assert x == order[m] == longer[|list|];
      } else {
        assert x in list;
      }
    }
  }

  lemma OtherListKept(parent: seq<int>, order: seq<nat>, m: nat, p: int, list: seq<nat>)
    requires forall x: nat | x < |parent| :: x in order
    requires m < |order| && order[m] < |parent| && parent[order[m]] != p
    requires IsChildPrefix(parent, order, m, p, list)
    ensures IsChildPrefix(parent, order, m + 1, p, list)
  {
    forall x: nat | x < |parent| && parent[x] == p && Pos(order, x) < m + 1 ensures x in list {
      assert order[Pos(order, x)] == x;
    }
  }

  method ChildLists(parent: array<int>, n: nat, order: seq<nat>) returns (kids: array<seq<nat>>, roots: seq<nat>)
    requires parent.Length == n == |order| && IsParents(parent[..])
    requires forall i | 0 <= i < n :: order[i] < n && Pos(order, order[i]) == i
    requires forall x: nat | x < n :: x in order
    ensures fresh(kids) && kids.Length == n
    ensures IsChildList(parent[..], order, -1, roots)
    ensures forall p | 0 <= p < n :: IsChildList(parent[..], order, p, kids[p])
  {
    ghost var up := parent[..];
    kids := new seq<nat>[n](_ => []);
    roots := [];
    for m := 0 to n
      invariant parent[..] == up
      invariant IsChildPrefix(up, order, m, -1, roots)
      invariant forall p | 0 <= p < n :: IsChildPrefix(up, order, m, p, kids[p])
    {
      var a := order[m];
      forall p | 0 <= p < n && p != up[a] ensures IsChildPrefix(up, order, m + 1, p, kids[p]) {
        OtherListKept(up, order, m, p, kids[p]);
      }
      if parent[a] < 0 {
        ChildAppended(up, order, m, roots);
        roots := roots + [a];
      } else {
        ChildAppended(up, order, m, kids[parent[a]]);
        OtherListKept(up, order, m, -1, roots);
        kids[parent[a]] := kids[parent[a]] + [a];
      }
    }
    ChildPrefixIsChildList(up, order, n, -1, roots);
    forall p | 0 <= p < n ensures IsChildList(up, order, p, kids[p]) {
      ChildPrefixIsChildList(up, order, n, p, kids[p]);
    }
  }

  lemma ChildPrefixIsChildList(parent: seq<int>, order: seq<nat>, m: nat, p: int, list: seq<nat>)
    requires |order| <= m && forall x: nat | x < |parent| :: x in order
    requires IsChildPrefix(parent, order, m, p, list)
    ensures IsChildList(parent, order, p, list)
  {}

  method WriteEnter(insts: seq<SymbolInstance>, k: nat, enter: int, level: int, fold: int)
    requires k < |insts| && Distinct(insts)
    modifies insts[k]
    ensures Places(insts) == old(Places(insts))[k := Place(enter, old(insts[k].dfsExit), level, fold)]
  {
    insts[k].dfsEnter := enter;
    insts[k].nestingLevel := level;
    insts[k].foldDepth := fold;
    assert forall i | 0 <= i < |insts| && i != k :: insts[i].Place() == old(insts[i].Place());
  }

  method WriteExit(insts: seq<SymbolInstance>, k: nat, exit: int)
    requires k < |insts| && Distinct(insts)
    modifies insts[k]
    ensures Places(insts) == old(Places(insts))[k := old(Places(insts))[k].(exit := exit)]
  {
    insts[k].dfsExit := exit;
    assert forall i | 0 <= i < |insts| && i != k :: insts[i].Place() == old(insts[i].Place());
  }

  /** The walk's variables agree with the last state of `run`. */
  ghost predicate InStep(g: Graph, run: seq<Progress>, insts: seq<SymbolInstance>, counter: int, numbered: nat)
    reads insts
  {
    && g.folded == FoldedFlags(insts) && IsRun(g, run)
    && Last(run).num == Places(insts)
    && counter == STRIDE * |Last(run).events| && numbered == |Last(run).entered|
  }

  lemma EnteredCount(g: Graph, run: seq<Progress>)
    requires g.Sized() && g.Inverted() && IsRun(g, run) && CanEnter(g, Last(run))
    ensures NextChild(g, Last(run)) < |Last(run).num| == |g.parent|
    ensures IsRun(g, run + [AfterEnter(g, Last(run))])
    ensures |AfterEnter(g, Last(run)).entered| == |Last(run).entered| + 1
    ensures -1 <= Last(run).frames[|Last(run).frames| - 1].node < |g.parent|
  {
    RunKeepsWalking(g, run);
    NextChildIsNew(g, Last(run));
    ExtendRun(g, run, AfterEnter(g, Last(run)));
  }

  lemma ExitedCount(g: Graph, run: seq<Progress>)
    requires g.Sized() && g.Inverted() && IsRun(g, run) && CanExit(g, Last(run)) && !CanEnter(g, Last(run))
    ensures |Last(run).num| == |g.parent|
    ensures IsRun(g, run + [AfterExit(Last(run))])
  {
    RunKeepsWalking(g, run);
    ExtendRun(g, run, AfterExit(Last(run)));
  }

  /** Enters the next child `c` of `node`, or a root when `node` is -1. */
  method EnterChild(
      insts: seq<SymbolInstance>, node: int, c: nat, counter: int, numbered: nat, ghost g: Graph,
      ghost run: seq<Progress>)
    returns (counter': int, numbered': nat, ghost run': seq<Progress>)
    requires Distinct(insts) && g.Sized() && g.Inverted() && InStep(g, run, insts, counter, numbered)
    requires var w := Last(run);
             CanEnter(g, w) && c == NextChild(g, w) && node == w.frames[|w.frames| - 1].node
    modifies insts
    ensures InStep(g, run', insts, counter', numbered')
    ensures |run'| == |run| + 1 && c < |insts|
    ensures var w := Last(run);
            Last(run').frames
              == w.frames[|w.frames| - 1 := Frame(node, w.frames[|w.frames| - 1].next + 1)] + [Frame(c, 0)]
  {
    EnteredCount(g, run);
    ghost var w := AfterEnter(g, Last(run));
    counter' := counter + STRIDE;
    var level, fold := 0, 0;
    if node >= 0 {
      level := insts[node].nestingLevel + 1;
      fold := insts[node].foldDepth + FoldStep(insts[node].info.folded);
    }
    assert w.num == Places(insts)[c := Place(counter', insts[c].dfsExit, level, fold)];
    WriteEnter(insts, c, counter', level, fold);
    numbered' := numbered + 1;
    run' := run + [w];
  }

  /** Leaves `node`, all of whose children are done. */
  method ExitNode(
      insts: seq<SymbolInstance>, node: nat, counter: int, numbered: nat, ghost g: Graph, ghost run: seq<Progress>)
    returns (counter': int, ghost run': seq<Progress>)
    requires Distinct(insts) && g.Sized() && g.Inverted() && InStep(g, run, insts, counter, numbered)
    requires var w := Last(run);
             !CanEnter(g, w) && CanExit(g, w) && node == w.frames[|w.frames| - 1].node
    modifies insts
    ensures InStep(g, run', insts, counter', numbered)
    ensures |run'| == |run| + 1
    ensures Last(run').frames == Last(run).frames[..|Last(run).frames| - 1]
  {
    ExitedCount(g, run);
    ghost var w := AfterExit(Last(run));
    counter' := counter + STRIDE;
    assert w.num == Places(insts)[node := Places(insts)[node].(exit := counter')];
    WriteExit(insts, node, counter');
    run' := run + [w];
  }

  /** Walks the tree under the root entered last. */
  method NumberTree(
      insts: seq<SymbolInstance>, kids: array<seq<nat>>, root: nat, counter0: int, numbered0: nat,
      ghost g: Graph, ghost run0: seq<Progress>)
    returns (counter: int, numbered: nat, ghost run: seq<Progress>)
    requires Distinct(insts) && g.Sized() && g.Inverted() && InStep(g, run0, insts, counter0, numbered0)
             && kids[..] == g.kids
    requires |Last(run0).frames| == 2 && Last(run0).frames[1] == Frame(root, 0)
    modifies insts
    ensures InStep(g, run, insts, counter, numbered)
    ensures Last(run).frames == Last(run0).frames[..1]
  {
    counter, numbered, run := counter0, numbered0, run0;
    var walk := [Frame(root, 0)];
    RunProgresses(g, run);
    while |walk| > 0
      invariant InStep(g, run, insts, counter, numbered) && kids[..] == g.kids
      invariant Last(run).frames == Last(run0).frames[..1] + walk
      invariant |run| <= 2 * |insts| + 1
      decreases 2 * |insts| + 1 - |run|
    {
      RunProgresses(g, run);
      var top := |walk| - 1;
      assert walk[top] == Last(run).frames[top + 1];
      var node, next := walk[top].node, walk[top].next;
      if next < |kids[node]| {
        walk := walk[top := Frame(node, next + 1)];
        var c := kids[node][next];
        counter, numbered, run := EnterChild(insts, node, c, counter, numbered, g, run);
        walk := walk + [Frame(c, 0)];
      } else {
        counter, run := ExitNode(insts, node, counter, numbered, g, run);
        walk := walk[..top];
      }
    }
  }

  /** One preorder walk; `parent` and `order` are what the child lists invert. */
  method NumberForest(
      insts: seq<SymbolInstance>, kids: array<seq<nat>>, roots: seq<nat>, ghost parent: seq<int>, ghost order: seq<nat>)
    returns (numbered: nat)
    requires Distinct(insts) && |insts| == kids.Length == |parent| && IsParents(parent)
    requires forall x: nat | x < |parent| :: x in order
    requires IsChildList(parent, order, -1, roots)
    requires forall p | 0 <= p < |parent| :: IsChildList(parent, order, p, kids[p])
    modifies insts
    ensures numbered <= |insts|
    ensures numbered == |insts| <==> IsForest(parent)
    ensures IsForest(parent) ==> IsNumbering(parent, order, FoldedFlags(insts), Places(insts))
  {
    ghost var g := Graph(parent, order, FoldedFlags(insts), kids[..], roots);
    ghost var run := [Progress(Places(insts), [], {}, {}, [Frame(-1, 0)])];
    var counter := 0;
    numbered := 0;
    for ri := 0 to |roots|
      invariant InStep(g, run, insts, counter, numbered) && kids[..] == g.kids
      invariant Last(run).frames == [Frame(-1, ri)]
    {
      var r := roots[ri];
      counter, numbered, run := EnterChild(insts, -1, r, counter, numbered, g, run);
      counter, numbered, run := NumberTree(insts, kids, r, counter, numbered, g, run);
    }
    EndOfRun(g, run);
  }
}

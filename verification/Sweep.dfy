/**
 The one-pass stack sweep behind parentage and reference placement. The stack always
 holds exactly the instances that contain everything sorted after them so far, and that
 is enough to find the innermost container.
 */
module Sweep {
  import opened StableOrder
  import opened Containment

  /** `p` contains everything between its own position and `m`. */
  ghost predicate ContainsUpTo(s: seq<Extent>, order: seq<nat>, p: nat, m: nat)
    requires IsOrder(s, order) && p < |s| && m <= |s|
  {
    forall j | Pos(order, p) < j < m :: Contains(s[p], s[order[j]])
  }

  ghost predicate IsAscending(s: seq<Extent>, order: seq<nat>, m: nat, stack: seq<nat>)
    requires IsOrder(s, order) && m <= |s|
  {
    && (forall i | 0 <= i < |stack| :: stack[i] < |s| && Pos(order, stack[i]) < m)
    && (forall i, j | 0 <= i < j < |stack| :: Pos(order, stack[i]) < Pos(order, stack[j]))
  }

  /** The stack after the first `m` instances have been swept. */
  ghost predicate IsSwept(s: seq<Extent>, order: seq<nat>, m: nat, stack: seq<nat>)
    requires IsOrder(s, order) && m <= |s|
  {
    && IsAscending(s, order, m, stack)
    && (forall p: nat | p < |s| && Pos(order, p) < m :: p in stack <==> ContainsUpTo(s, order, p, m))
  }

  /** The stack while room is made for `x`: what was dropped does not contain `x`. */
  ghost predicate IsPopping(s: seq<Extent>, order: seq<nat>, m: nat, stack: seq<nat>, x: nat)
    requires IsOrder(s, order) && m <= |s| && x < |s|
  {
    && IsAscending(s, order, m, stack)
    && (forall p | p in stack :: ContainsUpTo(s, order, p, m))
    && (forall p: nat | p < |s| && Pos(order, p) < m && p !in stack && ContainsUpTo(s, order, p, m) ::
          !Contains(s[p], s[x]))
  }

  ghost predicate TopContains(s: seq<Extent>, stack: seq<nat>, x: nat)
    requires x < |s|
  {
    |stack| > 0 ==> stack[|stack| - 1] < |s| && Contains(s[stack[|stack| - 1]], s[x])
  }

  lemma StartPopping(s: seq<Extent>, order: seq<nat>, m: nat, stack: seq<nat>, x: nat)
    requires IsOrder(s, order) && m <= |s| && x < |s| && IsSwept(s, order, m, stack)
    ensures IsPopping(s, order, m, stack, x)
  {}

  lemma PopOne(s: seq<Extent>, order: seq<nat>, m: nat, stack: seq<nat>, x: nat)
    requires IsOrder(s, order) && m <= |s| && x < |s| && IsPopping(s, order, m, stack, x)
    requires |stack| > 0 && !TopContains(s, stack, x)
    ensures IsPopping(s, order, m, stack[..|stack| - 1], x)
  {
    var rest := stack[..|stack| - 1];
    assert forall p | p in stack :: p in rest || p == stack[|stack| - 1];
  }

  /** Everything below a top that contains `x` contains `x` too. */
  lemma StackContains(s: seq<Extent>, order: seq<nat>, m: nat, stack: seq<nat>, x: nat, p: nat)
    requires IsOrder(s, order) && m <= |s| && x < |s| && IsPopping(s, order, m, stack, x)
    requires TopContains(s, stack, x) && p in stack
    ensures p < |s| && Contains(s[p], s[x])
  {
    var top := stack[|stack| - 1];
    var i :| 0 <= i < |stack| && stack[i] == p;
    if i < |stack| - 1 {
      assert Contains(s[p], s[order[Pos(order, top)]]);
      ContainsLaws(s[p], s[top], s[x]);
    }
  }

  lemma PushKeepsSwept(s: seq<Extent>, order: seq<nat>, m: nat, stack: seq<nat>)
    requires IsOrder(s, order) && m < |s|
    requires IsPopping(s, order, m, stack, order[m]) && TopContains(s, stack, order[m])
    ensures IsSwept(s, order, m + 1, stack + [order[m]])
  {
    var x := order[m];
    PosOfElement(s, order, m);
    forall p: nat | p < |s| && Pos(order, p) < m + 1
      ensures p in stack + [x] <==> ContainsUpTo(s, order, p, m + 1)
    {
      if p in stack {
        StackContains(s, order, m, stack, x, p);
      } else if p != x {
        assert order[Pos(order, p)] == p;
        assert ContainsUpTo(s, order, p, m) ==> !Contains(s[p], s[order[m]]);
      }
    }
  }

  /** Whatever contains `x` innermost among the swept has kept its place on the stack. */
  lemma LastContainerIsOpen(s: seq<Extent>, order: seq<nat>, m: nat, p: nat)
    requires IsOrder(s, order) && m < |s| && p < |s| && Pos(order, p) < m
    requires Contains(s[p], s[order[m]])
    requires forall k | Pos(order, p) < k < m :: !Contains(s[order[k]], s[order[m]])
    ensures ContainsUpTo(s, order, p, m)
  {
    SortLessIsStrictWeak(s);
    PosOfElement(s, order, m);
    forall j | Pos(order, p) < j < m ensures Contains(s[p], s[order[j]]) {
      PosOfElement(s, order, j);
      PosIsBefore(|s|, SortLess(s), order, p, order[j]);
      PosIsBefore(|s|, SortLess(s), order, order[j], order[m]);
      if !Contains(s[p], s[order[j]]) {
        BetweenContains(s[p], s[order[j]], s[order[m]]);
      }
    }
  }

  lemma NoLaterContainer(s: seq<Extent>, order: seq<nat>, x: nat, m: nat)
    requires IsOrder(s, order) && x < |s| && Pos(order, x) <= m <= |s|
    ensures LastContainer(s, order, x, m) == LastContainer(s, order, x, Pos(order, x))
  {
    if m > Pos(order, x) {
      NoLaterContainer(s, order, x, m - 1);
      if Contains(s[order[m - 1]], s[x]) {
        PosOfElement(s, order, m - 1);
        ContainerComesFirst(s, order, order[m - 1], x);
      }
    }
  }

  function Top(stack: seq<nat>): int {
    if |stack| == 0 then -1 else stack[|stack| - 1]
  }

  /** Once popping stops, the top of the stack is what the scan of everything would answer. */
  lemma TopIsInnermost(s: seq<Extent>, order: seq<nat>, m: nat, stack: seq<nat>)
    requires IsOrder(s, order) && m < |s|
    requires IsPopping(s, order, m, stack, order[m]) && TopContains(s, stack, order[m])
    ensures Top(stack) == Derived(s, order)[order[m]]
  {
    var x := order[m];
    PosOfElement(s, order, m);
    NoLaterContainer(s, order, x, |s|);
    var p := LastContainer(s, order, x, m);
    if |stack| > 0 {
      assert order[Pos(order, stack[|stack| - 1])] == stack[|stack| - 1];
    }
    if p >= 0 {
      LastContainerIsOpen(s, order, m, p);
      var i :| 0 <= i < |stack| && stack[i] == p;
    }
  }

  /** Drops what does not contain the next instance from the top of the stack. */
  method MakeRoom(s: seq<Extent>, order: seq<nat>, m: nat, open: seq<nat>) returns (stack: seq<nat>)
    requires IsOrder(s, order) && m < |s| && IsSwept(s, order, m, open)
    ensures stack <= open
    ensures IsSwept(s, order, m + 1, stack + [order[m]])
    ensures Top(stack) == Derived(s, order)[order[m]]
  {
    stack := open;
    StartPopping(s, order, m, stack, order[m]);
    while |stack| > 0 && !Contains(s[stack[|stack| - 1]], s[order[m]])
      invariant stack <= open
      invariant IsPopping(s, order, m, stack, order[m])
    {
      PopOne(s, order, m, stack, order[m]);
      stack := stack[..|stack| - 1];
    }
    TopIsInnermost(s, order, m, stack);
    PushKeepsSwept(s, order, m, stack);
  }

  /** `derived[x]`, for every x, by one pass over the sorted instances. */
  method DeriveParents(s: seq<Extent>, order: seq<nat>) returns (derived: array<int>)
    requires IsOrder(s, order)
    ensures fresh(derived) && derived[..] == Derived(s, order)
  {
    ghost var d := Derived(s, order);
    derived := new int[|s|](_ => -1);
    var stack: seq<nat> := [];
    for m := 0 to |order|
      invariant IsSwept(s, order, m, stack)
      invariant forall x | 0 <= x < |s| :: derived[x] == if Pos(order, x) < m then d[x] else -1
    {
      var a := order[m];
      PosOfElement(s, order, m);
      stack := MakeRoom(s, order, m, stack);
      if |stack| > 0 {
        derived[a] := stack[|stack| - 1];
      }
      stack := stack + [a];
      forall x: nat | x < |s| && x != a ensures Pos(order, x) != m {
        assert order[Pos(order, x)] == x;
      }
    }
    assert derived[..] == d;
  }
}

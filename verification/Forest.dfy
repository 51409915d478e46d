/**
 Parent arrays, and what the depth-first numbering of one has to look like.

 `IsNumbering` only states rules between neighbours: a parent and its child, two
 siblings, one stride per event. The lemmas derive from these what the engine relies on:
 an interval encloses another exactly when it belongs to an ancestor.
 */
module Forest {
  import opened StableOrder

  /** Spacing between consecutive numbers, one stride per enter or exit. */
  const STRIDE: nat := 1024

  // ------------------------------------------------------------------
  // Parent arrays

  /** Each entry is another node's index, or -1 for a root. Cycles are possible. */
  ghost predicate IsParents(parent: seq<int>) {
    forall x | 0 <= x < |parent| :: -1 <= parent[x] < |parent|
  }

  /** `k` steps up from `y`, staying at -1 once there. */
  ghost function Up(parent: seq<int>, y: int, k: nat): (r: int)
    requires IsParents(parent) && -1 <= y < |parent|
    ensures -1 <= r < |parent|
    decreases k
  {
    if k == 0 || y == -1 then y else Up(parent, parent[y], k - 1)
  }

  ghost predicate Rooted(parent: seq<int>, y: int)
    requires IsParents(parent) && -1 <= y < |parent|
  {
    exists k: nat :: Up(parent, y, k) == -1
  }

  ghost predicate IsForest(parent: seq<int>)
    requires IsParents(parent)
  {
    forall y | 0 <= y < |parent| :: Rooted(parent, y)
  }

  /** `x` is met on the way up from `y`, `y` itself not counted. */
  ghost predicate Ancestor(parent: seq<int>, x: nat, y: nat)
    requires IsParents(parent) && y < |parent|
  {
    exists k: nat :: Up(parent, parent[y], k) == x
  }

  ghost predicate AncestorOrSelf(parent: seq<int>, x: nat, y: nat)
    requires IsParents(parent) && y < |parent|
  {
    x == y || Ancestor(parent, x, y)
  }

  lemma RootedStep(parent: seq<int>, y: nat)
    requires IsParents(parent) && y < |parent|
    ensures Rooted(parent, y) <==> Rooted(parent, parent[y])
  {
    if Rooted(parent, y) {
      var k: nat :| Up(parent, y, k) == -1;
      assert Up(parent, parent[y], k - 1) == -1;
    }
    if Rooted(parent, parent[y]) {
      var k: nat :| Up(parent, parent[y], k) == -1;
      assert Up(parent, y, k + 1) == -1;
    }
  }

  lemma NoneIsRooted(parent: seq<int>)
    requires IsParents(parent)
    ensures Rooted(parent, -1)
  {
    assert Up(parent, -1, 0) == -1;
  }

  lemma AncestorStep(parent: seq<int>, x: nat, y: nat)
    requires IsParents(parent) && y < |parent|
    ensures Ancestor(parent, x, y) <==> parent[y] == x || (parent[y] >= 0 && Ancestor(parent, x, parent[y]))
  {
    if Ancestor(parent, x, y) {
      var k: nat :| Up(parent, parent[y], k) == x;
      if k > 0 {
        assert Up(parent, parent[parent[y]], k - 1) == x;
      }
    }
    if parent[y] == x {
      assert Up(parent, parent[y], 0) == x;
    } else if parent[y] >= 0 && Ancestor(parent, x, parent[y]) {
      var k: nat :| Up(parent, parent[parent[y]], k) == x;
      assert Up(parent, parent[y], k + 1) == x;
    }
  }

  /** Parents that come earlier in some order cannot form a cycle. */
  lemma {:induction false} EarlierParentsAreRooted(parent: seq<int>, order: seq<nat>, y: nat)
    requires IsParents(parent) && y < |parent|
    requires forall x: nat | x < |parent| :: x in order
    requires forall x | 0 <= x < |parent| && parent[x] >= 0 :: Pos(order, parent[x]) < Pos(order, x)
    ensures Rooted(parent, y)
    decreases Pos(order, y)
  {
    NoneIsRooted(parent);
    if parent[y] >= 0 {
      EarlierParentsAreRooted(parent, order, parent[y]);
    }
    RootedStep(parent, y);
  }

  // ------------------------------------------------------------------
  // Numbering

  /** The four fields the walk writes on an instance. */
  datatype Place = Place(enter: int, exit: int, level: int, fold: int)

  /** The three fields that place a reference. */
  datatype Point = Point(enter: int, level: int, fold: int)

  datatype Event = Enter(node: nat) | Exit(node: nat)

  ghost function NumberOf(num: seq<Place>, e: Event): int
    requires e.node < |num|
  {
    match e
    case Enter(x) => num[x].enter
    case Exit(x) => num[x].exit
  }

  function FoldStep(folded: bool): int {
    if folded then 1 else 0
  }

  /** The events in the order their numbers were handed out, one stride each. */
  ghost predicate IsTimeline(num: seq<Place>, events: seq<Event>) {
    && |events| == 2 * |num|
    && (forall i | 0 <= i < |events| :: events[i].node < |num| && NumberOf(num, events[i]) == STRIDE * (i + 1))
    && (forall e: Event | e.node < |num| :: e in events)
  }

  /** The rules between neighbours that `num` keeps for the forest `parent`, siblings in `order`. */
  ghost predicate IsNumbering(parent: seq<int>, order: seq<nat>, folded: seq<bool>, num: seq<Place>)
    requires IsParents(parent) && |folded| == |parent|
    requires forall x: nat | x < |parent| :: x in order
  {
    && |num| == |parent|
    && (exists events :: IsTimeline(num, events))
    && (forall x | 0 <= x < |num| :: num[x].enter < num[x].exit && num[x].level >= 0)
    && (forall x {:trigger parent[x]} | 0 <= x < |num| && parent[x] == -1 :: num[x].level == 0 && num[x].fold == 0)
    && (forall x {:trigger parent[x]} | 0 <= x < |num| && parent[x] >= 0 ::
          var p := num[parent[x]];
          && p.enter < num[x].enter && num[x].exit < p.exit
          && num[x].level == p.level + 1
          && num[x].fold == p.fold + FoldStep(folded[parent[x]]))
    && (forall a: nat, b: nat {:trigger Pos(order, a), Pos(order, b)} |
          a < |num| && b < |num| && parent[a] == parent[b] && Pos(order, a) < Pos(order, b) ::
          num[a].exit < num[b].enter)
  }

  lemma {:induction false} NumberedIsRooted(
      parent: seq<int>, order: seq<nat>, folded: seq<bool>, num: seq<Place>, y: nat)
    requires IsParents(parent) && |folded| == |parent| && forall x: nat | x < |parent| :: x in order
    requires IsNumbering(parent, order, folded, num) && y < |num|
    ensures Rooted(parent, y)
    decreases num[y].level
  {
    NoneIsRooted(parent);
    if parent[y] >= 0 {
      NumberedIsRooted(parent, order, folded, num, parent[y]);
    }
    RootedStep(parent, y);
  }

  lemma {:induction false} AncestorEncloses(
      parent: seq<int>, order: seq<nat>, folded: seq<bool>, num: seq<Place>, x: nat, y: nat)
    requires IsParents(parent) && |folded| == |parent| && forall x: nat | x < |parent| :: x in order
    requires IsNumbering(parent, order, folded, num)
    requires x < |num| && y < |num| && Ancestor(parent, x, y)
    ensures num[x].enter < num[y].enter && num[y].exit < num[x].exit
    ensures num[x].level < num[y].level
    decreases num[y].level
  {
    AncestorStep(parent, x, y);
    if parent[y] != x {
      AncestorEncloses(parent, order, folded, num, x, parent[y]);
    }
  }

  /**
   Two nodes of which neither is the other's ancestor have disjoint intervals, and any
   two numberings agree on which comes first.
   */
  lemma {:induction false} UnrelatedAreDisjoint(
      parent: seq<int>, order: seq<nat>, folded: seq<bool>, num: seq<Place>, other: seq<Place>, x: nat, y: nat)
    requires IsParents(parent) && |folded| == |parent| && forall x: nat | x < |parent| :: x in order
    requires IsNumbering(parent, order, folded, num) && IsNumbering(parent, order, folded, other)
    requires x < |num| && y < |num| && x != y && !Ancestor(parent, x, y) && !Ancestor(parent, y, x)
    ensures || (num[x].exit < num[y].enter && other[x].exit < other[y].enter)
            || (num[y].exit < num[x].enter && other[y].exit < other[x].enter)
    decreases num[x].level + num[y].level
  {
    if parent[x] == parent[y] {
      assert Pos(order, x) != Pos(order, y);
    } else if num[x].level >= num[y].level {
      ParentUnrelated(parent, order, folded, num, x, y);
      UnrelatedAreDisjoint(parent, order, folded, num, other, parent[x], y);
    } else {
      ParentUnrelated(parent, order, folded, num, y, x);
      UnrelatedAreDisjoint(parent, order, folded, num, other, x, parent[y]);
    }
  }

  lemma {:induction false} ParentUnrelated(
      parent: seq<int>, order: seq<nat>, folded: seq<bool>, num: seq<Place>, x: nat, y: nat)
    requires IsParents(parent) && |folded| == |parent| && forall x: nat | x < |parent| :: x in order
    requires IsNumbering(parent, order, folded, num)
    requires x < |num| && y < |num| && x != y && !Ancestor(parent, x, y) && !Ancestor(parent, y, x)
    requires parent[x] != parent[y] && num[x].level >= num[y].level
    ensures parent[x] >= 0 && parent[x] != y
    ensures !Ancestor(parent, parent[x], y) && !Ancestor(parent, y, parent[x])
  {
    AncestorStep(parent, y, x);
    var p := parent[x];
    if p >= 0 && Ancestor(parent, p, y) {
      AncestorStep(parent, p, y);
      AncestorEncloses(parent, order, folded, num, p, parent[y]);
    }
  }

  /** What the engine trusts: one interval encloses another exactly along ancestry. */
  lemma IntervalIsAncestry(
      parent: seq<int>, order: seq<nat>, folded: seq<bool>, num: seq<Place>, x: nat, y: nat)
    requires IsParents(parent) && |folded| == |parent| && forall x: nat | x < |parent| :: x in order
    requires IsNumbering(parent, order, folded, num) && x < |num| && y < |num|
    ensures num[x].enter < num[y].enter < num[x].exit <==> Ancestor(parent, x, y)
    ensures Ancestor(parent, x, y) ==> num[y].exit < num[x].exit
    ensures x == y || Ancestor(parent, x, y) || Ancestor(parent, y, x)
            || num[x].exit < num[y].enter || num[y].exit < num[x].enter
  {
    if Ancestor(parent, x, y) {
      AncestorEncloses(parent, order, folded, num, x, y);
    } else if Ancestor(parent, y, x) {
      AncestorEncloses(parent, order, folded, num, y, x);
    } else if x != y {
      UnrelatedAreDisjoint(parent, order, folded, num, num, x, y);
    }
  }

  /** Inside X and one level deeper selects exactly X's children. */
  lemma DirectChildren(
      parent: seq<int>, order: seq<nat>, folded: seq<bool>, num: seq<Place>, x: nat, y: nat)
    requires IsParents(parent) && |folded| == |parent| && forall x: nat | x < |parent| :: x in order
    requires IsNumbering(parent, order, folded, num) && x < |num| && y < |num|
    ensures (num[x].enter < num[y].enter < num[x].exit && num[y].level == num[x].level + 1) <==> parent[y] == x
  {
    IntervalIsAncestry(parent, order, folded, num, x, y);
    AncestorStep(parent, x, y);
    if Ancestor(parent, x, y) && parent[y] != x {
      AncestorEncloses(parent, order, folded, num, x, parent[y]);
    }
  }

  // ------------------------------------------------------------------
  // One numbering only

  /** Whether `e` happens before `f` does not depend on the numbering. */
  lemma {:induction false} EventOrderAgrees(
      parent: seq<int>, order: seq<nat>, folded: seq<bool>, num: seq<Place>, other: seq<Place>, e: Event, f: Event)
    requires IsParents(parent) && |folded| == |parent| && forall x: nat | x < |parent| :: x in order
    requires IsNumbering(parent, order, folded, num) && IsNumbering(parent, order, folded, other)
    requires e.node < |num| && f.node < |num|
    ensures NumberOf(num, e) < NumberOf(num, f) <==> NumberOf(other, e) < NumberOf(other, f)
  {
    var x, y := e.node, f.node;
    if Ancestor(parent, x, y) {
      AncestorEncloses(parent, order, folded, num, x, y);
      AncestorEncloses(parent, order, folded, other, x, y);
    } else if Ancestor(parent, y, x) {
      AncestorEncloses(parent, order, folded, num, y, x);
      AncestorEncloses(parent, order, folded, other, y, x);
    } else if x != y {
      UnrelatedAreDisjoint(parent, order, folded, num, other, x, y);
    }
  }

  ghost predicate SameEventOrder(num: seq<Place>, other: seq<Place>)
    requires |num| == |other|
  {
    forall e: Event, f: Event | e.node < |num| && f.node < |num| ::
      NumberOf(num, e) < NumberOf(num, f) <==> NumberOf(other, e) < NumberOf(other, f)
  }

  lemma {:induction false} TimelinesAgree(
      num: seq<Place>, other: seq<Place>, ev: seq<Event>, ew: seq<Event>, i: nat)
    requires |num| == |other| && SameEventOrder(num, other)
    requires IsTimeline(num, ev) && IsTimeline(other, ew) && i < |ev|
    ensures ev[i] == ew[i]
  {
    forall k | 0 <= k < i ensures ev[k] == ew[k] {
      TimelinesAgree(num, other, ev, ew, k);
    }
    var e, f := ev[i], ew[i];
    var j: nat :| j < |ew| && ew[j] == e;
    var k: nat :| k < |ev| && ev[k] == f;
    assert NumberOf(num, e) == STRIDE * (i + 1) && NumberOf(num, f) == STRIDE * (k + 1);
    assert NumberOf(other, e) == STRIDE * (j + 1) && NumberOf(other, f) == STRIDE * (i + 1);
  }

  lemma {:induction false} LevelsAgree(
      parent: seq<int>, order: seq<nat>, folded: seq<bool>, num: seq<Place>, other: seq<Place>, x: nat)
    requires IsParents(parent) && |folded| == |parent| && forall x: nat | x < |parent| :: x in order
    requires IsNumbering(parent, order, folded, num) && IsNumbering(parent, order, folded, other) && x < |num|
    ensures num[x].level == other[x].level && num[x].fold == other[x].fold
    decreases num[x].level
  {
    if parent[x] >= 0 {
      LevelsAgree(parent, order, folded, num, other, parent[x]);
    }
  }

  /** The rules leave no freedom: a forest with ordered siblings has one numbering. */
  lemma NumberingIsUnique(
      parent: seq<int>, order: seq<nat>, folded: seq<bool>, num: seq<Place>, other: seq<Place>)
    requires IsParents(parent) && |folded| == |parent| && forall x: nat | x < |parent| :: x in order
    requires IsNumbering(parent, order, folded, num) && IsNumbering(parent, order, folded, other)
    ensures num == other
  {
    forall e: Event, f: Event | e.node < |num| && f.node < |num|
      ensures NumberOf(num, e) < NumberOf(num, f) <==> NumberOf(other, e) < NumberOf(other, f)
    {
      EventOrderAgrees(parent, order, folded, num, other, e, f);
    }
    var ev :| IsTimeline(num, ev);
    var ew :| IsTimeline(other, ew);
    forall x | 0 <= x < |num| ensures num[x] == other[x] {
      var i: nat :| i < |ev| && ev[i] == Enter(x);
      var j: nat :| j < |ev| && ev[j] == Exit(x);
      TimelinesAgree(num, other, ev, ew, i);
      TimelinesAgree(num, other, ev, ew, j);
      LevelsAgree(parent, order, folded, num, other, x);
    }
  }
}

/** Interval widths, levels and fold depths, counted from the tree. */
module Counting {
  import opened Forest

  /** `x` and everything below it. */
  ghost function Subtree(parent: seq<int>, x: nat): set<nat>
    requires IsParents(parent)
  {
    set y: nat | y < |parent| && AncestorOrSelf(parent, x, y)
  }

  ghost function Ancestors(parent: seq<int>, y: nat): set<nat>
    requires IsParents(parent) && y < |parent|
  {
    set x: nat | x < |parent| && Ancestor(parent, x, y)
  }

  ghost function FoldedAncestors(parent: seq<int>, folded: seq<bool>, y: nat): set<nat>
    requires IsParents(parent) && y < |parent| == |folded|
  {
    set x: nat | x < |parent| && Ancestor(parent, x, y) && folded[x]
  }

  /** The enter and the exit of every node of `s`. */
  ghost function EventsOf(s: set<nat>): set<Event> {
    (set x | x in s :: Enter(x)) + (set x | x in s :: Exit(x))
  }

  lemma {:induction false} EventsOfCount(s: set<nat>)
    ensures |EventsOf(s)| == 2 * |s|
  {
    if s != {} {
      var x :| x in s;
      EventsOfCount(s - {x});
      assert EventsOf(s) == EventsOf(s - {x}) + {Enter(x)} + {Exit(x)};
    }
  }

  ghost function Elements(events: seq<Event>): set<Event> {
    set e | e in events
  }

  lemma {:induction false} DistinctCount(events: seq<Event>)
    requires forall i, j | 0 <= i < j < |events| :: events[i] != events[j]
    ensures |Elements(events)| == |events|
  {
    if |events| > 0 {
      var before := events[..|events| - 1];
      DistinctCount(before);
      assert Elements(events) == Elements(before) + {events[|events| - 1]};
    }
  }

  lemma EventsAreDistinct(num: seq<Place>, events: seq<Event>, i: nat, j: nat)
    requires IsTimeline(num, events) && i < j < |events|
    ensures events[i] != events[j]
  {
    assert NumberOf(num, events[i]) == STRIDE * (i + 1) && NumberOf(num, events[j]) == STRIDE * (j + 1);
  }

  /** The numbers handed out are the multiples of 1024 up to 2n of them, each used once. */
  lemma NumbersAreExactlyTheStrides(
      parent: seq<int>, order: seq<nat>, folded: seq<bool>, num: seq<Place>, v: int)
    requires IsParents(parent) && |folded| == |parent| && forall x: nat | x < |parent| :: x in order
    requires IsNumbering(parent, order, folded, num)
    ensures (exists e: Event :: e.node < |num| && NumberOf(num, e) == v)
            <==> exists i :: 0 < i <= 2 * |num| && v == 1024 * i
    ensures forall e: Event, f: Event | e.node < |num| && f.node < |num| && NumberOf(num, e) == NumberOf(num, f) ::
              e == f
  {
    var events :| IsTimeline(num, events);
    forall e: Event | e.node < |num|
      ensures exists i :: 0 <= i < |events| && events[i] == e && NumberOf(num, e) == STRIDE * (i + 1)
    {
      assert e in events;
      var i :| 0 <= i < |events| && events[i] == e;
      assert NumberOf(num, events[i]) == STRIDE * (i + 1);
    }
    if e: Event :| e.node < |num| && NumberOf(num, e) == v {
      var i :| 0 <= i < |events| && events[i] == e && NumberOf(num, e) == STRIDE * (i + 1);
      assert 0 < i + 1 <= 2 * |num| && v == STRIDE * (i + 1);
    }
    if i :| 0 < i <= 2 * |num| && v == STRIDE * i {
      assert NumberOf(num, events[i - 1]) == v;
    }
  }

  /** An instance is entered or left at `v`. */
  ghost predicate IsNumber(num: seq<Place>, v: int) {
    exists x :: 0 <= x < |num| && (num[x].enter == v || num[x].exit == v)
  }

  /** The numbers are 1024, 2048 and so on, two for each instance, and every interval is at least 1024 wide. */
  ghost predicate AreStrides(num: seq<Place>) {
    && (forall v :: IsNumber(num, v) <==> 1024 <= v <= 2048 * |num| && v % 1024 == 0)
    && forall x | 0 <= x < |num| :: num[x].exit - num[x].enter >= 1024
  }

  lemma NumberingHasStrides(parent: seq<int>, order: seq<nat>, folded: seq<bool>, num: seq<Place>)
    requires IsParents(parent) && |folded| == |parent| && forall x: nat | x < |parent| :: x in order
    requires IsNumbering(parent, order, folded, num)
    ensures AreStrides(num)
  {
    hide IsNumbering;
    SameLength(parent, order, folded, num);
    forall v ensures IsNumber(num, v) <==> 1024 <= v <= 2048 * |num| && v % 1024 == 0 {
      NumbersAreExactlyTheStrides(parent, order, folded, num, v);
      if e: Event :| e.node < |num| && NumberOf(num, e) == v {
        assert num[e.node].enter == v || num[e.node].exit == v;
      }
      if x :| 0 <= x < |num| && (num[x].enter == v || num[x].exit == v) {
        assert NumberOf(num, if num[x].enter == v then Enter(x) else Exit(x)) == v;
      }
      if 1024 <= v <= 2048 * |num| && v % 1024 == 0 {
        assert 0 < v / 1024 <= 2 * |num| && v == 1024 * (v / 1024);
      }
    }
    forall x: nat | x < |num| ensures num[x].exit - num[x].enter >= 1024 {
      IntervalWidth(parent, order, folded, num, x);
    }
  }

  lemma SameLength(parent: seq<int>, order: seq<nat>, folded: seq<bool>, num: seq<Place>)
    requires IsParents(parent) && |folded| == |parent| && forall x: nat | x < |parent| :: x in order
    requires IsNumbering(parent, order, folded, num)
    ensures |num| == |parent|
  {}

  lemma Between(
      parent: seq<int>, order: seq<nat>, folded: seq<bool>, num: seq<Place>, events: seq<Event>, x: nat, i: nat, j: nat)
    requires IsParents(parent) && |folded| == |parent| && forall x: nat | x < |parent| :: x in order
    requires IsNumbering(parent, order, folded, num) && IsTimeline(num, events) && x < |num|
    requires i < |events| && events[i] == Enter(x) && j < |events| && events[j] == Exit(x)
    ensures i < j && Elements(events[i..j + 1]) == EventsOf(Subtree(parent, x))
  {
    assert NumberOf(num, events[i]) == STRIDE * (i + 1) && NumberOf(num, events[j]) == STRIDE * (j + 1);
    forall e: Event ensures e in events[i..j + 1] <==> e in EventsOf(Subtree(parent, x)) {
      if e.node < |num| {
        assert e in events;
        var k :| 0 <= k < |events| && events[k] == e;
        assert NumberOf(num, events[k]) == STRIDE * (k + 1);
        IntervalIsAncestry(parent, order, folded, num, x, e.node);
        IntervalIsAncestry(parent, order, folded, num, e.node, x);
        if AncestorOrSelf(parent, x, e.node) {
          assert e == events[i..j + 1][k - i];
        }
      }
    }
  }

  /** An interval is as wide as its subtree: two strides of 1024 a node, less the one outside. */
  lemma IntervalWidth(parent: seq<int>, order: seq<nat>, folded: seq<bool>, num: seq<Place>, x: nat)
    requires IsParents(parent) && |folded| == |parent| && forall x: nat | x < |parent| :: x in order
    requires IsNumbering(parent, order, folded, num) && x < |num|
    ensures num[x].exit - num[x].enter == 1024 * (2 * |Subtree(parent, x)| - 1)
    ensures num[x].exit - num[x].enter >= 1024
  {
    var events :| IsTimeline(num, events);
    assert Enter(x) in events && Exit(x) in events;
    var i :| 0 <= i < |events| && events[i] == Enter(x);
    var j :| 0 <= j < |events| && events[j] == Exit(x);
    Between(parent, order, folded, num, events, x, i, j);
    var inside := events[i..j + 1];
    forall a, b | 0 <= a < b < |inside| ensures inside[a] != inside[b] {
      EventsAreDistinct(num, events, i + a, i + b);
    }
    DistinctCount(inside);
    EventsOfCount(Subtree(parent, x));
    assert NumberOf(num, events[i]) == STRIDE * (i + 1) && NumberOf(num, events[j]) == STRIDE * (j + 1);
  }

  /** Levels count the enclosing intervals and fold depths the folded ones among them. */
  lemma {:induction false} LevelsCountAncestors(
      parent: seq<int>, order: seq<nat>, folded: seq<bool>, num: seq<Place>, y: nat)
    requires IsParents(parent) && |folded| == |parent| && forall x: nat | x < |parent| :: x in order
    requires IsNumbering(parent, order, folded, num) && y < |num|
    ensures num[y].level == |Ancestors(parent, y)|
    ensures num[y].fold == |FoldedAncestors(parent, folded, y)|
    decreases num[y].level
  {
    forall x: nat | x < |parent| {
      AncestorStep(parent, x, y);
    }
    if parent[y] == -1 {
      assert Ancestors(parent, y) == {};
      assert FoldedAncestors(parent, folded, y) == {};
    } else {
      var p: nat := parent[y];
      LevelsCountAncestors(parent, order, folded, num, p);
      if Ancestor(parent, p, p) {
        AncestorEncloses(parent, order, folded, num, p, p);
      }
      assert Ancestors(parent, y) == Ancestors(parent, p) + {p};
      assert FoldedAncestors(parent, folded, y)
          == FoldedAncestors(parent, folded, p) + if folded[p] then {p} else {};
    }
  }

  /** Exactly the owner of a reference and its ancestors enclose the reference's number. */
  lemma PointIsInsideOwner(
      parent: seq<int>, order: seq<nat>, folded: seq<bool>, num: seq<Place>, o: nat, x: nat)
    requires IsParents(parent) && |folded| == |parent| && forall x: nat | x < |parent| :: x in order
    requires IsNumbering(parent, order, folded, num) && o < |num| && x < |num|
    ensures num[x].enter < num[o].enter + 1 < num[x].exit <==> AncestorOrSelf(parent, x, o)
    ensures num[x].enter < num[o].enter + 1 < num[x].exit && num[o].level + 1 == num[x].level + 1 <==> x == o
  {
    IntervalIsAncestry(parent, order, folded, num, x, o);
    IntervalWidth(parent, order, folded, num, x);
    if Ancestor(parent, x, o) {
      AncestorEncloses(parent, order, folded, num, x, o);
    }
    StridesApart(parent, order, folded, num, x, o);
  }

  /** Two different numbers are at least a stride apart. */
  lemma StridesApart(parent: seq<int>, order: seq<nat>, folded: seq<bool>, num: seq<Place>, x: nat, o: nat)
    requires IsParents(parent) && |folded| == |parent| && forall x: nat | x < |parent| :: x in order
    requires IsNumbering(parent, order, folded, num) && o < |num| && x < |num|
    ensures num[x].enter < num[o].enter ==> num[x].enter + STRIDE <= num[o].enter
    ensures num[o].enter < num[x].enter ==> num[o].enter + STRIDE <= num[x].enter
    ensures num[o].enter < num[x].exit ==> num[o].enter + STRIDE <= num[x].exit
    ensures num[o].enter != num[x].enter || x == o
  {
    var events :| IsTimeline(num, events);
    assert Enter(x) in events && Exit(x) in events && Enter(o) in events;
    var i :| 0 <= i < |events| && events[i] == Enter(x);
    var j :| 0 <= j < |events| && events[j] == Exit(x);
    var k :| 0 <= k < |events| && events[k] == Enter(o);
    assert NumberOf(num, events[i]) == STRIDE * (i + 1);
    assert NumberOf(num, events[j]) == STRIDE * (j + 1);
    assert NumberOf(num, events[k]) == STRIDE * (k + 1);
  }
}

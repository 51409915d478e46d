/**
 A stable sort of positions, as the indexer asks `sort.SliceStable` for it: the
 slice holds the positions 0..n in order and `less` compares what they stand for.
 */
module StableOrder {

  /** What `sort.SliceStable` demands of its comparison. */
  ghost predicate StrictWeak(n: nat, less: (nat, nat) -> bool) {
    && (forall a: nat, b: nat | a < n && b < n && less(a, b) :: !less(b, a))
    && (forall a: nat, b: nat, c: nat | a < n && b < n && c < n && less(a, c) :: less(a, b) || less(b, c))
  }

  /** `a` must come out before `b`: it is smaller, or it ties and stood first. */
  predicate Before(less: (nat, nat) -> bool, a: nat, b: nat) {
    less(a, b) || (!less(b, a) && a < b)
  }

  /** `order` holds every position once, and stably sorted. */
  ghost predicate IsStableOrder(n: nat, less: (nat, nat) -> bool, order: seq<nat>) {
    && |order| == n
    && (forall i | 0 <= i < n :: order[i] < n)
    && (forall i, j | 0 <= i < j < n :: Before(less, order[i], order[j]))
    && (forall x: nat | x < n :: x in order)
  }

  /** Where `x` stands in `order`. */
  ghost function Pos(order: seq<nat>, x: nat): (i: nat)
    requires x in order
    ensures i < |order| && order[i] == x
  {
    var i: nat :| i < |order| && order[i] == x;
    i
  }

  /** Position in the order and the comparison say the same thing. */
  lemma PosIsBefore(n: nat, less: (nat, nat) -> bool, order: seq<nat>, a: nat, b: nat)
    requires StrictWeak(n, less) && IsStableOrder(n, less, order) && a < n && b < n
    ensures Pos(order, a) < Pos(order, b) <==> (a != b && Before(less, a, b))
  {
    var i, j := Pos(order, a), Pos(order, b);
    if j < i {
      assert Before(less, order[j], order[i]);
    }
  }

  /** A stable sort has one possible outcome. */
  lemma {:induction false} StableOrderIsUnique(n: nat, less: (nat, nat) -> bool, o1: seq<nat>, o2: seq<nat>)
    requires StrictWeak(n, less) && IsStableOrder(n, less, o1) && IsStableOrder(n, less, o2)
    ensures o1 == o2
  {
    forall i | 0 <= i < n ensures o1[i] == o2[i] {
      AgreeAt(n, less, o1, o2, i);
    }
  }

  lemma {:induction false} AgreeAt(n: nat, less: (nat, nat) -> bool, o1: seq<nat>, o2: seq<nat>, i: nat)
    requires StrictWeak(n, less) && IsStableOrder(n, less, o1) && IsStableOrder(n, less, o2) && i < n
    ensures o1[i] == o2[i]
  {
    forall k | 0 <= k < i ensures o1[k] == o2[k] {
      AgreeAt(n, less, o1, o2, k);
    }
    var a, b := o1[i], o2[i];
    if a != b {
      var j, k := Pos(o2, a), Pos(o1, b);
      assert false;
    }
  }

  /** One past the last of `order[..i]` that goes before `x`, searching from the end. */
  function InsertionPoint(less: (nat, nat) -> bool, order: seq<nat>, x: nat, i: nat): (k: nat)
    requires i <= |order|
    ensures k <= i
    ensures forall j | k <= j < i :: less(x, order[j])
    ensures k > 0 ==> !less(x, order[k - 1])
  {
    if i > 0 && less(x, order[i - 1]) then InsertionPoint(less, order, x, i - 1) else i
  }

  function Insert(less: (nat, nat) -> bool, order: seq<nat>, x: nat): (r: seq<nat>)
    ensures |r| == |order| + 1
  {
    var i := InsertionPoint(less, order, x, |order|);
    order[..i] + [x] + order[i..]
  }

  lemma InsertKeepsOrder(n: nat, less: (nat, nat) -> bool, order: seq<nat>, x: nat)
    requires x < n && StrictWeak(n, less) && IsStableOrder(x, less, order)
    ensures IsStableOrder(x + 1, less, Insert(less, order, x))
  {
    var i := InsertionPoint(less, order, x, |order|);
    var r := Insert(less, order, x);
    forall k | 0 <= k < i ensures Before(less, order[k], x) {
      if k < i - 1 {
        assert Before(less, order[k], order[i - 1]);
      }
      assert order[k] < x && order[i - 1] < x;
    }
    forall y: nat | y < x + 1 ensures y in r {
      if y < x {
        var k := Pos(order, y);
        assert r[if k < i then k else k + 1] == y;
      } else {
        assert r[i] == x;
      }
    }
  }

  lemma StrictWeakBelow(n: nat, less: (nat, nat) -> bool)
    requires n > 0 && StrictWeak(n, less)
    ensures StrictWeak(n - 1, less)
  {}

  lemma NothingIsStable(less: (nat, nat) -> bool)
    ensures IsStableOrder(0, less, [])
  {}

  /** `sort.SliceStable` on the positions below `n`. */
  function SliceStable(n: nat, less: (nat, nat) -> bool): (order: seq<nat>)
    requires StrictWeak(n, less)
    ensures IsStableOrder(n, less, order)
  {
    hide IsStableOrder, StrictWeak, Insert;
    if n == 0 then (NothingIsStable(less); [])
    else
      StrictWeakBelow(n, less);
      var shorter := SliceStable(n - 1, less);
      InsertKeepsOrder(n, less, shorter, n - 1);
      Insert(less, shorter, n - 1)
  }
}

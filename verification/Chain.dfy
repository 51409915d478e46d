/**
 The chain of containers: a module, a directory and a file instance that all cover the whole
 object come out one inside the other, with every declaration inside the file's, whatever
 parentage was stated between declarations.
 */
module Chain {
  import opened Containment
  import opened Forest
  import opened DerivedTree
  import opened Numbering

  /** Module `m`, directory `d` and file `f` cover [0, length) and all the rest lies in there. */
  ghost predicate HasContainers(s: seq<Extent>, m: nat, d: nat, f: nat, length: int) {
    && m < |s| && d < |s| && f < |s|
    && s[m] == Extent(0, length, 0) && s[d] == Extent(0, length, 1) && s[f] == Extent(0, length, 2)
    && forall x: nat | x < |s| && x != m && x != d && x != f ::
         s[x].rank > 2 && s[x].start >= 0 && s[x].end <= length
  }

  /** Only the rest have stated parents, and only among the rest. */
  ghost predicate StatedAmongRest(n: nat, stated: map<int, int>, m: nat, d: nat, f: nat) {
    forall c | Applies(n, stated, c) :: c != m && c != d && c != f && stated[c] != m && stated[c] != d && stated[c] != f
  }

  /** The shape of the parent array: root, module, directory, file, and then the rest. */
  ghost predicate IsChained(parent: seq<int>, m: nat, d: nat, f: nat)
    requires m < |parent| && d < |parent| && f < |parent|
  {
    && parent[m] == -1 && parent[d] == m && parent[f] == d && m != d && d != f && m != f
    && forall x: nat | x < |parent| && x != m && x != d && x != f ::
         0 <= parent[x] < |parent| && parent[x] != m && parent[x] != d
  }

  lemma DerivedIsChained(s: seq<Extent>, order: seq<nat>, m: nat, d: nat, f: nat, length: int)
    requires IsOrder(s, order) && HasContainers(s, m, d, f, length)
    ensures IsChained(Derived(s, order), m, d, f)
  {
    var up := Derived(s, order);
    DerivedIsInnermost(s, order, m);
    DerivedIsInnermost(s, order, d);
    DerivedIsInnermost(s, order, f);
    ContainerComesFirst(s, order, m, d);
    ContainerComesFirst(s, order, d, f);
    forall x: nat | x < |s| && x != m && x != d && x != f
      ensures 0 <= up[x] < |s| && up[x] != m && up[x] != d
    {
      DerivedIsInnermost(s, order, x);
      assert Contains(s[f], s[x]);
    }
  }

  lemma MergedIsChained(s: seq<Extent>, order: seq<nat>, stated: map<int, int>, m: nat, d: nat, f: nat, length: int)
    requires IsOrder(s, order) && HasContainers(s, m, d, f, length) && StatedAmongRest(|s|, stated, m, d, f)
    requires IsParents(Derived(s, order))
    ensures IsChained(Merged(Derived(s, order), stated), m, d, f)
  {
    DerivedIsChained(s, order, m, d, f, length);
  }

  /** Everything on the way up from the rest stays in the rest until it meets the file. */
  lemma {:induction false} RestIsUnderFile(parent: seq<int>, m: nat, d: nat, f: nat, x: nat, k: nat)
    requires IsParents(parent) && m < |parent| && d < |parent| && f < |parent| && x < |parent|
    requires IsChained(parent, m, d, f) && x != m && x != d && x != f && Up(parent, x, k) == -1
    ensures Ancestor(parent, f, x)
    decreases k
  {
    AncestorStep(parent, f, x);
    if parent[x] != f {
      RestIsUnderFile(parent, m, d, f, parent[x], k - 1);
    }
  }

  /** The tree finally used has one root, the chain of three, and all the rest under the file. */
  lemma ContainersAreOutermost(s: seq<Extent>, stated: map<int, int>, m: nat, d: nat, f: nat, length: int)
    requires HasContainers(s, m, d, f, length) && StatedAmongRest(|s|, stated, m, d, f)
    ensures var parent := ChosenParents(s, stated);
            && IsChained(parent, m, d, f)
            && (forall x: nat | x < |s| && parent[x] == -1 :: x == m)
            && (forall x: nat | x < |s| && x != m && x != d && x != f :: Ancestor(parent, f, x))
  {
    var order := OrderOf(s);
    var parent := ChosenParents(s, stated);
    DerivedIsForest(s, order);
    DerivedIsChained(s, order, m, d, f, length);
    MergedIsChained(s, order, stated, m, d, f, length);
    forall x: nat | x < |s| && x != m && x != d && x != f ensures Ancestor(parent, f, x) {
      assert Rooted(parent, x);
      var k: nat :| Up(parent, x, k) == -1;
      RestIsUnderFile(parent, m, d, f, x, k);
    }
  }

  /** In numbers: levels 0, 1 and 2, and every declaration inside the file's interval. */
  lemma ContainersInNumbers(
      s: seq<Extent>, stated: map<int, int>, folded: seq<bool>, num: seq<Place>, m: nat, d: nat, f: nat, length: int)
    requires HasContainers(s, m, d, f, length) && StatedAmongRest(|s|, stated, m, d, f) && |folded| == |s|
    requires IsNumbering(ChosenParents(s, stated), OrderOf(s), folded, num)
    ensures num[m].level == 0 && num[d].level == 1 && num[f].level == 2
    ensures num[m].enter < num[d].enter < num[f].enter < num[f].exit < num[d].exit < num[m].exit
    ensures forall x: nat | x < |s| && x != m && x != d && x != f ::
              num[f].enter < num[x].enter && num[x].exit < num[f].exit && num[x].level > 2
    ensures forall x: nat | x < |s| && x != m :: num[x].level > 0
  {
    var parent := ChosenParents(s, stated);
    ContainersAreOutermost(s, stated, m, d, f, length);
    forall x: nat | x < |s| && x != m && x != d && x != f
      ensures num[f].enter < num[x].enter && num[x].exit < num[f].exit && num[x].level > 2
    {
      AncestorEncloses(parent, OrderOf(s), folded, num, f, x);
    }
  }

  /** Module `m` outermost, then directory `d`, then file `f`, and all the rest inside the file. */
  ghost predicate IsChainInNumbers(num: seq<Place>, m: nat, d: nat, f: nat) {
    && m < |num| && d < |num| && f < |num| && m != d && d != f && m != f
    && num[m].level == 0 && num[d].level == 1 && num[f].level == 2
    && num[m].enter < num[d].enter < num[f].enter < num[f].exit < num[d].exit < num[m].exit
    && forall x: nat | x < |num| && x != m && x != d && x != f ::
         num[f].enter < num[x].enter && num[x].exit < num[f].exit && num[x].level > 2
  }

  /** The numbers show the chain exactly when the parents have it. */
  lemma ChainedIffInNumbers(
      parent: seq<int>, order: seq<nat>, folded: seq<bool>, num: seq<Place>, m: nat, d: nat, f: nat)
    requires IsParents(parent) && |folded| == |parent| && forall x: nat | x < |parent| :: x in order
    requires IsNumbering(parent, order, folded, num) && IsForest(parent)
    requires m < |parent| && d < |parent| && f < |parent|
    ensures IsChained(parent, m, d, f) <==> IsChainInNumbers(num, m, d, f)
  {
    if IsChained(parent, m, d, f) {
      forall x: nat | x < |num| && x != m && x != d && x != f
        ensures num[f].enter < num[x].enter && num[x].exit < num[f].exit && num[x].level > 2
      {
        assert Rooted(parent, x);
        var k: nat :| Up(parent, x, k) == -1;
        RestIsUnderFile(parent, m, d, f, x, k);
        AncestorEncloses(parent, order, folded, num, f, x);
      }
    }
    if IsChainInNumbers(num, m, d, f) {
      DirectChildren(parent, order, folded, num, m, d);
      DirectChildren(parent, order, folded, num, d, f);
      assert parent[m] == -1;
    }
  }
}

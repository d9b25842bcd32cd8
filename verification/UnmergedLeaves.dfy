/** The rule on unmerged leaves of section 7.9 of RFC 9420
    (validateUnmergedLeaves in src/client-state.ts) and what keeps it. */
module UnmergedLeaves {
  import opened Options
  import opened Terms
  import opened TreeMath
  import opened RatchetTree

  /** Leaf `l`, listed by node `x`, is a leaf below `x` that every non-blank
      node between the two also lists. */
  ghost predicate ListedRightly(t: Tree, x: nat, l: nat) {
    && HasLeaf(t, l) && OnPath(l, x)
    && forall w: nat | OnPath(l, w) && Under(w, x) && At(t, w).Some? :: l in Unmerged(t, w)
  }

  ghost predicate UnmergedOk(t: Tree) {
    forall x: nat, l: nat | l in Unmerged(t, x) :: ListedRightly(t, x, l)
  }

  /** A resolution names only non-blank nodes of its subtree. */
  lemma {:induction false} ResolutionWithin(t: Tree, x: nat)
    requires Sound(t) && UnmergedOk(t)
    ensures forall n | n in Resolution(t, x) :: Under(n, x) && At(t, n).Some?
    decreases Level(x)
  {
    Span(x);
    if At(t, x).None? {
      if x % 2 == 1 {
        Children(x);
        ResolutionWithin(t, Left(x));
        ResolutionWithin(t, Right(x));
      }
    } else {
      forall n | n in Resolution(t, x) ensures Under(n, x) && At(t, n).Some? {
        if n != x {
          var i :| 0 <= i < |Unmerged(t, x)| && n == LeafNodes(Unmerged(t, x))[i];
          assert Unmerged(t, x)[i] in Unmerged(t, x);
          assert ListedRightly(t, x, Unmerged(t, x)[i]);
        }
      }
    }
  }

  lemma {:induction false} PathResolutions(t: Tree, b: nat, x: nat)
    requires Valid(t) && UnmergedOk(t) && x < |t| && Under(b, x)
    ensures forall e, n | e in FilteredFrom(t, x) && n in e.resolution :: At(t, n).Some? && n != b
    decreases Level(Root(|t|)) - Level(x)
  {
    if x != Root(|t|) {
      ParentInTree(x, |t|);
      UnderParent(x, Parent(x));
      UnderTrans(b, x, Parent(x));
      PathResolutions(t, b, Parent(x));
      ResolutionWithin(t, Sibling(x));
      SiblingApart(b, x);
      Span(b);
      forall e, n | e in FilteredFrom(t, x) && n in e.resolution ensures At(t, n).Some? && n != b {
        if e !in FilteredFrom(t, Parent(x)) {
          assert e.resolution == Resolution(t, Sibling(x));
        }
      }
    }
  }

  // ---- the check ----

  /** The path climbs one level a step, so what comes before `x` on it lies under `x`. */
  lemma {:induction false} PathLevels(x: nat, n: nat, i: nat)
    requires Full(n) && x < n && i < |DirectPath(x, n)|
    ensures DirectPath(x, n)[i] < n && DirectPath(x, n)[i] % 2 == 1
    ensures Level(DirectPath(x, n)[i]) == Level(x) + 1 + i && Under(x, DirectPath(x, n)[i])
    decreases i
  {
    ParentInTree(x, n);
    ParentChild(x);
    UnderParent(x, Parent(x));
    if i > 0 {
      PathLevels(Parent(x), n, i - 1);
      UnderTrans(x, Parent(x), DirectPath(x, n)[i]);
    }
  }

  lemma {:induction false} PathBefore(x: nat, n: nat, i: nat, j: nat)
    requires Full(n) && x < n && i < |DirectPath(x, n)| && j < |DirectPath(x, n)|
    ensures Under(DirectPath(x, n)[i], DirectPath(x, n)[j]) <==> i <= j
  {
    PathLevels(x, n, i);
    PathLevels(x, n, j);
    var a, b := DirectPath(x, n)[i], DirectPath(x, n)[j];
    Laminar(x, a, b);
    if Under(a, b) { UnderNested(a, b); }
    if Under(b, a) { UnderNested(b, a); }
    Span(a);
  }

  lemma {:induction false} OnlyLeafUnder(y: nat, w: nat)
    requires y % 2 == 0
    ensures Under(y, w) && y != w ==> w % 2 == 1
  {
  }

  lemma {:induction false} OnPathIff(l: nat, w: nat, n: nat)
    requires Full(n) && 2 * l < n && w < n
    ensures w in DirectPath(2 * l, n) <==> OnPath(l, w)
  {
    IsAncestorIff(2 * l, w, n);
    OnlyLeafUnder(2 * l, w);
  }

  method CheckEntry(t: Tree, x: nat, l: nat) returns (ok: bool)
    requires Valid(t) && x < |t| && l in Unmerged(t, x)
    ensures ok <==> ListedRightly(t, x, l)
  {
    hide Lo, Hi, Level, Full;
    if 2 * l >= |t| {
      return false;
    }
    var path := DirectPath(2 * l, |t|);
    OnPathIff(l, x, |t|);
    if !HasLeaf(t, l) || x !in path {
      return false;
    }
    ghost var k :| 0 <= k < |path| && path[k] == x;
    var j := 0;
    while path[j] != x
      invariant 0 <= j <= k
      invariant forall i | 0 <= i < j :: At(t, path[i]).Some? ==> l in Unmerged(t, path[i])
      decreases k - j
    {
      var w := path[j];
      PathLevels(2 * l, |t|, j);
      PathBefore(2 * l, |t|, j, k);
      if t[w].Some? && l !in Unmerged(t, w) {
        assert OnPath(l, w) && Under(w, x);
        return false;
      }
      j := j + 1;
    }
    forall w: nat | OnPath(l, w) && Under(w, x) && At(t, w).Some? ensures l in Unmerged(t, w) {
      OnPathIff(l, w, |t|);
      var i :| 0 <= i < |path| && path[i] == w;
      PathBefore(2 * l, |t|, i, j);
    }
    return true;
  }

  /** The check accepts a sound tree exactly when the rule holds of every entry. */
  method ValidateUnmergedLeaves(t: Tree) returns (ok: bool)
    requires Valid(t)
    ensures ok <==> UnmergedOk(t)
  {
    var x := 0;
    while x < |t|
      invariant 0 <= x <= |t|
      invariant forall y, l | 0 <= y < x && l in Unmerged(t, y) :: ListedRightly(t, y, l)
    {
      var listed := Unmerged(t, x);
      var i := 0;
      while i < |listed|
        invariant 0 <= i <= |listed|
        invariant forall k | 0 <= k < i :: ListedRightly(t, x, listed[k])
      {
        var passes := CheckEntry(t, x, listed[i]);
        if !passes {
          assert listed[i] in Unmerged(t, x);
          return false;
        }
        i := i + 1;
      }
      x := x + 1;
    }
    return true;
  }

  // ---- what keeps the rule ----

  /** Some leaf below `x` is occupied. */
  ghost predicate Occupied(t: Tree, x: nat) {
    exists l: nat :: HasLeaf(t, l) && Under(2 * l, x)
  }

  /** A non-blank parent has members on both sides. */
  ghost predicate BothSides(t: Tree) {
    forall x: nat | x % 2 == 1 && At(t, x).Some? :: Occupied(t, Left(x)) && Occupied(t, Right(x))
  }

  /** The shape every honest tree keeps. */
  ghost predicate TreeOk(t: Tree) {
    Valid(t) && UnmergedOk(t) && BothSides(t) && ListsOrdered(t)
  }

  /** Node `x` lists leaves in increasing order, and no leaf below it is blank
      before one it lists: Adds fill the lowest vacancy, Removes blank the path. */
  ghost predicate ListedInOrder(t: Tree, x: nat) {
    && (forall i, j | 0 <= i < j < |Unmerged(t, x)| :: Unmerged(t, x)[i] < Unmerged(t, x)[j])
    && (forall l, k: nat | l in Unmerged(t, x) && k < l && OnPath(k, x) :: HasLeaf(t, k))
  }

  ghost predicate ListsOrdered(t: Tree) {
    forall x: nat :: ListedInOrder(t, x)
  }

  lemma {:induction false} OrderFrame(t: Tree, u: Tree, x: nat)
    requires ListedInOrder(t, x) && Unmerged(u, x) == Unmerged(t, x)
    requires forall k: nat | HasLeaf(t, k) && OnPath(k, x) :: HasLeaf(u, k)
    ensures ListedInOrder(u, x)
  {
    hide OnPath;
  }

  lemma {:induction false} OrderAdded(t: Tree, u: Tree, x: nat, n: nat)
    requires ListedInOrder(t, x) && OnPath(n, x) && Unmerged(u, x) == Unmerged(t, x) + [n]
    requires !HasLeaf(t, n) && (forall l | l in Unmerged(t, x) :: HasLeaf(t, l))
    requires forall k: nat :: HasLeaf(u, k) <==> HasLeaf(t, k) || k == n
    requires forall k: nat | k < n :: HasLeaf(t, k)
    ensures ListedInOrder(u, x)
  {
    hide OnPath, HasLeaf;
    var us, vs := Unmerged(t, x), Unmerged(u, x);
    forall i, j | 0 <= i < j < |vs| ensures vs[i] < vs[j] {
      if j < |us| { assert vs[i] == us[i] && vs[j] == us[j]; } else { assert us[i] in us && vs[j] == n; }
    }
  }

  lemma {:induction false} ListedTwice(t: Tree, x: nat)
    requires ListsOrdered(t)
    ensures forall i, j | 0 <= i < j < |Unmerged(t, x)| :: Unmerged(t, x)[i] != Unmerged(t, x)[j]
  {
    assert ListedInOrder(t, x);
  }

  lemma {:induction false} OccupiedKept(t: Tree, u: Tree, x: nat)
    requires Occupied(t, x)
    requires forall l: nat | HasLeaf(t, l) && Under(2 * l, x) :: HasLeaf(u, l)
    ensures Occupied(u, x)
  {
    var l: nat :| HasLeaf(t, l) && Under(2 * l, x);
    assert HasLeaf(u, l);
  }

  /** Children of a node that is not above leaf `l` do not reach it. */
  lemma {:induction false} NotBelowChild(x: nat, l: nat)
    requires x % 2 == 1 && !OnPath(l, x)
    ensures !Under(2 * l, Left(x)) && !Under(2 * l, Right(x))
  {
    Children(x);
    Span(x);
  }

  lemma {:induction false} EmptyInOrder(t: Tree, x: nat)
    ensures Unmerged(t, x) == [] ==> ListedInOrder(t, x)
  {
  }

  lemma {:induction false} BlankingKeepsOrder(t: Tree, u: Tree, l: nat, at: Option<Node>, x: nat)
    requires ListedInOrder(t, x) && (at.Some? ==> at.value.Leaf?) && (x % 2 == 0 ==> Unmerged(t, x) == [])
    requires forall y: nat :: At(u, y) == BlankedAt(t, l, at, y)
    ensures ListedInOrder(u, x)
  {
    hide Under, ListedInOrder;
    if OnPath(l, x) || x == 2 * l {
      EmptyInOrder(u, x);
      assert Unmerged(u, x) == [];
    } else {
      forall k: nat | HasLeaf(t, k) && OnPath(k, x) ensures HasLeaf(u, k) {}
      OrderFrame(t, u, x);
    }
  }

  lemma {:induction false} BlankingKeepsTree(t: Tree, u: Tree, l: nat, at: Option<Node>)
    requires TreeOk(t) && Valid(u) && (at.Some? ==> at.value.Leaf?)
    requires forall x: nat :: At(u, x) == BlankedAt(t, l, at, x)
    ensures TreeOk(u)
  {
    forall x: nat ensures ListedInOrder(u, x) { BlankingKeepsOrder(t, u, l, at, x); }
    forall x: nat, m: nat | m in Unmerged(u, x) ensures ListedRightly(u, x, m) {
      assert m in Unmerged(t, x);
      assert ListedRightly(t, x, m);
    }
    forall x: nat | x % 2 == 1 && At(u, x).Some? ensures Occupied(u, Left(x)) && Occupied(u, Right(x)) {
      NotBelowChild(x, l);
      forall m: nat | HasLeaf(t, m) && m != l ensures HasLeaf(u, m) {}
      OccupiedKept(t, u, Left(x));
      OccupiedKept(t, u, Right(x));
    }
  }

  lemma {:induction false} UpdateKeepsTree(t: Tree, leaf: LeafNode, l: nat)
    requires TreeOk(t) && 2 * l < |t|
    ensures TreeOk(UpdateLeaf(t, leaf, l))
  {
    UpdateLeafAt(t, leaf, l);
    BlankingKeepsTree(t, UpdateLeaf(t, leaf, l), l, Some(Leaf(leaf)));
  }

  lemma {:induction false} RemoveKeepsTree(t: Tree, l: nat)
    requires TreeOk(t) && RemoveLeaf(t, l).Ok?
    ensures TreeOk(RemoveLeaf(t, l).value)
  {
    RemoveLeafAt(t, l);
    BlankingKeepsTree(t, RemoveLeaf(t, l).value, l, None);
  }

  lemma {:induction false} AddKeepsOrder(t: Tree, leaf: LeafNode, x: nat)
    requires Valid(t) && UnmergedOk(t) && ListsOrdered(t)
    ensures ListedInOrder(AddLeaf(t, leaf).0, x)
  {
    AddLeafAt(t, leaf);
    var (u, n) := AddLeaf(t, leaf);
    var a := n / 2;
    assert ListedInOrder(t, x) && At(u, x) == AddedAt(t, leaf, n, x);
    forall k: nat ensures HasLeaf(u, k) <==> HasLeaf(t, k) || k == a {
      assert At(u, 2 * k) == AddedAt(t, leaf, n, 2 * k);
    }
    if x != n && OnPath(a, x) && At(t, x).Some? && At(t, x).value.Inner? {
      forall k: nat | k < a ensures HasLeaf(t, k) { LowestBlank(t, k); }
      forall l | l in Unmerged(t, x) ensures HasLeaf(t, l) { assert ListedRightly(t, x, l); }
      OrderAdded(t, u, x, a);
    } else {
      OrderFrame(t, u, x);
    }
  }

  lemma {:induction false} AddKeepsTree(t: Tree, leaf: LeafNode)
    requires TreeOk(t)
    ensures TreeOk(AddLeaf(t, leaf).0)
  {
    AddLeafAt(t, leaf);
    var (u, n) := AddLeaf(t, leaf);
    var a := n / 2;
    forall x: nat ensures ListedInOrder(u, x) { AddKeepsOrder(t, leaf, x); }
    forall x: nat, m: nat | m in Unmerged(u, x) ensures ListedRightly(u, x, m) {
      if m in Unmerged(t, x) {
        assert ListedRightly(t, x, m);
      } else {
        assert m == a && OnPath(a, x);
      }
    }
    forall x: nat | x % 2 == 1 && At(u, x).Some? ensures Occupied(u, Left(x)) && Occupied(u, Right(x)) {
      assert At(t, x).Some?;
      forall m: nat | HasLeaf(t, m) ensures HasLeaf(u, m) {}
      OccupiedKept(t, u, Left(x));
      OccupiedKept(t, u, Right(x));
    }
  }

  /** A non-empty resolution means somebody is there. */
  lemma {:induction false} ResolutionOccupied(t: Tree, x: nat)
    requires TreeOk(t) && Resolution(t, x) != []
    ensures Occupied(t, x)
    decreases Level(x)
  {
    Span(x);
    if x % 2 == 0 {
      assert HasLeaf(t, x / 2) && Under(2 * (x / 2), x);
    } else {
      Children(x);
      var c := if At(t, x).Some? || Resolution(t, Left(x)) != [] then Left(x) else Right(x);
      if At(t, x).None? { ResolutionOccupied(t, c); }
      var l: nat :| HasLeaf(t, l) && Under(2 * l, c);
      assert Under(2 * l, x);
    }
  }

  // ---- a weaker rule, which any accepted commit keeps ----

  /** Every listed leaf is below the node that lists it. */
  ghost predicate ListsBelow(t: Tree) {
    forall x: nat, l: nat | l in Unmerged(t, x) :: OnPath(l, x)
  }

  lemma {:induction false} UnmergedBelow(t: Tree)
    requires UnmergedOk(t)
    ensures ListsBelow(t)
  {
    forall x: nat, l: nat | l in Unmerged(t, x) ensures OnPath(l, x) { assert ListedRightly(t, x, l); }
  }

  lemma {:induction false} BlankingKeepsBelow(t: Tree, u: Tree, l: nat, at: Option<Node>)
    requires ListsBelow(t) && (at.Some? ==> at.value.Leaf?)
    requires forall x: nat :: At(u, x) == BlankedAt(t, l, at, x)
    ensures ListsBelow(u)
  {
    forall x: nat, k: nat | k in Unmerged(u, x) ensures OnPath(k, x) {
      assert At(u, x) == BlankedAt(t, l, at, x);
      assert k in Unmerged(t, x);
    }
  }

  lemma {:induction false} AddKeepsBelow(t: Tree, leaf: LeafNode)
    requires Valid(t) && ListsBelow(t)
    ensures ListsBelow(AddLeaf(t, leaf).0)
  {
    hide OnPath, AddLeaf;
    AddLeafAt(t, leaf);
    var (u, n) := AddLeaf(t, leaf);
    forall x: nat, k: nat | k in Unmerged(u, x) ensures OnPath(k, x) {
      assert At(u, x) == AddedAt(t, leaf, n, x);
      if k !in Unmerged(t, x) { assert k == n / 2; }
    }
  }

  lemma {:induction false} ListedNode(us: seq<nat>, n: nat)
    ensures n in LeafNodes(us) ==> n % 2 == 0 && n / 2 in us
  {
    if n in LeafNodes(us) {
      var i :| 0 <= i < |us| && LeafNodes(us)[i] == n;
      assert us[i] == n / 2;
    }
  }

  /** A resolution names leaf `l` only if it is occupied, when everything above it is blank. */
  lemma {:induction false} ResolutionNames(t: Tree, x: nat, l: nat)
    requires ListsBelow(t) && 2 * l in Resolution(t, x) && forall y: nat | OnPath(l, y) :: At(t, y) == None
    ensures At(t, 2 * l).Some?
    decreases Level(x)
  {
    hide OnPath, Lo, Hi, Level, Left, Right;
    if At(t, x).None? {
      if x % 2 == 1 {
        Children(x);
        if 2 * l in Resolution(t, Left(x)) { ResolutionNames(t, Left(x), l); } else { ResolutionNames(t, Right(x), l); }
      }
    } else {
      ListedNode(Unmerged(t, x), 2 * l);
    }
  }

  /** A parent in a resolution is not blank. */
  lemma {:induction false} ResolutionParents(t: Tree, x: nat, n: nat)
    requires n in Resolution(t, x) && n % 2 == 1
    ensures At(t, n).Some?
    decreases Level(x)
  {
    hide Lo, Hi, Level, Left, Right;
    if At(t, x).None? {
      if x % 2 == 1 {
        Children(x);
        if n in Resolution(t, Left(x)) { ResolutionParents(t, Left(x), n); } else { ResolutionParents(t, Right(x), n); }
      }
    } else {
      ListedNode(Unmerged(t, x), n);
    }
  }

  /** What a path's entry is sealed to: the resolution of some node. */
  lemma {:induction false} EntryResolution(t: Tree, x: nat, e: PathEntry) returns (c: nat)
    requires Full(|t|) && x < |t| && e in FilteredFrom(t, x)
    ensures e.resolution == Resolution(t, c)
    decreases Level(Root(|t|)) - Level(x)
  {
    hide Resolution, Lo, Hi;
    if x != Root(|t|) {
      ParentInTree(x, |t|);
      if e in FilteredFrom(t, Parent(x)) { c := EntryResolution(t, Parent(x), e); } else { c := Sibling(x); }
    }
  }
}

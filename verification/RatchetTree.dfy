/** The ratchet tree as an array of nodes (src/ratchet-tree.ts). */
module RatchetTree {
  import opened Options
  import opened Terms
  import opened TreeMath

  /** structurallySound: leaves at even indices, parents at odd ones. */
  predicate Sound(t: Tree) {
    forall x | 0 <= x < |t| :: t[x].Some? ==> (t[x].value.Leaf? <==> x % 2 == 0)
  }

  predicate Valid(t: Tree) {
    Full(|t|) && Sound(t)
  }

  /** Reading past the end of the array is reading a blank node. */
  function At(t: Tree, x: nat): Option<Node> {
    if x < |t| then t[x] else None
  }

  function Unmerged(t: Tree, x: nat): seq<nat> {
    if At(t, x).Some? && At(t, x).value.Inner? then At(t, x).value.parent.unmerged else []
  }

  predicate HasLeaf(t: Tree, l: nat) {
    At(t, 2 * l).Some? && At(t, 2 * l).value.Leaf?
  }

  function LeafAt(t: Tree, l: nat): Option<LeafNode> {
    if HasLeaf(t, l) then Some(At(t, 2 * l).value.leaf) else None
  }

  /** A strict ancestor of leaf `l`: what `directPath` lists (TreeMath.IsAncestorIff). */
  predicate OnPath(l: nat, x: nat) {
    x % 2 == 1 && Under(2 * l, x)
  }

  lemma {:induction false} PathIsOdd(l: nat, x: nat)
    requires OnPath(l, x)
    ensures x % 2 == 1 && x != 2 * l
  {
  }

  // ---- growing and shrinking ----

  function Blanks(n: nat): Tree {
    seq(n, _ => None)
  }

  /** Length without the blank nodes at the end. */
  function StrippedLength(t: Tree): (k: nat)
    ensures k <= |t| && (k > 0 ==> t[k - 1].Some?)
    ensures forall x | k <= x < |t| :: t[x] == None
  {
    if t == [] then 0 else if t[|t| - 1].Some? then |t| else StrippedLength(t[..|t| - 1])
  }

  lemma {:induction false} FullDouble(n: nat)
    requires Full(n)
    ensures Full(2 * n + 1)
  {
    assert (2 * n + 1) / 2 == n;
  }

  /** The smallest 2^(d+1) - 1 that is at least `k`, searching from `n` up. */
  function FullSize(n: nat, k: nat): (size: nat)
    requires Full(n)
    ensures Full(size) && k <= size && n <= size
    decreases k - n
  {
    FullDouble(n);
    if n >= k then n else FullSize(2 * n + 1, k)
  }

  function Condense(t: Tree): Result<Tree> {
    var k := StrippedLength(t);
    if k == 0 then Err(OnlyLeaf) else Ok(t[..k] + Blanks(FullSize(1, k) - k))
  }

  lemma {:induction false} CondenseKeeps(t: Tree)
    ensures Condense(t).Err? <==> (forall x: nat :: At(t, x) == None)
    ensures Condense(t).Ok? ==> Full(|Condense(t).value|)
    ensures Condense(t).Ok? ==> forall x: nat :: At(Condense(t).value, x) == At(t, x)
    ensures Condense(t).Ok? && Sound(t) ==> Sound(Condense(t).value)
  {
    var k := StrippedLength(t);
    if k > 0 {
      assert At(t, k - 1).Some?;
      var c := Condense(t).value;
      forall x: nat ensures At(c, x) == At(t, x) {}
      if Sound(t) {
        forall x | 0 <= x < |c| && c[x].Some? ensures c[x].value.Leaf? <==> x % 2 == 0 {
          assert At(c, x) == At(t, x);
        }
      }
    }
  }

  // ---- the three leaf operations ----

  /** The first blank leaf's node index, if there is one. */
  function FindBlankLeaf(t: Tree, from: nat): (r: Option<nat>)
    requires from % 2 == 0
    ensures r.Some? ==> from <= r.value < |t| && r.value % 2 == 0 && t[r.value] == None
    ensures r.None? ==> forall x | from <= x < |t| && x % 2 == 0 :: t[x].Some?
    ensures r.Some? ==> forall x | from <= x < r.value && x % 2 == 0 :: t[x].Some?
    decreases |t| - from
  {
    if from >= |t| then None
    else if t[from].None? then Some(from)
    else FindBlankLeaf(t, from + 2)
  }

  function NewLeafNode(t: Tree): (x: nat)
    requires Full(|t|)
    ensures x % 2 == 0 && At(t, x) == None
  {
    var b := FindBlankLeaf(t, 0);
    if b.Some? then b.value else |t| + 1
  }

  function AppendUnmerged(n: Option<Node>, l: nat): Option<Node> {
    if n.Some? && n.value.Inner?
    then Some(Inner(n.value.parent.(unmerged := n.value.parent.unmerged + [l])))
    else n
  }

  function AddLeaf(t: Tree, leaf: LeafNode): (Tree, nat)
    requires Full(|t|)
  {
    var b := FindBlankLeaf(t, 0);
    if b.None? then
      (t + [None, Some(Leaf(leaf))] + Blanks(|t| - 1), |t| + 1)
    else
      (seq(|t|, x requires 0 <= x < |t| =>
         if x == b.value then Some(Leaf(leaf))
         else if OnPath(b.value / 2, x) then AppendUnmerged(t[x], b.value / 2)
         else t[x]), b.value)
  }

  /** Node `x` after `leaf` is put at node `n` and listed by the parents above it. */
  function AddedAt(t: Tree, leaf: LeafNode, n: nat, x: nat): Option<Node> {
    if x == n then Some(Leaf(leaf)) else if OnPath(n / 2, x) then AppendUnmerged(At(t, x), n / 2) else At(t, x)
  }

  function BlankPath(t: Tree, l: nat, at: Option<Node>): Tree {
    seq(|t|, x requires 0 <= x < |t| =>
      if x == 2 * l then at else if OnPath(l, x) then None else t[x])
  }

  /** Node `x` after the path of leaf `l` is blanked and `at` put in the leaf's place. */
  function BlankedAt(t: Tree, l: nat, at: Option<Node>, x: nat): Option<Node> {
    if x == 2 * l then at else if OnPath(l, x) then None else At(t, x)
  }

  function UpdateLeaf(t: Tree, leaf: LeafNode, l: nat): Tree {
    BlankPath(t, l, Some(Leaf(leaf)))
  }

  function RemoveLeaf(t: Tree, l: nat): Result<Tree> {
    Condense(BlankPath(t, l, None))
  }

  lemma {:induction false} AddLeafAt(t: Tree, leaf: LeafNode)
    requires Valid(t)
    ensures var (u, n) := AddLeaf(t, leaf); Valid(u) && n == NewLeafNode(t) && n < |u| && |t| <= |u|
    ensures forall x: nat :: At(AddLeaf(t, leaf).0, x) == AddedAt(t, leaf, NewLeafNode(t), x)
  {
    var (u, n) := AddLeaf(t, leaf);
    if FindBlankLeaf(t, 0).None? {
      FullOdd(|t|);
      assert Full(2 * |t| + 1);
      assert |u| == 2 * |t| + 1;
      forall x: nat | OnPath(n / 2, x) && x < |t| ensures false {
        SubtreeInTree(x, |t|);
      }
    }
    forall x: nat ensures At(u, x) == AddedAt(t, leaf, n, x) {}
  }

  lemma {:induction false} FullOdd(n: nat)
    requires Full(n)
    ensures n % 2 == 1
  {
  }

  /** The new leaf's place is the lowest vacancy. */
  lemma {:induction false} LowestBlank(t: Tree, k: nat)
    requires Valid(t) && 2 * k < NewLeafNode(t)
    ensures HasLeaf(t, k)
  {
    var b := FindBlankLeaf(t, 0);
    if b.None? { FullOdd(|t|); }
    assert (2 * k) % 2 == 0 && t[2 * k].Some?;
  }

  lemma {:induction false} UpdateLeafAt(t: Tree, leaf: LeafNode, l: nat)
    requires Valid(t) && 2 * l < |t|
    ensures Valid(UpdateLeaf(t, leaf, l))
    ensures forall x: nat :: At(UpdateLeaf(t, leaf, l), x) == BlankedAt(t, l, Some(Leaf(leaf)), x)
  {
  }

  lemma {:induction false} RemoveLeafAt(t: Tree, l: nat)
    requires Valid(t)
    ensures RemoveLeaf(t, l).Err? <==> forall x: nat :: BlankedAt(t, l, None, x) == None
    ensures RemoveLeaf(t, l).Ok? ==>
      Valid(RemoveLeaf(t, l).value)
      && forall x: nat :: At(RemoveLeaf(t, l).value, x) == BlankedAt(t, l, None, x)
  {
    var b := BlankPath(t, l, None);
    forall x: nat ensures At(b, x) == BlankedAt(t, l, None, x) {}
    assert Sound(b);
    CondenseKeeps(b);
  }

  // ---- resolutions and filtered paths ----

  function LeafNodes(ls: seq<nat>): (r: seq<nat>)
    ensures |r| == |ls| && forall i | 0 <= i < |ls| :: r[i] == 2 * ls[i]
  {
    seq(|ls|, i requires 0 <= i < |ls| => 2 * ls[i])
  }

  function Resolution(t: Tree, x: nat): seq<nat>
    decreases Level(x)
  {
    if At(t, x).None? then
      if x % 2 == 0 then [] else
      Children(x);
      Resolution(t, Left(x)) + Resolution(t, Right(x))
    else if x % 2 == 0 then [x]
    else [x] + LeafNodes(Unmerged(t, x))
  }

  datatype PathEntry = PathEntry(node: nat, resolution: seq<nat>)

  /** The filtered direct path from node `x` up, with copath resolutions. */
  function FilteredFrom(t: Tree, x: nat): seq<PathEntry>
    requires Full(|t|) && x < |t|
    decreases Level(Root(|t|)) - Level(x)
  {
    if x == Root(|t|) then [] else
    ParentInTree(x, |t|);
    var r := Resolution(t, Sibling(x));
    var rest := FilteredFrom(t, Parent(x));
    if r == [] then rest else [PathEntry(Parent(x), r)] + rest
  }

  function FilteredPath(t: Tree, s: nat): seq<PathEntry>
    requires Full(|t|) && 2 * s < |t|
  {
    FilteredFrom(t, 2 * s)
  }

  function Nodes(p: seq<PathEntry>): (r: seq<nat>)
    ensures |r| == |p| && forall i | 0 <= i < |p| :: r[i] == p[i].node
  {
    seq(|p|, i requires 0 <= i < |p| => p[i].node)
  }

  /** Each node is a strict ancestor of the one before it, and of `x`. */
  predicate Chain(x: nat, p: seq<PathEntry>)
    decreases |p|
  {
    p == [] || (p[0].node % 2 == 1 && Under(x, p[0].node) && x != p[0].node && Chain(p[0].node, p[1..]))
  }

  lemma {:induction false} FilteredChain(t: Tree, x: nat)
    requires Full(|t|) && x < |t|
    ensures Chain(x, FilteredFrom(t, x))
    ensures forall e | e in FilteredFrom(t, x) :: e.node < |t|
    decreases Level(Root(|t|)) - Level(x)
  {
    if x != Root(|t|) {
      ParentInTree(x, |t|);
      FilteredChain(t, Parent(x));
      UnderParent(x, Parent(x));
      ParentChild(x);
      var rest := FilteredFrom(t, Parent(x));
      if Resolution(t, Sibling(x)) == [] {
        ChainDown(x, Parent(x), rest);
      } else {
        assert FilteredFrom(t, x)[1..] == rest;
      }
    }
  }

  lemma {:induction false} ChainDown(x: nat, y: nat, p: seq<PathEntry>)
    requires Under(x, y) && x != y && Chain(y, p)
    ensures Chain(x, p)
  {
    if p != [] {
      UnderTrans(x, y, p[0].node);
      UnderNested(x, y);
      UnderNested(y, p[0].node);
    }
  }

  /** A chain's nodes: each contains `x` strictly. */
  lemma {:induction false} ChainAbove(x: nat, p: seq<PathEntry>)
    requires Chain(x, p)
    ensures forall e | e in p :: e.node % 2 == 1 && Under(x, e.node) && Level(x) < Level(e.node)
    decreases |p|
  {
    if p != [] {
      var y := p[0].node;
      UnderNested(x, y);
      ChainAbove(y, p[1..]);
      forall e | e in p ensures e.node % 2 == 1 && Under(x, e.node) && Level(x) < Level(e.node) {
        if e != p[0] {
          assert e in p[1..];
          UnderTrans(x, y, e.node);
        }
      }
    }
  }

  // ---- what a resolution reads ----

  ghost predicate SameUnder(t: Tree, u: Tree, x: nat) {
    forall y: nat :: Under(y, x) ==> At(t, y) == At(u, y)
  }

  lemma {:induction false} SameUnderChild(t: Tree, u: Tree, x: nat)
    requires x % 2 == 1 && SameUnder(t, u, x)
    ensures SameUnder(t, u, Left(x)) && SameUnder(t, u, Right(x)) && At(t, x) == At(u, x)
  {
    Children(x);
    Span(x);
  }

  lemma {:induction false} ResolutionFrame(t: Tree, u: Tree, x: nat)
    requires SameUnder(t, u, x)
    ensures Resolution(t, x) == Resolution(u, x)
    decreases Level(x)
  {
    Span(x);
    assert At(t, x) == At(u, x);
    if x % 2 == 1 && At(t, x).None? {
      Children(x);
      SameUnderChild(t, u, x);
      ResolutionFrame(t, u, Left(x));
      ResolutionFrame(t, u, Right(x));
    }
  }

  /** Trees that differ only on `b` and its ancestors have equal filtered paths from any of those. */
  lemma {:induction false} FilteredFrame(t: Tree, u: Tree, b: nat, x: nat)
    requires Full(|t|) && |u| == |t| && x < |t| && Under(b, x)
    requires forall y: nat :: !Under(b, y) ==> At(t, y) == At(u, y)
    ensures FilteredFrom(t, x) == FilteredFrom(u, x)
    decreases Level(Root(|t|)) - Level(x)
  {
    if x != Root(|t|) {
      ParentInTree(x, |t|);
      UnderParent(x, Parent(x));
      UnderTrans(b, x, Parent(x));
      SiblingApart(b, x);
      ResolutionFrame(t, u, Sibling(x));
      FilteredFrame(t, u, b, Parent(x));
    }
  }

  /** No node under `x`'s sibling has `b` below it when `b` is under `x`. */
  lemma {:induction false} SiblingApart(b: nat, x: nat)
    requires Under(b, x)
    ensures forall y: nat | Under(y, Sibling(x)) :: !Under(b, y)
  {
    SiblingFacts(x);
    forall y: nat | Under(y, Sibling(x)) ensures !Under(b, y) {
      UnderNested(y, Sibling(x));
    }
  }
}

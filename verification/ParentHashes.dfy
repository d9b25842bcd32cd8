/** Tree hashes and parent hashes (src/tree-hash.ts, src/parent-hash.ts). */
module ParentHashes {
  import opened Options
  import opened Terms
  import opened TreeMath
  import opened RatchetTree

  function TreeHash(t: Tree, x: nat): Digest
    decreases Level(x)
  {
    if x % 2 == 0 then LeafDigest(x / 2, LeafAt(t, x / 2))
    else
      Children(x);
      InnerDigest(
        if At(t, x).Some? && At(t, x).value.Inner? then Some(At(t, x).value.parent) else None,
        TreeHash(t, Left(x)), TreeHash(t, Right(x)))
  }

  lemma {:induction false} TreeHashFrame(t: Tree, u: Tree, x: nat)
    requires SameUnder(t, u, x)
    ensures TreeHash(t, x) == TreeHash(u, x)
    decreases Level(x)
  {
    Span(x);
    assert At(t, x) == At(u, x);
    if x % 2 == 1 {
      Children(x);
      SameUnderChild(t, u, x);
      TreeHashFrame(t, u, Left(x));
      TreeHashFrame(t, u, Right(x));
    }
  }

  function DropAll(us: seq<nat>, ls: seq<nat>): (r: seq<nat>)
    ensures forall u :: u in r <==> u in us && u !in ls
  {
    if us == [] then [] else (if us[0] in ls then [] else [us[0]]) + DropAll(us[1..], ls)
  }

  function NodeWithoutLeaves(n: Option<Node>, x: nat, ls: seq<nat>): Option<Node> {
    if n.None? then None
    else if x % 2 == 0 && x / 2 in ls then None
    else if n.value.Inner? then Some(Inner(n.value.parent.(unmerged := DropAll(n.value.parent.unmerged, ls))))
    else n
  }

  /** removeLeaves. The source also cuts blank nodes off the end, which no tree hash can see. */
  function WithoutLeaves(t: Tree, ls: seq<nat>): Tree {
    seq(|t|, x requires 0 <= x < |t| => NodeWithoutLeaves(t[x], x, ls))
  }

  lemma {:induction false} WithoutLeavesAt(t: Tree, ls: seq<nat>)
    ensures forall x: nat :: At(WithoutLeaves(t, ls), x) == NodeWithoutLeaves(At(t, x), x, ls)
  {
  }

  /** The nearest non-blank strict ancestor of `x`, or the root when there is none. */
  function FirstNonBlankAncestor(t: Tree, x: nat): (p: nat)
    requires Full(|t|) && x < |t|
    ensures p < |t|
    decreases Level(Root(|t|)) - Level(x)
  {
    if x == Root(|t|) then x else
    ParentInTree(x, |t|);
    if t[Parent(x)].Some? then Parent(x) else FirstNonBlankAncestor(t, Parent(x))
  }

  function OtherChild(p: nat, x: nat): nat
    requires p % 2 == 1
  {
    if x < p then Right(p) else Left(p)
  }

  function OwnChild(p: nat, x: nat): nat
    requires p % 2 == 1
  {
    if x < p then Left(p) else Right(p)
  }

  /** The hash a child of parent `p` on `x`'s side carries: it covers `p` and the
      other side as it stood before the leaves `p` has not merged were added. */
  function LinkHash(t: Tree, p: nat, x: nat): Digest
    requires p % 2 == 1 && At(t, p).Some? && At(t, p).value.Inner?
  {
    var n := At(t, p).value.parent;
    ParentHashOf(n.hpkeKey, n.parentHash, TreeHash(WithoutLeaves(t, n.unmerged), OtherChild(p, x)))
  }

  /** calculateParentHash: the hash and the node it refers to, None above the root. */
  function CalculateParentHash(t: Tree, x: nat): (Digest, Option<nat>)
    requires Valid(t) && x < |t|
  {
    if x == Root(|t|) then (NoBytes, None) else
    var p := FirstNonBlankAncestor(t, x);
    AncestorAbove(t, x);
    if t[p].None? then (NoBytes, Some(p)) else (LinkHash(t, p, x), Some(p))
  }

  lemma {:induction false} AncestorAbove(t: Tree, x: nat)
    requires Full(|t|) && x < |t|
    ensures var p := FirstNonBlankAncestor(t, x);
      Under(x, p) && (x != Root(|t|) ==> p % 2 == 1 && p != x && Level(x) < Level(p))
    ensures var p := FirstNonBlankAncestor(t, x); t[p].None? && x != Root(|t|) ==> p == Root(|t|)
    decreases Level(Root(|t|)) - Level(x)
  {
    if x == Root(|t|) {
      Span(x);
    } else {
      ParentInTree(x, |t|);
      UnderParent(x, Parent(x));
      ParentOdd(x);
      if t[Parent(x)].None? {
        AncestorAbove(t, Parent(x));
        UnderTrans(x, Parent(x), FirstNonBlankAncestor(t, x));
        UnderNested(x, FirstNonBlankAncestor(t, x));
      }
    }
  }

  /** No non-blank node lies strictly between `x` and the ancestor found. */
  lemma {:induction false} AncestorNearest(t: Tree, x: nat, y: nat)
    requires Full(|t|) && x < |t| && y < |t|
    requires Under(x, y) && x != y && t[y].Some?
    ensures Under(FirstNonBlankAncestor(t, x), y) && t[FirstNonBlankAncestor(t, x)].Some?
    decreases Level(Root(|t|)) - Level(x)
  {
    if x == Root(|t|) {
      RootTop(y, |t|);
    } else {
      ParentInTree(x, |t|);
      UnderParent(x, y);
      if t[Parent(x)].None? { AncestorNearest(t, Parent(x), y); }
    }
  }

  // ---- a parent hash reads nothing under the node it is computed for ----

  lemma {:induction false} AncestorFrame(t: Tree, u: Tree, b: nat, x: nat)
    requires Full(|t|) && |u| == |t| && x < |t| && Under(b, x)
    requires forall y: nat :: !Under(y, b) ==> At(t, y) == At(u, y)
    ensures FirstNonBlankAncestor(t, x) == FirstNonBlankAncestor(u, x)
    decreases Level(Root(|t|)) - Level(x)
  {
    if x != Root(|t|) {
      ParentInTree(x, |t|);
      UnderParent(x, Parent(x));
      UnderTrans(b, x, Parent(x));
      UnderNested(b, x);
      if Under(Parent(x), b) { UnderNested(Parent(x), b); }
      assert At(t, Parent(x)) == At(u, Parent(x));
      if t[Parent(x)].None? { AncestorFrame(t, u, b, Parent(x)); }
    }
  }

  lemma {:induction false} OtherChildApart(p: nat, x: nat)
    requires p % 2 == 1 && Under(x, p) && x != p
    ensures Under(x, OwnChild(p, x))
    ensures forall y: nat :: Under(y, OtherChild(p, x)) ==> !Under(y, x) && !Under(x, y) && Under(y, p) && y != p
  {
    Children(p);
    Span(p);
    UnderNested(x, OwnChild(p, x));
    Span(x);
    forall y: nat | Under(y, OtherChild(p, x)) ensures !Under(y, x) && !Under(x, y) && Under(y, p) && y != p {
      UnderNested(y, OtherChild(p, x));
    }
  }

  lemma {:induction false} LinkHashFrame(t: Tree, u: Tree, p: nat, x: nat)
    requires p % 2 == 1 && At(t, p) == At(u, p) && At(t, p).Some? && At(t, p).value.Inner?
    requires SameUnder(t, u, OtherChild(p, x))
    ensures LinkHash(t, p, x) == LinkHash(u, p, x)
  {
    var ls := At(t, p).value.parent.unmerged;
    WithoutLeavesAt(t, ls);
    WithoutLeavesAt(u, ls);
    TreeHashFrame(WithoutLeaves(t, ls), WithoutLeaves(u, ls), OtherChild(p, x));
  }

  lemma {:induction false} ParentHashFrame(t: Tree, u: Tree, x: nat)
    requires Valid(t) && Valid(u) && |u| == |t| && x < |t|
    requires forall y: nat :: !Under(y, x) ==> At(t, y) == At(u, y)
    ensures CalculateParentHash(t, x) == CalculateParentHash(u, x)
  {
    if x != Root(|t|) {
      var p := FirstNonBlankAncestor(t, x);
      Span(x);
      AncestorFrame(t, u, x, x);
      AncestorAbove(t, x);
      if Under(p, x) { UnderNested(p, x); }
      assert At(t, p) == At(u, p);
      if t[p].Some? {
        OtherChildApart(p, x);
        LinkHashFrame(t, u, p, x);
      }
    }
  }
}

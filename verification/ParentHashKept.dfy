/** Each non-blank parent keeps a valid link from below, whatever a commit adds,
    updates, removes or writes along its path, and whoever makes it. */
module ParentHashKept {
  import opened Options
  import opened Terms
  import opened TreeMath
  import opened RatchetTree
  import opened ParentHashes
  import opened UpdatePaths
  import opened UnmergedLeaves
  import opened KeyOwnership
  import opened ParentHashCheck

  ghost predicate HasLink(t: Tree, p: nat) {
    exists d: nat :: ValidLink(t, d, p)
  }

  ghost predicate HashesLinked(t: Tree) {
    forall p: nat | p % 2 == 1 && At(t, p).Some? :: HasLink(t, p)
  }

  // ---- a linked parent ends a chain from a leaf ----

  lemma {:induction false} LinkBelow(t: Tree, p: nat) returns (d: nat)
    requires HashesLinked(t) && p % 2 == 1 && At(t, p).Some?
    ensures ValidLink(t, d, p) && At(t, d).Some? && Level(d) < Level(p)
  {
    assert HasLink(t, p);
    d :| ValidLink(t, d, p);
    UnderNested(d, p);
  }

  lemma {:induction false} ChainExtend(t: Tree, below: seq<nat>, d: nat, p: nat)
    requires (d % 2 == 0 && below == [d]) || LeafChain(t, below, d)
    requires ValidLink(t, d, p)
    ensures LeafChain(t, below + [p], p)
  {
    var path := below + [p];
    forall i | 0 <= i < |path| - 1 ensures ValidLink(t, path[i], path[i + 1]) {
      if i < |below| - 1 { assert ValidLink(t, below[i], below[i + 1]); }
    }
  }

  lemma {:induction false} ChainExists(t: Tree, p: nat) returns (path: seq<nat>)
    requires HashesLinked(t) && p % 2 == 1 && At(t, p).Some?
    ensures LeafChain(t, path, p)
    decreases Level(p)
  {
    var d := LinkBelow(t, p);
    var below: seq<nat> := [d];
    if d % 2 == 1 { below := ChainExists(t, d); }
    ChainExtend(t, below, d, p);
    path := below + [p];
  }

  // ---- Updates and Removes ----

  lemma {:induction false} LinkFrame(t: Tree, u: Tree, d: nat, p: nat)
    requires ValidLink(t, d, p) && SameUnder(t, u, p)
    ensures ValidLink(u, d, p)
  {
    Span(p);
    SameUnderChild(t, u, p);
    assert At(t, p) == At(u, p) && At(t, d) == At(u, d);
    LinkHashFrame(t, u, p, d);
    ResolutionFrame(t, u, OwnChild(p, d));
  }

  lemma {:induction false} HasLinkFrame(t: Tree, u: Tree, p: nat)
    requires HasLink(t, p) && SameUnder(t, u, p)
    ensures HasLink(u, p)
  {
    var d: nat :| ValidLink(t, d, p);
    LinkFrame(t, u, d, p);
  }

  /** Nothing under a parent off leaf `l`'s path is above that leaf, or is that leaf. */
  lemma {:induction false} OffPath(l: nat, p: nat, y: nat)
    requires p % 2 == 1 && !OnPath(l, p) && Under(y, p)
    ensures y != 2 * l && !OnPath(l, y)
  {
    if OnPath(l, y) { UnderTrans(2 * l, y, p); }
  }

  lemma {:induction false} BlankingKeepsHashes(t: Tree, u: Tree, l: nat, at: Option<Node>)
    requires HashesLinked(t)
    requires forall x: nat :: At(u, x) == BlankedAt(t, l, at, x)
    ensures HashesLinked(u)
  {
    forall p: nat | p % 2 == 1 && At(u, p).Some? ensures HasLink(u, p) {
      BlankedUnder(t, u, l, at, p);
      HasLinkFrame(t, u, p);
    }
  }

  lemma {:induction false} BlankedUnder(t: Tree, u: Tree, l: nat, at: Option<Node>, p: nat)
    requires forall x: nat :: At(u, x) == BlankedAt(t, l, at, x)
    requires p % 2 == 1 && At(u, p).Some?
    ensures SameUnder(t, u, p) && At(t, p).Some?
  {
    forall y: nat | Under(y, p) ensures At(t, y) == At(u, y) { OffPath(l, p, y); }
    Span(p);
  }

  lemma {:induction false} UpdateKeepsHashes(t: Tree, leaf: LeafNode, l: nat)
    requires Valid(t) && HashesLinked(t) && 2 * l < |t|
    ensures HashesLinked(UpdateLeaf(t, leaf, l))
  {
    UpdateLeafAt(t, leaf, l);
    BlankingKeepsHashes(t, UpdateLeaf(t, leaf, l), l, Some(Leaf(leaf)));
  }

  lemma {:induction false} RemoveKeepsHashes(t: Tree, l: nat)
    requires Valid(t) && HashesLinked(t) && RemoveLeaf(t, l).Ok?
    ensures HashesLinked(RemoveLeaf(t, l).value)
  {
    RemoveLeafAt(t, l);
    BlankingKeepsHashes(t, RemoveLeaf(t, l).value, l, None);
  }

  // ---- Adds ----

  /** `u` is `t` with `leaf` put at the blank leaf node `n`. */
  ghost predicate LeafAdded(t: Tree, u: Tree, leaf: LeafNode, n: nat) {
    && Sound(t) && UnmergedOk(t) && n % 2 == 0 && At(t, n) == None
    && forall x: nat :: At(u, x) == AddedAt(t, leaf, n, x)
  }

  lemma {:induction false} DropAppend(um: seq<nat>, us: seq<nat>, a: nat)
    requires a !in um
    ensures DropAll(um + [a], us + [a]) == DropAll(um, us) == DropAll(um, us + [a])
  {
    if um == [] {
      assert [] + [a] == [a];
    } else {
      DropAppend(um[1..], us, a);
      assert (um + [a])[0] == um[0] && (um + [a])[1..] == um[1..] + [a];
    }
  }

  lemma {:induction false} NewLeafUnlisted(t: Tree, n: nat, y: nat)
    requires UnmergedOk(t) && n % 2 == 0 && At(t, n) == None
    ensures n / 2 !in Unmerged(t, y)
  {
    assert n / 2 in Unmerged(t, y) ==> ListedRightly(t, y, n / 2);
  }

  /** Removing the new leaf too gives back what removing the others gave before. */
  lemma {:induction false} AddedThenRemoved(t: Tree, u: Tree, leaf: LeafNode, n: nat, us: seq<nat>, y: nat)
    requires LeafAdded(t, u, leaf, n)
    ensures NodeWithoutLeaves(At(u, y), y, us + [n / 2]) == NodeWithoutLeaves(At(t, y), y, us)
  {
    assert At(u, y) == AddedAt(t, leaf, n, y);
    NewLeafUnlisted(t, n, y);
    if At(t, y).Some? && At(t, y).value.Inner? {
      DropAppend(Unmerged(t, y), us, n / 2);
    }
  }

  lemma {:induction false} AddedLinkHash(t: Tree, u: Tree, leaf: LeafNode, n: nat, d: nat, p: nat)
    requires LeafAdded(t, u, leaf, n) && OnPath(n / 2, p) && At(t, p).Some? && At(t, p).value.Inner?
    ensures At(u, p).Some? && At(u, p).value.Inner? && Unmerged(u, p) == Unmerged(t, p) + [n / 2]
    ensures LinkHash(u, p, d) == LinkHash(t, p, d)
  {
    var us := Unmerged(t, p);
    assert At(u, p) == AddedAt(t, leaf, n, p);
    var tw, uw := WithoutLeaves(t, us), WithoutLeaves(u, us + [n / 2]);
    WithoutLeavesAt(t, us);
    WithoutLeavesAt(u, us + [n / 2]);
    forall y: nat ensures At(tw, y) == At(uw, y) { AddedThenRemoved(t, u, leaf, n, us, y); }
    TreeHashFrame(tw, uw, OtherChild(p, d));
  }

  lemma {:induction false} ListedAppend(us: seq<nat>, a: nat, c: nat)
    ensures ListedUnder(us + [a], c) == ListedUnder(us, c) + ListedUnder([a], c)
  {
    if us == [] {
      assert us + [a] == [a];
    } else {
      var first, rest := us[0], us[1..];
      ListedAppend(rest, a, c);
      var all := us + [a];
      assert all[0] == first && all[1..] == rest + [a];
    }
  }

  lemma {:induction false} ListedOne(a: nat, c: nat)
    ensures ListedUnder([a], c) == if Under(2 * a, c) then [2 * a] else []
  {
    var none: seq<nat> := [a][1..];
    assert ListedUnder(none, c) == [];
  }

  lemma {:induction false} WithoutCounts(s: seq<nat>, d: nat)
    ensures multiset(Without(s, d)) == multiset(s)[d := 0]
  {
    if s != [] {
      WithoutCounts(s[1..], d);
      assert s == [s[0]] + s[1..];
    }
  }

  lemma {:induction false} AddedElsewhere(t: Tree, u: Tree, leaf: LeafNode, n: nat, x: nat)
    requires LeafAdded(t, u, leaf, n) && !Under(n, x)
    ensures SameUnder(t, u, x)
  {
    forall y: nat | Under(y, x) ensures At(t, y) == At(u, y) {
      if Under(n, y) { UnderTrans(n, y, x); }
      Span(n);
      assert At(u, y) == AddedAt(t, leaf, n, y);
    }
  }

  /** The new leaf joins every resolution above it, once. */
  lemma {:induction false} ResolutionAdded(t: Tree, u: Tree, leaf: LeafNode, n: nat, x: nat)
    requires LeafAdded(t, u, leaf, n) && Under(n, x)
    ensures multiset(Resolution(u, x)) == multiset(Resolution(t, x)) + multiset{n}
    decreases Level(x)
  {
    if x % 2 == 0 || At(t, x).Some? {
      ResolutionAddedHere(t, u, leaf, n, x);
    } else {
      var c, o := AddedSide(t, u, leaf, n, x);
      ResolutionAdded(t, u, leaf, n, c);
      AddedElsewhere(t, u, leaf, n, o);
      ResolutionFrame(t, u, o);
    }
  }

  lemma {:induction false} ResolutionAddedHere(t: Tree, u: Tree, leaf: LeafNode, n: nat, x: nat)
    requires LeafAdded(t, u, leaf, n) && Under(n, x) && (x % 2 == 0 || At(t, x).Some?)
    ensures multiset(Resolution(u, x)) == multiset(Resolution(t, x)) + multiset{n}
  {
    hide Lo, Hi, Level;
    assert At(u, x) == AddedAt(t, leaf, n, x);
    OnlyLeafUnder(n, x);
    if x % 2 == 0 {
      assert Resolution(u, x) == [n] && Resolution(t, x) == [];
    } else {
      assert LeafNodes(Unmerged(u, x)) == LeafNodes(Unmerged(t, x)) + [n];
      assert Resolution(u, x) == Resolution(t, x) + [n];
    }
  }

  /** At a blank node the new leaf is on one side, and only that side's resolution changes. */
  lemma {:induction false} AddedSide(t: Tree, u: Tree, leaf: LeafNode, n: nat, x: nat) returns (c: nat, o: nat)
    requires LeafAdded(t, u, leaf, n) && Under(n, x) && x % 2 == 1 && At(t, x).None?
    ensures Under(n, c) && !Under(n, o) && Level(c) < Level(x)
    ensures multiset(Resolution(t, x)) == multiset(Resolution(t, c)) + multiset(Resolution(t, o))
    ensures multiset(Resolution(u, x)) == multiset(Resolution(u, c)) + multiset(Resolution(u, o))
  {
    Children(x);
    assert At(u, x) == AddedAt(t, leaf, n, x);
    c, o := if n < x then Left(x) else Right(x), if n < x then Right(x) else Left(x);
  }

  lemma {:induction false} SameSetAdded(a: seq<nat>, b: seq<nat>, a': seq<nat>, b': seq<nat>, n: nat)
    requires SameIndexSet(a, b)
    requires multiset(a') == multiset(a) + multiset{n} && multiset(b') == multiset(b) + multiset{n}
    ensures SameIndexSet(a', b')
  {
    assert |a'| == |multiset(a')| && |b'| == |multiset(b')|;
    forall m | m in b' ensures m in a' {
      assert m in multiset(b');
      if m != n { assert m in multiset(b) && m in b && m in a && m in multiset(a); }
      assert m in multiset(a');
    }
  }

  lemma {:induction false} CriterionAdded(a: seq<nat>, r: seq<nat>, r': seq<nat>, d: nat, n: nat)
    requires d in r && d != n && multiset(r') == multiset(r) + multiset{n}
    requires SameIndexSet(a, Without(r, d))
    ensures d in r' && SameIndexSet(a + [n], Without(r', d))
  {
    WithoutCounts(r, d);
    WithoutCounts(r', d);
    assert d in multiset(r');
    assert multiset(Without(r', d)) == multiset(Without(r, d)) + multiset{n};
    SameSetAdded(a, Without(r, d), a + [n], Without(r', d), n);
  }

  lemma {:induction false} AddedCriterion(t: Tree, u: Tree, leaf: LeafNode, n: nat, d: nat, p: nat, c: nat)
    requires LeafAdded(t, u, leaf, n) && Criterion(t, d, p, c) && OnPath(n / 2, p) && At(t, d).Some?
    requires At(u, p).Some? && At(u, p).value.Inner? && Unmerged(u, p) == Unmerged(t, p) + [n / 2]
    ensures Criterion(u, d, p, c)
  {
    var us := Unmerged(t, p);
    ListedAppend(us, n / 2, c);
    ListedOne(n / 2, c);
    if Under(n, c) {
      ResolutionAdded(t, u, leaf, n, c);
      CriterionAdded(ListedUnder(us, c), Resolution(t, c), Resolution(u, c), d, n);
      assert 2 * (n / 2) == n;
    } else {
      AddedElsewhere(t, u, leaf, n, c);
      ResolutionFrame(t, u, c);
    }
  }

  lemma {:induction false} AddedLink(t: Tree, u: Tree, leaf: LeafNode, n: nat, d: nat, p: nat)
    requires LeafAdded(t, u, leaf, n) && ValidLink(t, d, p) && OnPath(n / 2, p)
    ensures ValidLink(u, d, p)
  {
    AddedLinkHash(t, u, leaf, n, d, p);
    AddedCriterion(t, u, leaf, n, d, p, OwnChild(p, d));
    assert At(u, d) == AddedAt(t, leaf, n, d);
  }

  lemma {:induction false} AddKeepsHashes(t: Tree, leaf: LeafNode)
    requires TreeOk(t) && HashesLinked(t)
    ensures HashesLinked(AddLeaf(t, leaf).0)
  {
    AddLeafAt(t, leaf);
    var (u, n) := AddLeaf(t, leaf);
    assert LeafAdded(t, u, leaf, n);
    forall p: nat | p % 2 == 1 && At(u, p).Some? ensures HasLink(u, p) {
      assert At(u, p) == AddedAt(t, leaf, n, p);
      var d := LinkBelow(t, p);
      if OnPath(n / 2, p) {
        AddedLink(t, u, leaf, n, d, p);
      } else {
        AddedElsewhere(t, u, leaf, n, p);
        LinkFrame(t, u, d, p);
      }
    }
  }

  // ---- a path ----

  /** Each node written along a path carries the hash its place in the tree calls for. */
  predicate Hashed(u: Tree, x: nat)
    requires Valid(u) && x < |u|
  {
    At(u, x).Some? && CarriedHash(At(u, x).value) == Some(CalculateParentHash(u, x).0)
  }

  lemma {:induction false} HashedFrame(t: Tree, u: Tree, x: nat, n: nat)
    requires Valid(t) && Valid(u) && |t| == |u| && x < |t| && Hashed(t, x) && Under(n, x) && n != x
    requires forall y: nat | y != n :: At(t, y) == At(u, y)
    ensures Hashed(u, x)
  {
    ParentHashFrame(t, u, x);
  }

  lemma {:induction false} WriteParentHashesHashed(t: Tree, path: seq<PathEntry>, x: nat)
    requires Valid(t) && Chain(x, path)
    requires forall e | e in path :: e.node < |t| && e.node % 2 == 1 && t[e.node].Some?
    ensures forall e | e in path :: Hashed(WriteParentHashes(t, path), e.node)
    decreases |path|
  {
    if path != [] {
      var n, rest := path[0].node, path[1..];
      var v, w := WriteParentHashes(t, rest), WriteParentHashes(t, path);
      WriteParentHashesHashed(t, rest, n);
      forall y: nat | y != n ensures At(v, y) == At(w, y) {}
      Span(n);
      ParentHashFrame(v, w, n);
      assert Hashed(w, n);
      ChainAbove(n, rest);
      forall e | e in path ensures Hashed(w, e.node) {
        if e != path[0] {
          assert e in rest;
          HashedFrame(v, w, e.node, n);
        }
      }
    }
  }

  lemma {:induction false} NewTreeHashed(
      t: Tree, s: nat, gc: GroupContext, signKey: Secret, seed: Secret, patch: LeafPatch)
    requires Valid(t) && HasLeaf(t, s)
    ensures var u := NewTree(t, s, gc, signKey, seed, patch);
      Hashed(u, 2 * s) && forall e | e in FilteredPath(t, s) :: e.node < |u| && Hashed(u, e.node)
  {
    hide Lo, Hi, Level, CalculateParentHash, FilteredFrom;
    var path := FilteredPath(t, s);
    FilteredChain(t, 2 * s);
    ChainAbove(2 * s, path);
    WriteKeysValid(t, path, seed);
    WriteParentHashesHashed(WriteKeys(t, path, seed), path, 2 * s);
    var w, u := PathTree(t, s, seed), NewTree(t, s, gc, signKey, seed, patch);
    Span(2 * s);
    ParentHashFrame(w, u, 2 * s);
    forall e | e in path ensures Hashed(u, e.node) { HashedFrame(w, u, e.node, 2 * s); }
  }

  /** The node of the path below entry `i`, `d` below the first. */
  function Below(path: seq<PathEntry>, d: nat, i: nat): nat
    requires i <= |path|
  {
    if i == 0 then d else path[i - 1].node
  }

  /** `p` is `d`'s nearest non-blank ancestor, and `d` all there is on that side of it. */
  ghost predicate LinkReady(u: Tree, p: nat, d: nat) {
    && Full(|u|) && d < |u| && d != Root(|u|)
    && p % 2 == 1 && Under(d, p) && d != p && At(u, p).Some? && FirstNonBlankAncestor(u, d) == p
    && Resolution(u, OwnChild(p, d)) == [d]
  }

  /** What `u` looks like on and above `x`, when a path was written over `t` from below `x`. */
  ghost predicate PathAbove(t: Tree, u: Tree, b: nat, x: nat) {
    && Valid(t) && Valid(u) && |t| == |u| && x < |t| && Under(b, x)
    && (forall y: nat | !Under(b, y) :: At(t, y) == At(u, y))
    && (forall y: nat | Under(x, y) && y != x && At(u, y).Some? :: y in Nodes(FilteredFrom(t, x)))
    && (forall y: nat | y in Nodes(FilteredFrom(t, x)) :: At(u, y).Some? && Unmerged(u, y) == [])
  }

  lemma {:induction false} PathAboveNext(t: Tree, u: Tree, b: nat, x: nat)
    requires PathAbove(t, u, b, x) && x != Root(|t|) && Parent(x) < |t|
    ensures PathAbove(t, u, b, Parent(x))
    ensures Resolution(u, Sibling(x)) == Resolution(t, Sibling(x))
    ensures At(u, Parent(x)).Some? <==> Resolution(t, Sibling(x)) != []
    ensures At(u, Parent(x)).Some? ==> Unmerged(u, Parent(x)) == []
    ensures Resolution(u, Parent(x)) == if At(u, Parent(x)).Some? then [Parent(x)]
      else if x < Parent(x) then Resolution(u, x) + Resolution(u, Sibling(x))
      else Resolution(u, Sibling(x)) + Resolution(u, x)
  {
    var q := Parent(x);
    ParentChild(x);
    UnderParent(x, q);
    UnderTrans(b, x, q);
    SiblingApart(b, x);
    ResolutionFrame(t, u, Sibling(x));
    NodesStep(t, x);
    FilteredChain(t, q);
    Span(q);
    UnderNotAbove(q, q, FilteredFrom(t, q));
    forall y: nat | Under(q, y) && y != q && At(u, y).Some? ensures y in Nodes(FilteredFrom(t, q)) {
      UnderParent(x, y);
      UnderNested(q, y);
    }
    assert Nodes(FilteredFrom(t, q)) == Nodes(FilteredFrom(t, x)) || Nodes(FilteredFrom(t, x))[0] == q;
  }

  /** Every entry is ready to be linked from the one below, and nothing non-blank is above the last. */
  ghost predicate AllReady(u: Tree, path: seq<PathEntry>, d: nat)
    requires Valid(u)
  {
    && (forall i | 0 <= i < |path| :: LinkReady(u, path[i].node, Below(path, d, i)))
    && Below(path, d, |path|) < |u| && CalculateParentHash(u, Below(path, d, |path|)).0 == NoBytes
  }

  lemma {:induction false} BelowNext(path: seq<PathEntry>, d: nat, i: nat)
    requires 0 < i <= |path|
    ensures Below(path, d, i) == Below(path[1..], path[0].node, i - 1)
    ensures i < |path| ==> path[i] == path[1..][i - 1]
  {
  }

  lemma {:induction false} ReadyFirst(u: Tree, path: seq<PathEntry>, d: nat)
    requires Valid(u) && path != [] && LinkReady(u, path[0].node, d) && AllReady(u, path[1..], path[0].node)
    ensures AllReady(u, path, d)
  {
    var rest, q := path[1..], path[0].node;
    forall i | 0 <= i < |path| ensures LinkReady(u, path[i].node, Below(path, d, i)) {
      if i > 0 {
        var j := i - 1;
        BelowNext(path, d, i);
        assert LinkReady(u, rest[j].node, Below(rest, q, j));
      }
    }
    BelowNext(path, d, |path|);
  }

  /** `d`, the only thing in `x`'s resolution, sees from `x` up what `x` sees. */
  ghost predicate Sole(u: Tree, x: nat, d: nat) {
    && Full(|u|) && x < |u| && d < |u| && Under(d, x) && Resolution(u, x) == [d] && At(u, d).Some?
    && FirstNonBlankAncestor(u, d) == FirstNonBlankAncestor(u, x) && (d == x || At(u, x).None?)
  }

  lemma {:induction false} SoleNext(u: Tree, x: nat, d: nat)
    requires Valid(u) && Sole(u, x, d) && x != Root(|u|) && Parent(x) < |u|
    ensures At(u, Parent(x)).Some? ==> LinkReady(u, Parent(x), d)
    ensures At(u, Parent(x)).None? && Resolution(u, Parent(x)) == [d] ==> Sole(u, Parent(x), d)
    ensures At(u, Parent(x)).Some? && Unmerged(u, Parent(x)) == [] ==> Sole(u, Parent(x), Parent(x))
  {
    var q := Parent(x);
    OwnSide(x, d);
    UnderParent(x, q);
    UnderTrans(d, x, q);
    Span(q);
    AncestorAbove(u, x);
    AncestorAbove(u, d);
    ParentChild(x);
    if d == Root(|u|) {
      RootTop(x, |u|);
    }
  }

  lemma {:induction false} SoleTop(u: Tree, x: nat, d: nat)
    requires Valid(u) && Sole(u, x, d) && x == Root(|u|)
    ensures CalculateParentHash(u, d).0 == NoBytes
  {
  }

  lemma {:induction false} PathReady(t: Tree, u: Tree, b: nat, x: nat, d: nat)
    requires PathAbove(t, u, b, x) && Sole(u, x, d)
    ensures AllReady(u, FilteredFrom(t, x), d)
    decreases Level(Root(|t|)) - Level(x)
  {
    if x == Root(|t|) {
      SoleTop(u, x, d);
    } else {
      ParentInTree(x, |t|);
      var q := Parent(x);
      PathAboveNext(t, u, b, x);
      SoleNext(u, x, d);
      if At(u, q).None? {
        assert Resolution(u, q) == [d];
        PathReady(t, u, b, q, d);
      } else {
        PathReady(t, u, b, q, q);
        ReadyFirst(u, FilteredFrom(t, x), d);
      }
    }
  }

  lemma {:induction false} OwnSide(x: nat, d: nat)
    requires Under(d, x)
    ensures OwnChild(Parent(x), d) == x && d != Parent(x)
  {
    ParentChild(x);
    Children(Parent(x));
    Span(Parent(x));
  }

  lemma {:induction false} ReadyLinks(u: Tree, p: nat, d: nat)
    requires Valid(u) && LinkReady(u, p, d) && p < |u| && Hashed(u, d) && Unmerged(u, p) == []
    ensures ValidLink(u, d, p)
  {
    assert Without([d], d) == [];
  }

  /** The written path: the sender's leaf and the path's nodes, each hashed. */
  ghost predicate PathHashed(t: Tree, u: Tree, s: nat) {
    && PathReplaced(t, u, s)
    && Hashed(u, 2 * s) && (forall e | e in FilteredPath(t, s) :: e.node < |u| && Hashed(u, e.node))
  }

  lemma {:induction false} PathIsReady(t: Tree, u: Tree, s: nat)
    requires TreeOk(t) && PathReplaced(t, u, s)
    ensures AllReady(u, FilteredPath(t, s), 2 * s)
  {
    var x, path := 2 * s, FilteredPath(t, s);
    Span(x);
    FilteredChain(t, x);
    ChainAbove(x, path);
    forall y: nat | !Under(x, y) ensures At(t, y) == At(u, y) {
      forall i | 0 <= i < |path| ensures path[i].node != y { assert path[i] in path; }
    }
    forall y: nat | Under(x, y) && y != x && At(u, y).Some? ensures y in Nodes(path) {
      if y !in Nodes(path) {
        assert At(t, y) == At(u, y);
        NonBlankOnPath(t, x, y);
      }
    }
    forall y: nat | y in Nodes(path) ensures At(u, y).Some? && Unmerged(u, y) == [] {
      PathNodeOwned(t, u, s, y);
    }
    PathReady(t, u, x, x, x);
  }

  /** Each node of the path is linked from the one below it. */
  lemma {:induction false} PathLink(t: Tree, u: Tree, s: nat, i: nat)
    requires PathHashed(t, u, s) && AllReady(u, FilteredPath(t, s), 2 * s) && i < |FilteredPath(t, s)|
    ensures ValidLink(u, Below(FilteredPath(t, s), 2 * s, i), FilteredPath(t, s)[i].node)
  {
    hide FilteredFrom, CalculateParentHash, ValidLink;
    var path := FilteredPath(t, s);
    var d, p := Below(path, 2 * s, i), path[i].node;
    if i > 0 { assert path[i - 1] in path; }
    assert path[i] in path && Nodes(path)[i] == p;
    assert ListsNobody(u, p);
    ReadyLinks(u, p, d);
  }

  lemma {:induction false} OldLinkKept(t: Tree, u: Tree, s: nat, p: nat)
    requires TreeOk(t) && HashesLinked(t) && PathReplaced(t, u, s)
    requires p % 2 == 1 && At(u, p).Some? && p !in Nodes(FilteredPath(t, s))
    ensures HasLink(u, p)
  {
    var path := FilteredPath(t, s);
    assert At(t, p) == At(u, p);
    if Under(2 * s, p) {
      NonBlankOnPath(t, 2 * s, p);
      assert false;
    }
    FilteredChain(t, 2 * s);
    ChainAbove(2 * s, path);
    forall y: nat | Under(y, p) ensures At(t, y) == At(u, y) {
      if Under(2 * s, y) { UnderTrans(2 * s, y, p); }
      Span(2 * s);
      forall i | 0 <= i < |path| ensures path[i].node != y { assert path[i] in path; }
    }
    HasLinkFrame(t, u, p);
  }

  /** A path whose nodes and leaf carry the right hashes keeps every parent linked. */
  lemma {:induction false} PathKeepsHashes(t: Tree, u: Tree, s: nat)
    requires TreeOk(t) && HashesLinked(t) && PathHashed(t, u, s)
    ensures HashesLinked(u)
  {
    hide FilteredFrom, Hashed;
    var path := FilteredPath(t, s);
    PathIsReady(t, u, s);
    forall p: nat | p % 2 == 1 && At(u, p).Some? ensures HasLink(u, p) {
      if p in Nodes(path) {
        var j :| 0 <= j < |path| && Nodes(path)[j] == p;
        PathLink(t, u, s, j);
        assert ValidLink(u, Below(path, 2 * s, j), p);
      } else {
        OldLinkKept(t, u, s, p);
      }
    }
  }

  /** Committing with a path keeps every parent linked. */
  lemma {:induction false} NewTreeKeepsHashes(
      t: Tree, s: nat, gc: GroupContext, signKey: Secret, seed: Secret, patch: LeafPatch)
    requires TreeOk(t) && HashesLinked(t) && HasLeaf(t, s)
    ensures HashesLinked(NewTree(t, s, gc, signKey, seed, patch))
  {
    var u := NewTree(t, s, gc, signKey, seed, patch);
    NewTreeWritten(t, s, gc, signKey, seed, patch);
    NewTreeHashed(t, s, gc, signKey, seed, patch);
    PathKeepsHashes(t, u, s);
  }

  // ---- a path as a receiver writes it ----

  lemma {:induction false} WritePathHashed(t: Tree, path: seq<PathEntry>, keys: seq<PublicKey>, x: nat)
    requires Valid(t) && Chain(x, path) && |keys| == |path|
    requires forall e | e in path :: e.node < |t| && e.node % 2 == 1
    ensures forall e | e in path ::
      Hashed(WritePath(t, path, keys), e.node) && ListsNobody(WritePath(t, path, keys), e.node)
    decreases |path|
  {
    hide Lo, Hi, Level, CalculateParentHash;
    if path != [] {
      var n, rest := path[0].node, path[1..];
      var v, w := WritePath(t, rest, keys[1..]), WritePath(t, path, keys);
      WritePathHashed(t, rest, keys[1..], n);
      forall y: nat | y != n ensures At(v, y) == At(w, y) {}
      Span(n);
      ParentHashFrame(v, w, n);
      assert Hashed(w, n);
      ChainAbove(n, rest);
      forall e | e in path ensures Hashed(w, e.node) && ListsNobody(w, e.node) {
        if e != path[0] {
          assert e in rest;
          HashedFrame(v, w, e.node, n);
        }
      }
    }
  }

  /** Whatever path `applyUpdatePath` accepts, its nodes list nobody and carry the
      hashes of their places, and the leaf carries its own. */
  lemma {:induction false} AcceptedPath(t: Tree, s: nat, path: UpdatePath, external: bool)
    requires Valid(t) && HasLeaf(t, s) && ApplyUpdatePath(t, s, path, external).Ok?
    ensures var u := ApplyUpdatePath(t, s, path, external).value;
      PathHashed(t, u, s) && LeafAt(u, s) == Some(path.leaf)
  {
    hide FilteredFrom, CalculateParentHash, Level, Lo, Hi, PathKeyError, WritePath;
    var entries, keys := FilteredPath(t, s), PathKeys(path.nodes);
    var u := ApplyUpdatePath(t, s, path, external).value;
    var base := t[2 * s := Some(Leaf(path.leaf))];
    FilteredChain(t, 2 * s);
    ChainAbove(2 * s, entries);
    Span(2 * s);
    UnderNotAbove(2 * s, 2 * s, entries);
    WritePathHashed(base, entries, keys, 2 * s);
    forall y: nat | y !in Nodes(entries) ensures At(u, y) == At(base, y) { WritePathFrame(base, entries, keys, y); }
    SamePathAfter(t, u, s);
    forall n | n in Nodes(entries) ensures ListsNobody(u, n) {
      var i :| 0 <= i < |entries| && entries[i].node == n;
      assert entries[i] in entries;
    }
  }
}

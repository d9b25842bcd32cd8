/** A path keeps every rule of the tree: its shape, its parent hashes, and the
    pairwise rules of its leaves. A sender's own path does so from a fresh seed,
    anyone's path once the receiver's checks have passed. */
module PathRules {
  import opened Options
  import opened Terms
  import opened TreeMath
  import opened RatchetTree
  import opened ParentHashes
  import opened UpdatePaths
  import opened LeafValidation
  import opened UnmergedLeaves
  import opened KeyOwnership
  import opened ParentHashKept
  import opened Proposals
  import opened Membership

  /** The pairwise rules among all nodes but `n`. */
  ghost predicate OthersOk(t: Tree, n: nat) {
    && (forall x: nat, y: nat | x < y && x != n && y != n && At(t, x).Some? && At(t, y).Some? ::
          KeyOf(At(t, x).value) != KeyOf(At(t, y).value))
    && (forall x: nat, y: nat | x != y && x != n && y != n && NodeLeaf(t, x).Some? && NodeLeaf(t, y).Some? ::
          CompatibleLeaves(NodeLeaf(t, x).value, NodeLeaf(t, y).value))
  }

  predicate CompatibleLeaves(a: LeafNode, b: LeafNode) {
    a.sigKey != b.sigKey && a.credential.ctype in b.capabilities.credentials
  }

  /** `leaf` could stand at `n` next to every other leaf, as far as signature keys and credentials go. */
  ghost predicate Fits(t: Tree, n: nat, leaf: LeafNode) {
    forall x: nat | x != n && NodeLeaf(t, x).Some? ::
      CompatibleLeaves(NodeLeaf(t, x).value, leaf) && CompatibleLeaves(leaf, NodeLeaf(t, x).value)
  }

  lemma {:induction false} OthersFromAll(t: Tree, n: nat)
    requires LeavesOk(t)
    ensures OthersOk(t, n)
  {
    forall x: nat, y: nat | x != y && x != n && y != n && NodeLeaf(t, x).Some? && NodeLeaf(t, y).Some?
      ensures CompatibleLeaves(NodeLeaf(t, x).value, NodeLeaf(t, y).value)
    {
      if x < y {
        assert NodeLeaf(t, x).value.sigKey != NodeLeaf(t, y).value.sigKey;
      } else {
        assert NodeLeaf(t, y).value.sigKey != NodeLeaf(t, x).value.sigKey;
      }
    }
  }

  /** A leaf that keeps what the old one said fits where the old one was. */
  lemma {:induction false} SameLeafFits(t: Tree, l: nat, leaf: LeafNode)
    requires LeavesOk(t) && LeafAt(t, l).Some?
    requires var before := LeafAt(t, l).value;
      leaf.sigKey == before.sigKey && leaf.credential == before.credential && leaf.capabilities == before.capabilities
    ensures Fits(t, 2 * l, leaf)
  {
    var prior := NodeLeaf(t, 2 * l).value;
    forall x: nat | x != 2 * l && NodeLeaf(t, x).Some?
      ensures CompatibleLeaves(NodeLeaf(t, x).value, leaf) && CompatibleLeaves(leaf, NodeLeaf(t, x).value)
    {
      if x < 2 * l {
        assert NodeLeaf(t, x).value.sigKey != prior.sigKey;
      } else {
        assert prior.sigKey != NodeLeaf(t, x).value.sigKey;
      }
    }
  }

  lemma {:induction false} CheckedLeafFits(
      env: Env, leaf: LeafNode, gc: GroupContext, t: Tree, l: nat, prior: Option<Credential>)
    requires CommonOk(env, leaf, gc, t, Some(l), prior)
    ensures Fits(t, 2 * l, leaf)
  {
  }

  // ---- the tree a path leaves ----

  ghost predicate Written(t: Tree, s: nat, y: nat)
    requires Valid(t) && HasLeaf(t, s)
  {
    y == 2 * s || y in Nodes(FilteredPath(t, s))
  }

  /** No key the path brought is at any other node. */
  ghost predicate KeysNew(t: Tree, u: Tree, s: nat)
    requires Valid(t) && HasLeaf(t, s)
  {
    forall x: nat, y: nat | Written(t, s, x) && x != y && At(u, x).Some? && At(u, y).Some? ::
      KeyOf(At(u, x).value) != KeyOf(At(u, y).value)
  }

  lemma {:induction false} PathKeysStayDistinct(t: Tree, u: Tree, s: nat)
    requires OthersOk(t, 2 * s) && PathReplaced(t, u, s) && KeysNew(t, u, s)
    ensures KeysDistinct(u)
  {
    forall x: nat, y: nat | x < y && At(u, x).Some? && At(u, y).Some?
      ensures KeyOf(At(u, x).value) != KeyOf(At(u, y).value)
    {
      if !Written(t, s, x) && !Written(t, s, y) {
        assert At(u, x) == At(t, x) && At(u, y) == At(t, y);
      }
    }
  }

  /** Other leaves are untouched by a path. */
  lemma {:induction false} OtherLeaf(t: Tree, u: Tree, s: nat, x: nat)
    requires PathReplaced(t, u, s) && x != 2 * s
    ensures NodeLeaf(u, x).Some? ==> NodeLeaf(u, x) == NodeLeaf(t, x)
  {
    if x in Nodes(FilteredPath(t, s)) { assert ListsNobody(u, x); } else { assert At(u, x) == At(t, x); }
  }

  lemma {:induction false} LeavesAfterPath(t: Tree, u: Tree, s: nat)
    requires OthersOk(t, 2 * s) && PathReplaced(t, u, s) && KeysNew(t, u, s)
    requires Fits(t, 2 * s, LeafAt(u, s).value)
    ensures LeavesOk(u)
  {
    PathKeysStayDistinct(t, u, s);
    forall x: nat, y: nat | x != y && NodeLeaf(u, x).Some? && NodeLeaf(u, y).Some?
      ensures CompatibleLeaves(NodeLeaf(u, x).value, NodeLeaf(u, y).value)
    {
      if x != 2 * s { OtherLeaf(t, u, s, x); }
      if y != 2 * s { OtherLeaf(t, u, s, y); }
      CompatibleAfterPath(t, u, s, x, y);
    }
  }

  lemma {:induction false} CompatibleAfterPath(t: Tree, u: Tree, s: nat, x: nat, y: nat)
    requires OthersOk(t, 2 * s) && LeafAt(u, s).Some? && Fits(t, 2 * s, LeafAt(u, s).value)
    requires x != y && NodeLeaf(u, x).Some? && NodeLeaf(u, y).Some?
    requires x != 2 * s ==> NodeLeaf(u, x) == NodeLeaf(t, x)
    requires y != 2 * s ==> NodeLeaf(u, y) == NodeLeaf(t, y)
    ensures CompatibleLeaves(NodeLeaf(u, x).value, NodeLeaf(u, y).value)
  {
  }

  /** The whole: a tree with good shape, linked hashes and compatible other
      leaves, after a hashed path of new keys by a leaf that fits, is good. */
  lemma {:induction false} PathKeepsRules(t: Tree, u: Tree, s: nat)
    requires TreeOk(t) && HashesLinked(t) && OthersOk(t, 2 * s) && PathHashed(t, u, s)
    requires KeysNew(t, u, s) && Fits(t, 2 * s, LeafAt(u, s).value)
    ensures GoodTree(u)
  {
    PathKeepsTree(t, u, s);
    PathKeepsHashes(t, u, s);
    LeavesAfterPath(t, u, s);
  }

  // ---- the sender's own path ----

  /** Which key of the seed a written node carries. */
  lemma {:induction false} WrittenKey(t: Tree, u: Tree, s: nat, seed: Secret, y: nat) returns (i: nat)
    requires PathWritten(t, u, s, seed) && Written(t, s, y)
    ensures At(u, y).Some? && KeyOf(At(u, y).value) == PathKey(seed, i)
    ensures i <= |FilteredPath(t, s)| && y == Below(FilteredPath(t, s), 2 * s, i)
  {
    if y == 2 * s {
      i := 0;
    } else {
      var j :| 0 <= j < |FilteredPath(t, s)| && Nodes(FilteredPath(t, s))[j] == y;
      assert FreshNode(u, FilteredPath(t, s)[j].node, PathKey(seed, j + 1));
      i := j + 1;
    }
  }

  lemma {:induction false} WrittenKeysDiffer(t: Tree, u: Tree, s: nat, seed: Secret, x: nat, y: nat)
    requires PathWritten(t, u, s, seed) && Fresh(seed, t) && Written(t, s, x) && x != y && At(u, y).Some?
    ensures KeyOf(At(u, x).value) != KeyOf(At(u, y).value)
  {
    var i := WrittenKey(t, u, s, seed, x);
    if Written(t, s, y) {
      var j := WrittenKey(t, u, s, seed, y);
      DifferentPlaces(FilteredPath(t, s), 2 * s, seed, i, j);
    } else {
      assert At(u, y) == At(t, y);
      FreshAt(seed, t, y, i);
    }
  }

  lemma {:induction false} DifferentPlaces(path: seq<PathEntry>, d: nat, seed: Secret, i: nat, j: nat)
    requires i <= |path| && j <= |path| && Below(path, d, i) != Below(path, d, j)
    ensures PathKey(seed, i) != PathKey(seed, j)
  {
    PathKeysDistinct(seed, i, j);
  }

  lemma {:induction false} FreshAt(seed: Secret, t: Tree, y: nat, i: nat)
    requires Fresh(seed, t) && At(t, y).Some?
    ensures KeyOf(At(t, y).value) != PathKey(seed, i)
  {
  }

  lemma {:induction false} NewTreeKeepsRules(
      t: Tree, s: nat, gc: GroupContext, signKey: Secret, seed: Secret, patch: LeafPatch)
    requires TreeOk(t) && HashesLinked(t) && OthersOk(t, 2 * s) && HasLeaf(t, s) && Fresh(seed, t)
    requires Fits(t, 2 * s, NewSenderLeaf(t, s, gc, signKey, seed, patch))
    ensures GoodTree(NewTree(t, s, gc, signKey, seed, patch))
  {
    hide TreeOk, HashesLinked, OthersOk, Fits, Fresh, GoodTree, Hashed, NewSenderLeaf, PathTree;
    assert Valid(t) by { TreeOkValid(t); }
    var u := NewTree(t, s, gc, signKey, seed, patch);
    NewTreeWritten(t, s, gc, signKey, seed, patch);
    NewTreeHashed(t, s, gc, signKey, seed, patch);
    forall x: nat, y: nat | Written(t, s, x) && x != y && At(u, x).Some? && At(u, y).Some?
      ensures KeyOf(At(u, x).value) != KeyOf(At(u, y).value)
    {
      WrittenKeysDiffer(t, u, s, seed, x, y);
    }
    PathKeepsRules(t, u, s);
  }

  // ---- any path a receiver accepts ----

  /** The leaf's key is at no other node. */
  ghost predicate LeafKeyNew(t: Tree, n: nat, leaf: LeafNode) {
    forall y: nat | y != n && At(t, y).Some? :: KeyOf(At(t, y).value) != leaf.hpkeKey
  }

  lemma {:induction false} CheckedLeafKey(
      env: Env, leaf: LeafNode, gc: GroupContext, t: Tree, l: nat, prior: Option<Credential>)
    requires Sound(t) && CommonOk(env, leaf, gc, t, Some(l), prior)
    ensures LeafKeyNew(t, 2 * l, leaf)
  {
    forall y: nat | y != 2 * l && At(t, y).Some? ensures KeyOf(At(t, y).value) != leaf.hpkeKey {
      if At(t, y).value.Leaf? {
        assert NodeLeaf(t, y).Some?;
      } else {
        assert NodeParent(t, y).Some?;
      }
    }
  }

  lemma {:induction false} WritePathKey(t: Tree, path: seq<PathEntry>, keys: seq<PublicKey>, x: nat, i: nat)
    requires Valid(t) && Chain(x, path) && |keys| == |path| && i < |path|
    requires forall e | e in path :: e.node < |t| && e.node % 2 == 1
    ensures At(WritePath(t, path, keys), path[i].node).Some?
    ensures KeyOf(At(WritePath(t, path, keys), path[i].node).value) == keys[i]
    decreases |path|
  {
    hide Lo, Hi, Level, CalculateParentHash;
    if i > 0 {
      WritePathKey(t, path[1..], keys[1..], path[0].node, i - 1);
      NotOnRest(x, path);
      assert Nodes(path[1..])[i - 1] == path[i].node;
    }
  }

  /** The node a path's entry writes carries the key the path brings for it. */
  lemma {:induction false} AcceptedKeyAt(t: Tree, s: nat, path: UpdatePath, external: bool, i: nat)
    requires Valid(t) && HasLeaf(t, s) && ApplyUpdatePath(t, s, path, external).Ok?
    ensures |path.nodes| == |FilteredPath(t, s)|
    ensures i < |path.nodes| ==>
      var u, n := ApplyUpdatePath(t, s, path, external).value, FilteredPath(t, s)[i].node;
      At(u, n).Some? && KeyOf(At(u, n).value) == path.nodes[i].key
  {
    hide FilteredFrom, CalculateParentHash, Level, Lo, Hi, PathKeyError, WritePath;
    FilteredChain(t, 2 * s);
    ChainAbove(2 * s, FilteredPath(t, s));
    if i < |path.nodes| {
      WritePathKey(t[2 * s := Some(Leaf(path.leaf))], FilteredPath(t, s), PathKeys(path.nodes), 2 * s, i);
    }
  }

  /** What the checks on the keys a path brings say. */
  lemma {:induction false} CheckedPathKeys(t: Tree, leafKey: PublicKey, keys: seq<PublicKey>)
    requires PathKeyError(t, leafKey, keys).None?
    ensures forall i | 0 <= i < |keys| :: keys[i] != leafKey
    ensures forall i, j | 0 <= i < j < |keys| :: keys[i] != keys[j]
    ensures forall i, y: nat | 0 <= i < |keys| && At(t, y).Some? :: KeyOf(At(t, y).value) != keys[i]
  {
    forall i, y: nat | 0 <= i < |keys| && At(t, y).Some? ensures KeyOf(At(t, y).value) != keys[i] {
      assert !KeyInTree(t, keys[i]);
      assert At(t, y) == t[y];
    }
  }

  lemma {:induction false} AcceptedKeysNew(t: Tree, s: nat, path: UpdatePath, external: bool)
    requires Valid(t) && HasLeaf(t, s) && ApplyUpdatePath(t, s, path, external).Ok?
    requires LeafKeyNew(t, 2 * s, path.leaf)
    ensures KeysNew(t, ApplyUpdatePath(t, s, path, external).value, s)
  {
    var u := ApplyUpdatePath(t, s, path, external).value;
    forall x: nat, y: nat | Written(t, s, x) && x != y && At(u, x).Some? && At(u, y).Some?
      ensures KeyOf(At(u, x).value) != KeyOf(At(u, y).value)
    {
      if x != 2 * s {
        AcceptedKeyUnlike(t, s, path, external, x, y);
      } else if y in Nodes(FilteredPath(t, s)) {
        AcceptedKeyUnlike(t, s, path, external, y, x);
      } else {
        AcceptedElsewhere(t, s, path, external, y);
      }
    }
  }

  lemma {:induction false} AcceptedElsewhere(t: Tree, s: nat, path: UpdatePath, external: bool, y: nat)
    requires Valid(t) && HasLeaf(t, s) && ApplyUpdatePath(t, s, path, external).Ok?
    ensures var u := ApplyUpdatePath(t, s, path, external).value;
      At(u, 2 * s) == Some(Leaf(path.leaf)) && (y != 2 * s && y !in Nodes(FilteredPath(t, s)) ==> At(u, y) == At(t, y))
  {
    hide ApplyUpdatePath, FilteredFrom, Hashed;
    AcceptedPath(t, s, path, external);
  }

  lemma {:induction false} AcceptedKeyUnlike(t: Tree, s: nat, path: UpdatePath, external: bool, x: nat, y: nat)
    requires Valid(t) && HasLeaf(t, s) && ApplyUpdatePath(t, s, path, external).Ok?
    requires x in Nodes(FilteredPath(t, s)) && x != y
    requires var u := ApplyUpdatePath(t, s, path, external).value; At(u, x).Some? && At(u, y).Some?
    ensures var u := ApplyUpdatePath(t, s, path, external).value; KeyOf(At(u, x).value) != KeyOf(At(u, y).value)
  {
    hide FilteredFrom;
    var entries, keys := FilteredPath(t, s), PathKeys(path.nodes);
    assert PathKeyError(t, path.leaf.hpkeKey, keys).None?;
    CheckedPathKeys(t, path.leaf.hpkeKey, keys);
    hide ApplyUpdatePath, PathKeyError;
    var i :| 0 <= i < |entries| && Nodes(entries)[i] == x;
    AcceptedKeyAt(t, s, path, external, i);
    AcceptedElsewhere(t, s, path, external, y);
    if y in Nodes(entries) {
      var j :| 0 <= j < |entries| && Nodes(entries)[j] == y;
      AcceptedKeyAt(t, s, path, external, j);
      assert i < j || j < i;
    }
  }

  /** Any path that passes every check of a receiver, whoever made it, leaves a good tree. */
  lemma {:induction false} AcceptedKeepsRules(t: Tree, s: nat, path: UpdatePath, external: bool)
    requires TreeOk(t) && HashesLinked(t) && OthersOk(t, 2 * s) && HasLeaf(t, s)
    requires ApplyUpdatePath(t, s, path, external).Ok?
    requires LeafKeyNew(t, 2 * s, path.leaf) && Fits(t, 2 * s, path.leaf)
    ensures GoodTree(ApplyUpdatePath(t, s, path, external).value)
  {
    hide ApplyUpdatePath, TreeOk, HashesLinked, OthersOk, Fits, GoodTree, Hashed, LeafKeyNew, KeysNew;
    assert Valid(t) by { TreeOkValid(t); }
    AcceptedPath(t, s, path, external);
    AcceptedKeysNew(t, s, path, external);
    PathKeepsRules(t, ApplyUpdatePath(t, s, path, external).value, s);
  }

  lemma {:induction false} TreeOkValid(t: Tree)
    requires TreeOk(t)
    ensures Valid(t)
  {
  }
}

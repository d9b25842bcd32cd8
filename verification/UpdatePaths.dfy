/** Building an UpdatePath and applying one (src/update-path.ts). */
module UpdatePaths {
  import opened Options
  import opened Terms
  import opened TreeMath
  import opened RatchetTree
  import opened ParentHashes

  // ---- the chain of path secrets ----

  /** The secret `i` steps above `seed`. */
  function PathSecretAt(seed: Secret, i: nat): Secret {
    if i == 0 then seed else Derived(PathSecretAt(seed, i - 1), PathLabel)
  }

  /** The private key a path secret gives its node. */
  function NodeSecret(pathSecret: Secret): Secret {
    Derived(pathSecret, NodeLabel)
  }

  function PathKey(seed: Secret, i: nat): PublicKey {
    Pub(NodeSecret(PathSecretAt(seed, i)))
  }

  lemma {:induction false} PathSecretShift(seed: Secret, i: nat)
    ensures PathSecretAt(Derived(seed, PathLabel), i) == PathSecretAt(seed, i + 1)
  {
    if i > 0 { PathSecretShift(seed, i - 1); }
  }

  function Depth(s: Secret): nat {
    match s
    case Derived(f, _) => 1 + Depth(f)
    case _ => 0
  }

  lemma {:induction false} PathSecretDepth(seed: Secret, i: nat)
    ensures Depth(PathSecretAt(seed, i)) == Depth(seed) + i
  {
    if i > 0 { PathSecretDepth(seed, i - 1); }
  }

  /** The keys along one path are pairwise distinct. */
  lemma {:induction false} PathKeysDistinct(seed: Secret, i: nat, j: nat)
    requires i != j
    ensures PathKey(seed, i) != PathKey(seed, j)
  {
    PathSecretDepth(seed, i);
    PathSecretDepth(seed, j);
  }

  /** `seed` is fresh for `t`: no node key of `t` lies on the path it would generate. */
  ghost predicate Fresh(seed: Secret, t: Tree) {
    forall x: nat, i: nat {:trigger At(t, x), PathKey(seed, i)} ::
      At(t, x).Some? ==> KeyOf(At(t, x).value) != PathKey(seed, i)
  }

  // ---- the sender's side ----

  datatype PathSecret = PathSecret(node: nat, secret: Secret, sendTo: seq<nat>)

  datatype LeafPatch = LeafPatch(
    credential: Option<Credential>,
    signature: Option<Secret>,
    capabilities: Option<Capabilities>,
    extensions: Option<seq<Extension>>)

  const NoPatch := LeafPatch(None, None, None, None)

  function OrElse<T>(o: Option<T>, d: T): T {
    if o.Some? then o.value else d
  }

  function FilterNew(resolution: seq<nat>, exclude: seq<nat>): (r: seq<nat>)
    ensures forall n :: n in r <==> n in resolution && n !in exclude
    ensures |r| <= |resolution|
  {
    if resolution == [] then []
    else (if resolution[0] in exclude then [] else [resolution[0]]) + FilterNew(resolution[1..], exclude)
  }

  /** The path secrets above the leaf's, leaf to root; `secret` is the one below the first. */
  function SecretsAbove(path: seq<PathEntry>, secret: Secret, exclude: seq<nat>): (r: seq<PathSecret>)
    ensures |r| == |path|
  {
    if path == [] then [] else
    var next := Derived(secret, PathLabel);
    [PathSecret(path[0].node, next, FilterNew(path[0].resolution, exclude))]
      + SecretsAbove(path[1..], next, exclude)
  }

  lemma {:induction false} SecretsAboveAt(path: seq<PathEntry>, secret: Secret, exclude: seq<nat>, i: nat)
    requires i < |path|
    ensures SecretsAbove(path, secret, exclude)[i]
      == PathSecret(path[i].node, PathSecretAt(secret, i + 1), FilterNew(path[i].resolution, exclude))
  {
    if i > 0 {
      SecretsAboveAt(path[1..], Derived(secret, PathLabel), exclude, i - 1);
      PathSecretShift(secret, i);
    }
  }

  /** applyInitialTreeUpdate: a new key at each node of the path. */
  function WriteKeys(t: Tree, path: seq<PathEntry>, secret: Secret): Tree
    requires forall e | e in path :: e.node < |t|
    decreases |path|
  {
    if path == [] then t else
    var next := Derived(secret, PathLabel);
    WriteKeys(
      t[path[0].node := Some(Inner(ParentNode(Pub(NodeSecret(next)), NoBytes, [])))],
      path[1..], next)
  }

  /** insertParentHashes, root first. */
  function WriteParentHashes(t: Tree, path: seq<PathEntry>): Tree
    requires Valid(t) && (forall e | e in path :: e.node < |t| && e.node % 2 == 1 && t[e.node].Some?)
    ensures var u := WriteParentHashes(t, path);
      Valid(u) && |u| == |t| && (forall x | 0 <= x < |t| :: u[x].Some? == t[x].Some?)
    decreases |path|
  {
    if path == [] then t else
    var u := WriteParentHashes(t, path[1..]);
    var n := path[0].node;
    u[n := Some(Inner(u[n].value.parent.(parentHash := CalculateParentHash(u, n).0)))]
  }

  lemma {:induction false} WriteKeysValid(t: Tree, path: seq<PathEntry>, secret: Secret)
    requires Valid(t) && (forall e | e in path :: e.node < |t| && e.node % 2 == 1)
    ensures var u := WriteKeys(t, path, secret);
      Valid(u) && |u| == |t| && (forall x | 0 <= x < |t| && t[x].Some? :: u[x].Some?)
      && forall e | e in path :: u[e.node].Some?
    decreases |path|
  {
    if path != [] {
      var next := Derived(secret, PathLabel);
      var v := t[path[0].node := Some(Inner(ParentNode(Pub(NodeSecret(next)), NoBytes, [])))];
      WriteKeysValid(v, path[1..], next);
      forall e | e in path ensures WriteKeys(t, path, secret)[e.node].Some? {
        if e != path[0] { assert e in path[1..]; }
      }
    }
  }

  /** The tree with the path's keys and parent hashes but the sender's old leaf. */
  function PathTree(t: Tree, s: nat, seed: Secret): (u: Tree)
    requires Valid(t) && 2 * s < |t|
    ensures Valid(u) && |u| == |t|
  {
    FilteredChain(t, 2 * s);
    ChainAbove(2 * s, FilteredPath(t, s));
    WriteKeysValid(t, FilteredPath(t, s), seed);
    WriteParentHashes(WriteKeys(t, FilteredPath(t, s), seed), FilteredPath(t, s))
  }

  function NewLeaf(
      prior: LeafNode, key: PublicKey, parentHash: Digest, place: (nat, nat), signKey: Secret, patch: LeafPatch):
      LeafNode {
    LeafNode(
      key,
      if patch.signature.Some? then Pub(patch.signature.value) else prior.sigKey,
      OrElse(patch.credential, prior.credential),
      OrElse(patch.capabilities, prior.capabilities),
      OrElse(patch.extensions, prior.extensions),
      FromCommit(parentHash),
      LeafSignature(OrElse(patch.signature, signKey), Some(place)))
  }

  function SealAll(t: Tree, to: seq<nat>, context: GroupContext, secret: Secret): Result<seq<Ciphertext>> {
    if to == [] then Ok([]) else
    if At(t, to[0]).None? then Err(BlankRecipient) else
    var rest :- SealAll(t, to[1..], context, secret);
    Ok([Sealed(KeyOf(At(t, to[0]).value), context, secret)] + rest)
  }

  function SealPath(t: Tree, secrets: seq<PathSecret>, context: GroupContext): Result<seq<UpdatePathNode>> {
    if secrets == [] then Ok([]) else
    var sealed :- SealAll(t, secrets[0].sendTo, context, secrets[0].secret);
    var rest :- SealPath(t, secrets[1..], context);
    Ok([UpdatePathNode(Pub(NodeSecret(secrets[0].secret)), sealed)] + rest)
  }

  /** `secrets` runs leaf to root; `leafKey` is the committer's new private leaf key. */
  datatype Created = Created(tree: Tree, path: UpdatePath, secrets: seq<PathSecret>, leafKey: Secret, treeHash: Digest)

  function NextContext(gc: GroupContext, treeHash: Digest): GroupContext {
    gc.(treeHash := treeHash, epoch := gc.epoch + 1)
  }

  /** The sender's new leaf and the whole new tree. */
  function NewSenderLeaf(t: Tree, s: nat, gc: GroupContext, signKey: Secret, seed: Secret, patch: LeafPatch): LeafNode
    requires Valid(t) && HasLeaf(t, s)
  {
    var u := PathTree(t, s, seed);
    NewLeaf(
      LeafAt(t, s).value, PathKey(seed, 0), CalculateParentHash(u, 2 * s).0, (gc.groupId, s), signKey, patch)
  }

  function NewTree(t: Tree, s: nat, gc: GroupContext, signKey: Secret, seed: Secret, patch: LeafPatch): Tree
    requires Valid(t) && HasLeaf(t, s)
  {
    PathTree(t, s, seed)[2 * s := Some(Leaf(NewSenderLeaf(t, s, gc, signKey, seed, patch)))]
  }

  function CreateUpdatePath(
      t: Tree, s: nat, gc: GroupContext, signKey: Secret, seed: Secret, exclude: seq<nat>, patch: LeafPatch):
      Result<Created>
    requires Valid(t)
  {
    if !HasLeaf(t, s) then Err(NotLeaf) else
    var tree := NewTree(t, s, gc, signKey, seed, patch);
    var treeHash := TreeHash(tree, Root(|tree|));
    var secrets := SecretsAbove(FilteredPath(t, s), seed, exclude);
    var nodes :- SealPath(t, secrets, NextContext(gc, treeHash));
    Ok(Created(
      tree, UpdatePath(NewSenderLeaf(t, s, gc, signKey, seed, patch), nodes),
      if |secrets| > 0 then secrets else [PathSecret(2 * s, seed, [])],
      NodeSecret(seed), treeHash))
  }

  // ---- the receiver's side ----

  /** Root first: each node's parent hash reads the nodes already written above it. */
  function WritePath(t: Tree, path: seq<PathEntry>, keys: seq<PublicKey>): Tree
    requires Valid(t) && |keys| == |path|
    requires forall e | e in path :: e.node < |t| && e.node % 2 == 1
    ensures var u := WritePath(t, path, keys); Valid(u) && |u| == |t|
    decreases |path|
  {
    if path == [] then t else
    var u := WritePath(t, path[1..], keys[1..]);
    u[path[0].node := Some(Inner(ParentNode(keys[0], CalculateParentHash(u, path[0].node).0, [])))]
  }

  function PathKeys(nodes: seq<UpdatePathNode>): (r: seq<PublicKey>)
    ensures |r| == |nodes| && forall i | 0 <= i < |nodes| :: r[i] == nodes[i].key
  {
    seq(|nodes|, i requires 0 <= i < |nodes| => nodes[i].key)
  }

  predicate KeyInTree(t: Tree, k: PublicKey) {
    exists x | 0 <= x < |t| :: t[x].Some? && KeyOf(t[x].value) == k
  }

  /** The checks on the keys a path brings, in the order they are made. */
  function PathKeyError(t: Tree, leafKey: PublicKey, keys: seq<PublicKey>): Option<Error> {
    if exists i | 0 <= i < |keys| :: KeyInTree(t, keys[i]) then Some(PathKeyReused)
    else if exists i, j | 0 <= i < j < |keys| :: keys[i] == keys[j] then Some(PathKeyRepeated)
    else if leafKey in keys then Some(LeafKeyOnPath)
    else None
  }

  function SenderError(t: Tree, s: nat, leaf: LeafNode): Option<Error> {
    if !HasLeaf(t, s) then Some(NotLeaf)
    else if LeafAt(t, s).value.hpkeKey == leaf.hpkeKey then Some(LeafKeyReused)
    else None
  }

  function ReceiverTree(t: Tree, s: nat, leaf: LeafNode, keys: seq<PublicKey>): (u: Tree)
    requires Valid(t) && 2 * s < |t| && |keys| == |FilteredPath(t, s)|
    ensures Valid(u) && |u| == |t|
  {
    FilteredChain(t, 2 * s);
    ChainAbove(2 * s, FilteredPath(t, s));
    WritePath(t[2 * s := Some(Leaf(leaf))], FilteredPath(t, s), keys)
  }

  function ApplyUpdatePath(t: Tree, s: nat, path: UpdatePath, external: bool): Result<Tree>
    requires Valid(t)
  {
    var keys := PathKeys(path.nodes);
    var senderError := if external then None else SenderError(t, s, path.leaf);
    var keyError := PathKeyError(t, path.leaf.hpkeKey, keys);
    if senderError.Some? then Err(senderError.value)
    else if keyError.Some? then Err(keyError.value)
    else if 2 * s >= |t| || |keys| != |FilteredPath(t, s)| then Err(PathLength)
    else
      var u := ReceiverTree(t, s, path.leaf, keys);
      if FromCommit(CalculateParentHash(u, 2 * s).0) != path.leaf.source then Err(ParentHashMismatch) else Ok(u)
  }

  // ---- the two agree ----

  /** Node `n` as the sender first writes it: key, no parent hash, nothing unmerged. */
  function Keyed(key: PublicKey): Option<Node> {
    Some(Inner(ParentNode(key, NoBytes, [])))
  }

  predicate AllKeyed(t: Tree, path: seq<PathEntry>, keys: seq<PublicKey>)
    requires |keys| == |path|
  {
    forall i | 0 <= i < |path| :: At(t, path[i].node) == Keyed(keys[i])
  }

  function SecretKeys(seed: Secret, n: nat): (r: seq<PublicKey>)
    ensures |r| == n && forall i | 0 <= i < n :: r[i] == PathKey(seed, i + 1)
  {
    seq(n, i requires 0 <= i < n => PathKey(seed, i + 1))
  }

  lemma {:induction false} WriteKeysFrame(t: Tree, path: seq<PathEntry>, secret: Secret, y: nat)
    requires forall e | e in path :: e.node < |t|
    requires y !in Nodes(path)
    ensures |WriteKeys(t, path, secret)| == |t| && At(WriteKeys(t, path, secret), y) == At(t, y)
    decreases |path|
  {
    if path != [] {
      assert Nodes(path) == [path[0].node] + Nodes(path[1..]);
      var next := Derived(secret, PathLabel);
      WriteKeysFrame(t[path[0].node := Keyed(Pub(NodeSecret(next)))], path[1..], next, y);
    }
  }

  lemma {:induction false} WriteKeysKey(t: Tree, path: seq<PathEntry>, secret: Secret, x: nat, i: nat)
    requires Chain(x, path) && (forall e | e in path :: e.node < |t|) && i < |path|
    ensures At(WriteKeys(t, path, secret), path[i].node) == Keyed(PathKey(secret, i + 1))
    decreases |path|
  {
    hide Under, Level;
    var next := Derived(secret, PathLabel);
    var n, rest := path[0].node, path[1..];
    var v := t[n := Keyed(Pub(NodeSecret(next)))];
    if i == 0 {
      assert PathSecretAt(secret, 1) == Derived(PathSecretAt(secret, 0), PathLabel);
      NotOnRest(x, path);
      WriteKeysFrame(v, rest, next, n);
    } else {
      WriteKeysKey(v, rest, next, n, i - 1);
      PathSecretShift(secret, i);
    }
  }

  lemma {:induction false} NotOnRest(x: nat, path: seq<PathEntry>)
    requires Chain(x, path) && path != []
    ensures path[0].node !in Nodes(path[1..])
  {
    Span(path[0].node);
    UnderNotAbove(path[0].node, path[0].node, path[1..]);
  }

  /** After the keys are written, path nodes hold them and no other node changed. */
  lemma {:induction false} WriteKeysAt(t: Tree, path: seq<PathEntry>, secret: Secret, x: nat)
    requires Valid(t) && Chain(x, path) && (forall e | e in path :: e.node < |t|)
    ensures |WriteKeys(t, path, secret)| == |t|
    ensures AllKeyed(WriteKeys(t, path, secret), path, SecretKeys(secret, |path|))
    ensures forall y: nat | y !in Nodes(path) :: At(WriteKeys(t, path, secret), y) == At(t, y)
  {
    hide Under, Level;
    var u := WriteKeys(t, path, secret);
    forall y: nat | y !in Nodes(path) ensures At(u, y) == At(t, y) { WriteKeysFrame(t, path, secret, y); }
    forall i | 0 <= i < |path| ensures At(u, path[i].node) == Keyed(PathKey(secret, i + 1)) {
      WriteKeysKey(t, path, secret, x, i);
    }
    WriteKeysLength(t, path, secret);
  }

  lemma {:induction false} WriteKeysLength(t: Tree, path: seq<PathEntry>, secret: Secret)
    requires forall e | e in path :: e.node < |t|
    ensures |WriteKeys(t, path, secret)| == |t|
    decreases |path|
  {
    if path != [] {
      var next := Derived(secret, PathLabel);
      WriteKeysLength(t[path[0].node := Keyed(Pub(NodeSecret(next)))], path[1..], next);
    }
  }

  lemma {:induction false} UnderNotAbove(y: nat, n: nat, rest: seq<PathEntry>)
    requires Under(y, n) && Chain(n, rest)
    ensures y !in Nodes(rest)
  {
    ChainAbove(n, rest);
    UnderNested(y, n);
    Span(n);
    forall i | 0 <= i < |rest| ensures rest[i].node != y {
      assert rest[i] in rest;
    }
  }

  lemma {:induction false} WriteParentHashesFrame(t: Tree, path: seq<PathEntry>, y: nat)
    requires Valid(t) && (forall e | e in path :: e.node < |t| && e.node % 2 == 1 && t[e.node].Some?)
    requires y !in Nodes(path)
    ensures At(WriteParentHashes(t, path), y) == At(t, y)
    decreases |path|
  {
    hide CalculateParentHash;
    if path != [] {
      assert Nodes(path) == [path[0].node] + Nodes(path[1..]);
      WriteParentHashesFrame(t, path[1..], y);
    }
  }

  lemma {:induction false} WritePathFrame(t: Tree, path: seq<PathEntry>, keys: seq<PublicKey>, y: nat)
    requires Valid(t) && |keys| == |path|
    requires forall e | e in path :: e.node < |t| && e.node % 2 == 1
    requires y !in Nodes(path)
    ensures At(WritePath(t, path, keys), y) == At(t, y)
    decreases |path|
  {
    hide CalculateParentHash;
    if path != [] {
      assert Nodes(path) == [path[0].node] + Nodes(path[1..]);
      WritePathFrame(t, path[1..], keys[1..], y);
    }
  }

  lemma {:induction false} KeyedRest(k: Tree, path: seq<PathEntry>, keys: seq<PublicKey>)
    requires path != [] && |keys| == |path| && AllKeyed(k, path, keys)
    ensures AllKeyed(k, path[1..], keys[1..]) && At(k, path[0].node) == Keyed(keys[0])
  {
    forall i | 0 <= i < |path[1..]| ensures At(k, path[1..][i].node) == Keyed(keys[1..][i]) {
      assert path[1..][i] == path[i + 1] && keys[1..][i] == keys[i + 1];
    }
  }

  /** Writing the entries above `n` touches nothing under it. */
  lemma {:induction false} UntouchedBelow(
      k: Tree, r: Tree, rest: seq<PathEntry>, keys: seq<PublicKey>, n: nat, y: nat)
    requires Valid(k) && Valid(r) && |k| == |r| && |keys| == |rest| && Chain(n, rest) && Under(y, n)
    requires forall e | e in rest :: e.node < |k| && e.node % 2 == 1 && k[e.node].Some?
    ensures At(WriteParentHashes(k, rest), y) == At(k, y) && At(WritePath(r, rest, keys), y) == At(r, y)
  {
    hide Lo, Hi, Level, Under, WriteParentHashes, WritePath;
    UnderNotAbove(y, n, rest);
    WriteParentHashesFrame(k, rest, y);
    WritePathFrame(r, rest, keys, y);
  }

  /** One more entry: the same key and the same parent hash, and nothing else changes. */
  lemma {:induction false} EntryAgrees(k: Tree, r: Tree, path: seq<PathEntry>, keys: seq<PublicKey>, y: nat)
    requires Valid(k) && Valid(r) && |k| == |r| && |keys| == |path| && path != []
    requires forall e | e in path :: e.node < |k| && e.node % 2 == 1 && k[e.node].Some?
    requires var k', r', n := WriteParentHashes(k, path[1..]), WritePath(r, path[1..], keys[1..]), path[0].node;
      && At(k', n) == Keyed(keys[0]) && CalculateParentHash(k', n) == CalculateParentHash(r', n)
      && (y != n ==> At(k', y) == At(r', y))
    ensures At(WriteParentHashes(k, path), y) == At(WritePath(r, path, keys), y)
  {
    hide CalculateParentHash;
  }

  /** Writing parent hashes from above leaves the two trees equal everywhere
      but at and below the node `x` under the path. */
  lemma {:induction false} ParentHashesAgree(k: Tree, r: Tree, path: seq<PathEntry>, keys: seq<PublicKey>, x: nat)
    requires Valid(k) && Valid(r) && |k| == |r| && |keys| == |path| && Chain(x, path)
    requires forall e | e in path :: e.node < |k| && e.node % 2 == 1 && k[e.node].Some?
    requires AllKeyed(k, path, keys)
    requires forall y: nat | !Under(y, x) && y !in Nodes(path) :: At(k, y) == At(r, y)
    ensures forall y: nat | !Under(y, x) :: At(WriteParentHashes(k, path), y) == At(WritePath(r, path, keys), y)
    decreases |path|
  {
    hide Lo, Hi, Level, CalculateParentHash, Under, WriteParentHashes, WritePath, AllKeyed;
    if path == [] {
      assert WriteParentHashes(k, path) == k && WritePath(r, path, keys) == r by { NothingWritten(k, r); }
    } else {
      var n := path[0].node;
      var rest, keys' := path[1..], keys[1..];
      assert Nodes(path) == [n] + Nodes(rest);
      assert Under(n, n) by { UnderItself(n); }
      forall y: nat | !Under(y, n) && y !in Nodes(rest) ensures At(k, y) == At(r, y) {
        if Under(y, x) { UnderTrans(y, x, n); }
      }
      KeyedRest(k, path, keys);
      ParentHashesAgree(k, r, rest, keys', n);
      var k', r' := WriteParentHashes(k, rest), WritePath(r, rest, keys');
      ParentHashFrame(k', r', n);
      UntouchedBelow(k, r, rest, keys', n, n);
      forall y: nat | !Under(y, x)
        ensures At(WriteParentHashes(k, path), y) == At(WritePath(r, path, keys), y)
      {
        if y != n && Under(y, n) {
          UntouchedBelow(k, r, rest, keys', n, y);
          UnderNotAbove(y, n, rest);
        }
        EntryAgrees(k, r, path, keys, y);
      }
    }
  }

  lemma {:induction false} UnderItself(n: nat)
    ensures Under(n, n)
  {
    Span(n);
  }

  lemma {:induction false} NothingWritten(k: Tree, r: Tree)
    requires Valid(k) && Valid(r)
    ensures WriteParentHashes(k, []) == k && WritePath(r, [], []) == r
  {
  }

  /** Sender and receiver write the same path into trees that differ at most in the sender's leaf. */
  lemma {:induction false} SamePath(t: Tree, r: Tree, s: nat, seed: Secret, leaf: LeafNode)
    requires Valid(t) && Valid(r) && |t| == |r| && HasLeaf(t, s)
    requires forall y: nat | y != 2 * s :: At(t, y) == At(r, y)
    ensures FilteredPath(t, s) == FilteredPath(r, s)
    ensures var w := ReceiverTree(r, s, leaf, SecretKeys(seed, |FilteredPath(r, s)|));
      w == PathTree(t, s, seed)[2 * s := Some(Leaf(leaf))]
      && CalculateParentHash(w, 2 * s) == CalculateParentHash(PathTree(t, s, seed), 2 * s)
  {
    var path := FilteredPath(t, s);
    Span(2 * s);
    FilteredFrame(t, r, 2 * s, 2 * s);
    FilteredChain(t, 2 * s);
    ChainAbove(2 * s, path);
    var keys := SecretKeys(seed, |path|);
    var k := WriteKeys(t, path, seed);
    var r' := r[2 * s := Some(Leaf(leaf))];
    WriteKeysValid(t, path, seed);
    WriteKeysAt(t, path, seed, 2 * s);
    ParentHashesAgree(k, r', path, keys, 2 * s);
    var p, w := PathTree(t, s, seed), WritePath(r', path, keys);
    ParentHashFrame(p, w, 2 * s);
    UnderNotAbove(2 * s, 2 * s, path);
    WritePathFrame(r', path, keys, 2 * s);
    forall y | 0 <= y < |w| ensures w[y] == p[2 * s := Some(Leaf(leaf))][y] {
      assert At(w, y) == w[y] && At(p, y) == p[y];
    }
  }

  lemma {:induction false} SealPathAt(t: Tree, secrets: seq<PathSecret>, context: GroupContext, i: nat)
    requires SealPath(t, secrets, context).Ok? && i < |secrets|
    ensures |SealPath(t, secrets, context).value| == |secrets|
    ensures var n := SealPath(t, secrets, context).value[i];
      n.key == Pub(NodeSecret(secrets[i].secret))
      && SealAll(t, secrets[i].sendTo, context, secrets[i].secret) == Ok(n.sealed)
  {
    if i > 0 { SealPathAt(t, secrets[1..], context, i - 1); }
    SealPathLength(t, secrets, context);
  }

  lemma {:induction false} SealPathLength(t: Tree, secrets: seq<PathSecret>, context: GroupContext)
    requires SealPath(t, secrets, context).Ok?
    ensures |SealPath(t, secrets, context).value| == |secrets|
  {
    if secrets != [] { SealPathLength(t, secrets[1..], context); }
  }

  lemma {:induction false} SealAllAt(t: Tree, to: seq<nat>, context: GroupContext, secret: Secret)
    requires SealAll(t, to, context, secret).Ok?
    ensures |SealAll(t, to, context, secret).value| == |to|
    ensures forall i | 0 <= i < |to| ::
      At(t, to[i]).Some? &&
        SealAll(t, to, context, secret).value[i] == Sealed(KeyOf(At(t, to[i]).value), context, secret)
  {
    if to != [] { SealAllAt(t, to[1..], context, secret); }
  }

  /** Sealing fails only if a recipient is blank. */
  lemma {:induction false} SealAllSucceeds(t: Tree, to: seq<nat>, context: GroupContext, secret: Secret)
    requires forall n | n in to :: At(t, n).Some?
    ensures SealAll(t, to, context, secret).Ok?
  {
    if to != [] { SealAllSucceeds(t, to[1..], context, secret); }
  }

  lemma {:induction false} CreatedKeys(
      t: Tree, s: nat, gc: GroupContext, signKey: Secret, seed: Secret, exclude: seq<nat>, patch: LeafPatch)
    requires Valid(t)
    requires CreateUpdatePath(t, s, gc, signKey, seed, exclude, patch).Ok?
    ensures PathKeys(CreateUpdatePath(t, s, gc, signKey, seed, exclude, patch).value.path.nodes)
      == SecretKeys(seed, |FilteredPath(t, s)|)
  {
    var c := CreateUpdatePath(t, s, gc, signKey, seed, exclude, patch).value;
    var secrets := SecretsAbove(FilteredPath(t, s), seed, exclude);
    SealPathLength(t, secrets, NextContext(gc, c.treeHash));
    forall i | 0 <= i < |secrets| ensures PathKeys(c.path.nodes)[i] == PathKey(seed, i + 1) {
      SealPathAt(t, secrets, NextContext(gc, c.treeHash), i);
      SecretsAboveAt(FilteredPath(t, s), seed, exclude, i);
    }
  }

  /** What fresh randomness gives the receiver of a path: no key of it is in the
      tree, except that an external joiner's leaf already carries the leaf key. */
  ghost predicate FreshPath(seed: Secret, r: Tree, s: nat, external: bool) {
    && (forall x: nat, i: nat {:trigger At(r, x), PathKey(seed, i)} ::
          x != 2 * s && At(r, x).Some? ==> KeyOf(At(r, x).value) != PathKey(seed, i))
    && (At(r, 2 * s).Some? ==> forall i: nat :: i > 0 || !external ==> KeyOf(At(r, 2 * s).value) != PathKey(seed, i))
  }

  lemma {:induction false} FreshPassesKeyChecks(r: Tree, s: nat, seed: Secret, n: nat, external: bool)
    requires FreshPath(seed, r, s, external)
    ensures PathKeyError(r, PathKey(seed, 0), SecretKeys(seed, n)) == None
  {
    var keys := SecretKeys(seed, n);
    forall i | 0 <= i < n ensures !KeyInTree(r, keys[i]) && keys[i] != PathKey(seed, 0) {
      PathKeysDistinct(seed, i + 1, 0);
      forall x | 0 <= x < |r| && r[x].Some? ensures KeyOf(r[x].value) != PathKey(seed, i + 1) {
        assert At(r, x) == r[x];
      }
    }
    forall i, j | 0 <= i < j < n ensures keys[i] != keys[j] {
      PathKeysDistinct(seed, i + 1, j + 1);
    }
  }

  /** An honest path passes every check of `applyUpdatePath` and gives the
      receiver the sender's own tree. */
  lemma {:induction false} HonestPathAccepted(
      t: Tree, r: Tree, s: nat, gc: GroupContext, signKey: Secret, seed: Secret, exclude: seq<nat>, patch: LeafPatch,
      external: bool)
    requires Valid(t) && Valid(r) && |t| == |r| && HasLeaf(r, s)
    requires forall y: nat | y != 2 * s :: At(t, y) == At(r, y)
    requires CreateUpdatePath(t, s, gc, signKey, seed, exclude, patch).Ok?
    requires FreshPath(seed, r, s, external)
    ensures var c := CreateUpdatePath(t, s, gc, signKey, seed, exclude, patch).value;
      ApplyUpdatePath(r, s, c.path, external) == Ok(c.tree)
  {
    var c := CreateUpdatePath(t, s, gc, signKey, seed, exclude, patch).value;
    CreatedKeys(t, s, gc, signKey, seed, exclude, patch);
    SamePath(t, r, s, seed, c.path.leaf);
    FreshPassesKeyChecks(r, s, seed, |FilteredPath(t, s)|, external);
    assert c.path.leaf.hpkeKey == PathKey(seed, 0);
  }
}

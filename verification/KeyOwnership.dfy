/** Who holds which private key after a commit: the committer, every receiver,
    every joiner, and an external joiner end with exactly the keys of their own
    unblanked, merged ancestors, and every receiver can open the path. */
module KeyOwnership {
  import opened Options
  import opened Terms
  import opened TreeMath
  import opened RatchetTree
  import opened ParentHashes
  import opened UpdatePaths
  import opened PrivateKeys
  import opened UnmergedLeaves

  // ---- the tree a path leaves behind ----

  /** `u` is `t` with some path written by leaf `s`: its leaf may be new, the
      path's nodes are parents that list nobody, and nothing else changed. */
  ghost predicate PathReplaced(t: Tree, u: Tree, s: nat) {
    && Valid(t) && Valid(u) && |u| == |t| && HasLeaf(t, s) && HasLeaf(u, s)
    && FilteredPath(u, s) == FilteredPath(t, s)
    && (forall n | n in Nodes(FilteredPath(t, s)) :: ListsNobody(u, n))
    && (forall y: nat | y != 2 * s && y !in Nodes(FilteredPath(t, s)) :: At(u, y) == At(t, y))
  }

  predicate ListsNobody(u: Tree, n: nat) {
    At(u, n).Some? && At(u, n).value.Inner? && Unmerged(u, n) == []
  }

  /** The path written is the one of `seed`. */
  ghost predicate PathWritten(t: Tree, u: Tree, s: nat, seed: Secret) {
    && PathReplaced(t, u, s)
    && LeafAt(u, s).value.hpkeKey == PathKey(seed, 0)
    && (forall i | 0 <= i < |FilteredPath(t, s)| :: FreshNode(u, FilteredPath(t, s)[i].node, PathKey(seed, i + 1)))
  }

  predicate FreshNode(u: Tree, n: nat, key: PublicKey) {
    At(u, n).Some? && At(u, n).value.Inner? && KeyOf(At(u, n).value) == key && Unmerged(u, n) == []
  }

  lemma {:induction false} WriteParentHashesKeepsKeys(t: Tree, path: seq<PathEntry>, x: nat, n: nat, key: PublicKey)
    requires Valid(t) && Chain(x, path) && (forall e | e in path :: e.node < |t| && e.node % 2 == 1 && t[e.node].Some?)
    requires FreshNode(t, n, key)
    ensures FreshNode(WriteParentHashes(t, path), n, key)
    decreases |path|
  {
    if path != [] { WriteParentHashesKeepsKeys(t, path[1..], path[0].node, n, key); }
  }

  lemma {:induction false} HashedKey(k: Tree, path: seq<PathEntry>, x: nat, keys: seq<PublicKey>, i: nat)
    requires Valid(k) && Chain(x, path) && (forall e | e in path :: e.node < |k| && e.node % 2 == 1 && k[e.node].Some?)
    requires |keys| == |path| && AllKeyed(k, path, keys) && i < |path|
    ensures FreshNode(WriteParentHashes(k, path), path[i].node, keys[i])
  {
    assert At(k, path[i].node) == Keyed(keys[i]);
    WriteParentHashesKeepsKeys(k, path, x, path[i].node, keys[i]);
  }

  lemma {:induction false} NewTreeKey(
      t: Tree, s: nat, gc: GroupContext, signKey: Secret, seed: Secret, patch: LeafPatch, i: nat)
    requires Valid(t) && HasLeaf(t, s) && i < |FilteredPath(t, s)|
    ensures FreshNode(NewTree(t, s, gc, signKey, seed, patch), FilteredPath(t, s)[i].node, PathKey(seed, i + 1))
  {
    hide Under, Level, FilteredFrom, WriteKeys, WriteParentHashes;
    var path := FilteredPath(t, s);
    FilteredChain(t, 2 * s);
    ChainAbove(2 * s, path);
    WriteKeysValid(t, path, seed);
    WriteKeysAt(t, path, seed, 2 * s);
    HashedKey(WriteKeys(t, path, seed), path, 2 * s, SecretKeys(seed, |path|), i);
    assert path[i] in path;
  }

  lemma {:induction false} NewTreeElsewhere(
      t: Tree, s: nat, gc: GroupContext, signKey: Secret, seed: Secret, patch: LeafPatch, y: nat)
    requires Valid(t) && HasLeaf(t, s) && y != 2 * s && y !in Nodes(FilteredPath(t, s))
    ensures At(NewTree(t, s, gc, signKey, seed, patch), y) == At(t, y)
  {
    var path := FilteredPath(t, s);
    FilteredChain(t, 2 * s);
    ChainAbove(2 * s, path);
    WriteKeysValid(t, path, seed);
    WriteKeysAt(t, path, seed, 2 * s);
    WriteParentHashesFrame(WriteKeys(t, path, seed), path, y);
  }

  lemma {:induction false} NewTreeWritten(
      t: Tree, s: nat, gc: GroupContext, signKey: Secret, seed: Secret, patch: LeafPatch)
    requires Valid(t) && HasLeaf(t, s)
    ensures PathWritten(t, NewTree(t, s, gc, signKey, seed, patch), s, seed)
  {
    hide FilteredFrom, PathTree, Lo, Hi, Level;
    var path, u := FilteredPath(t, s), NewTree(t, s, gc, signKey, seed, patch);
    assert |u| == |t| && Valid(u) && LeafAt(u, s) == Some(NewSenderLeaf(t, s, gc, signKey, seed, patch));
    hide NewTree;
    forall i | 0 <= i < |path| ensures FreshNode(u, path[i].node, PathKey(seed, i + 1)) {
      NewTreeKey(t, s, gc, signKey, seed, patch, i);
    }
    forall y: nat | y != 2 * s && y !in Nodes(path) ensures At(u, y) == At(t, y) {
      NewTreeElsewhere(t, s, gc, signKey, seed, patch, y);
    }
    SamePathAfter(t, u, s);
    forall n | n in Nodes(path) ensures ListsNobody(u, n) {
      var i :| 0 <= i < |path| && path[i].node == n;
      assert FreshNode(u, path[i].node, PathKey(seed, i + 1));
    }
  }

  /** Changes on the sender's way up do not change the way. */
  lemma {:induction false} SamePathAfter(t: Tree, u: Tree, s: nat)
    requires Valid(t) && Valid(u) && |u| == |t| && HasLeaf(t, s)
    requires forall y: nat | y != 2 * s && y !in Nodes(FilteredPath(t, s)) :: At(u, y) == At(t, y)
    ensures FilteredPath(u, s) == FilteredPath(t, s)
  {
    hide FilteredFrom, Level;
    var path := FilteredPath(t, s);
    Span(2 * s);
    FilteredChain(t, 2 * s);
    forall y: nat | !Under(2 * s, y) ensures At(t, y) == At(u, y) {
      NotAbove(2 * s, path, y);
    }
    FilteredFrame(t, u, 2 * s, 2 * s);
  }

  lemma {:induction false} NotAbove(x: nat, path: seq<PathEntry>, y: nat)
    requires Chain(x, path) && !Under(x, y)
    ensures y !in Nodes(path)
  {
    ChainAbove(x, path);
    forall i | 0 <= i < |path| ensures path[i].node != y { assert path[i] in path; }
  }

  // ---- the committer ----

  function CommitterKeys(p: PrivatePath, secrets: seq<PathSecret>, leafKey: Secret, u: Tree): PrivatePath {
    PruneBlanked(
      MergePaths(UpdateLeafKey(p, leafKey), ToPrivatePath(PathToMap(secrets), p.leaf, None).value), u)
  }

  /** The secrets handed on: those of the path, or the leaf's own when nobody else is left. */
  function HandedOn(path: seq<PathEntry>, s: nat, seed: Secret, exclude: seq<nat>): seq<PathSecret> {
    var secrets := SecretsAbove(path, seed, exclude);
    if |secrets| > 0 then secrets else [PathSecret(2 * s, seed, [])]
  }

  /** The secrets handed on, by node: those of the whole path and at most the leaf's. */
  ghost predicate HandedOnKeys(t: Tree, u: Tree, s: nat, seed: Secret, m: map<nat, Secret>)
    requires Full(|t|) && 2 * s < |t|
  {
    && (forall n | n in m :: KeyMatches(u, n, NodeSecret(m[n])))
    && (forall n | n in m :: n == 2 * s || n in Nodes(FilteredPath(t, s)))
    && (forall n | n in Nodes(FilteredPath(t, s)) :: n in m)
    && (2 * s in m ==> NodeSecret(m[2 * s]) == NodeSecret(seed))
  }

  lemma {:induction false} HandedOnMatches(t: Tree, u: Tree, s: nat, seed: Secret, m: map<nat, Secret>, n: nat)
    requires PathWritten(t, u, s, seed) && n in m && n in Nodes(FilteredPath(t, s))
    requires forall i | 0 <= i < |FilteredPath(t, s)| ::
      SecretHeld(m, FilteredPath(t, s)[i].node, PathSecretAt(Derived(seed, PathLabel), i))
    ensures KeyMatches(u, n, NodeSecret(m[n]))
  {
    hide FilteredPath;
    var path := FilteredPath(t, s);
    var i :| 0 <= i < |path| && path[i].node == n;
    assert SecretHeld(m, path[i].node, PathSecretAt(Derived(seed, PathLabel), i));
    PathSecretShift(seed, i);
    assert FreshNode(u, path[i].node, PathKey(seed, i + 1));
  }

  lemma {:induction false} HandedOnMap(t: Tree, u: Tree, s: nat, seed: Secret, exclude: seq<nat>)
    requires PathWritten(t, u, s, seed)
    ensures HandedOnKeys(t, u, s, seed, PathToMap(HandedOn(FilteredPath(t, s), s, seed, exclude)))
  {
    hide Lo, Hi, Level, FilteredFrom, Resolution, KeyMatches;
    var path := FilteredPath(t, s);
    PathToMapIs(path, seed, exclude);
    FilteredChain(t, 2 * s);
    SecretsMapAt(path, Derived(seed, PathLabel), 2 * s);
    Span(2 * s);
    UnderNotAbove(2 * s, 2 * s, path);
    var m := PathToMap(HandedOn(path, s, seed, exclude));
    if path == [] {
      assert SecretsAbove(path, seed, exclude) == [];
      assert PathToMap([PathSecret(2 * s, seed, [])]) == map[2 * s := seed] + PathToMap([]);
      assert KeyMatches(u, 2 * s, NodeSecret(seed)) by { LeafKeyMatches(t, u, s, seed); }
    } else {
      forall n | n in m ensures KeyMatches(u, n, NodeSecret(m[n])) {
        HandedOnMatches(t, u, s, seed, m, n);
      }
    }
  }

  lemma {:induction false} LeafKeyMatches(t: Tree, u: Tree, s: nat, seed: Secret)
    requires PathWritten(t, u, s, seed)
    ensures KeyMatches(u, 2 * s, NodeSecret(seed))
  {
    hide FilteredPath;
  }

  /** A path node is an ancestor of the sender that lists nobody. */
  lemma {:induction false} PathNodeOwned(t: Tree, u: Tree, s: nat, n: nat)
    requires PathReplaced(t, u, s) && n in Nodes(FilteredPath(t, s))
    ensures OnPath(s, n) && n % 2 == 1 && ListsNobody(u, n)
  {
    var path := FilteredPath(t, s);
    FilteredChain(t, 2 * s);
    ChainAbove(2 * s, path);
    var i :| 0 <= i < |path| && path[i].node == n;
    assert path[i] in path;
  }

  lemma {:induction false} CommitterKeyAt(
      t: Tree, u: Tree, s: nat, seed: Secret, p: PrivatePath, m: map<nat, Secret>, n: nat)
    requires PathWritten(t, u, s, seed) && Covers(t, p) && p.leaf == s && HandedOnKeys(t, u, s, seed, m)
    ensures var q := PruneBlanked(MergePaths(UpdateLeafKey(p, NodeSecret(seed)), ToPrivatePath(m, s, None).value), u);
      (n in q.keys <==> OwnedBy(u, s, n)) && (n in q.keys ==> KeyMatches(u, n, q.keys[n]))
  {
    hide FilteredPath;
    if n in Nodes(FilteredPath(t, s)) {
      PathNodeOwned(t, u, s, n);
    } else if n != 2 * s {
      assert At(u, n) == At(t, n);
    }
  }

  lemma {:induction false} CommitterExact(t: Tree, u: Tree, s: nat, seed: Secret, exclude: seq<nat>, p: PrivatePath)
    requires PathWritten(t, u, s, seed) && Covers(t, p) && p.leaf == s
    ensures Exact(u, CommitterKeys(p, HandedOn(FilteredPath(t, s), s, seed, exclude), NodeSecret(seed), u))
  {
    hide HandedOn, FilteredPath, PathToMap, KeyMatches, OwnedBy, HandedOnKeys, PruneBlanked, MergePaths,
      UpdateLeafKey, ToPrivatePath;
    var secrets := HandedOn(FilteredPath(t, s), s, seed, exclude);
    var q := CommitterKeys(p, secrets, NodeSecret(seed), u);
    HandedOnMap(t, u, s, seed, exclude);
    forall n: nat ensures (n in q.keys <==> OwnedBy(u, s, n)) && (n in q.keys ==> KeyMatches(u, n, q.keys[n])) {
      CommitterKeyAt(t, u, s, seed, p, PathToMap(secrets), n);
    }
    assert q.leaf == s by { CommitterLeaf(p, secrets, NodeSecret(seed), u); }
  }

  lemma {:induction false} CommitterLeaf(p: PrivatePath, secrets: seq<PathSecret>, leafKey: Secret, u: Tree)
    ensures CommitterKeys(p, secrets, leafKey, u).leaf == p.leaf
  {
  }

  // ---- a receiver ----

  ghost predicate NoneOwned(t: Tree, l: nat, exclude: seq<nat>) {
    forall n | n in exclude :: n % 2 == 0 && n != 2 * l
  }

  /** The two sides skip the same nodes of every resolution on the path. */
  ghost predicate SameFilter(t: Tree, s: nat, a: seq<nat>, b: seq<nat>)
    requires Valid(t) && HasLeaf(t, s)
  {
    forall e | e in FilteredPath(t, s) :: FilterNew(e.resolution, a) == FilterNew(e.resolution, b)
  }

  /** The receiver finds its common ancestor, a ciphertext for a key it holds,
      and the sender's own secret in it. */
  lemma {:induction false} ReceiverOpens(
      t: Tree, u: Tree, s: nat, seed: Secret, p: PrivatePath, context: GroupContext, path: UpdatePath,
      sent: seq<nat>, exclude: seq<nat>) returns (i: nat)
    requires PathWritten(t, u, s, seed) && Covers(t, p) && p.leaf != s
    requires SealPath(t, SecretsAbove(FilteredPath(t, s), seed, sent), context) == Ok(path.nodes)
    requires SameFilter(t, s, sent, exclude) && NoneOwned(t, p.leaf, exclude)
    ensures i < |FilteredPath(t, s)| && AboveFrom(FilteredPath(t, s), p.leaf, i)
    ensures ApplyPathSecret(u, p, s, context, path, exclude)
      == Ok((FilteredPath(t, s)[i].node, PathSecretAt(seed, i + 1)))
  {
    var l, entries := p.leaf, FilteredPath(t, s);
    Span(2 * s);
    var c;
    i, c := CommonAncestor(t, 2 * s, l);
    MatchIs(entries, l, i);
    var secrets := SecretsAbove(entries, seed, sent);
    SecretsAboveAt(entries, seed, sent, i);
    SealPathAt(t, secrets, context, i);
    assert entries[i] in entries;
    var nodes := FilterNew(entries[i].resolution, exclude);
    var n := ResolutionReaches(t, c, l);
    assert n in nodes;
    SealAllAt(t, nodes, context, PathSecretAt(seed, i + 1));
    var k := FirstHeld(nodes, p.keys).value;
    assert KeyMatches(t, nodes[k], p.keys[nodes[k]]);
  }

  /** Any path the receiver accepts, whoever made it and from whatever secrets,
      leaves it exactly the keys it must hold: each derived key was compared
      with the one in the tree. */
  lemma {:induction false} AcceptedExact(
      t: Tree, u: Tree, s: nat, p: PrivatePath, context: GroupContext, path: UpdatePath, exclude: seq<nat>)
    requires PathReplaced(t, u, s) && Covers(t, p) && p.leaf != s
    requires ReceivePath(u, p, s, context, path, exclude).Ok?
    ensures Exact(u, PruneBlanked(MergePaths(p, ReceivePath(u, p, s, context, path, exclude).value.0), u))
  {
    hide FilteredFrom, Resolution, Exact, PathSecretsAlong, ToPrivatePath;
    var found := ApplyPathSecret(u, p, s, context, path, exclude).value;
    var i := AcceptedFrom(t, u, s, p, context, path, exclude);
    var fromPath := ReceivePath(u, p, s, context, path, exclude).value.0;
    AcceptedKeys(t, u, s, p.leaf, i, found.1);
    MergedExact(t, u, s, p, fromPath, i);
  }

  /** The secret found is taken to be the first common ancestor's. */
  lemma {:induction false} AcceptedFrom(
      t: Tree, u: Tree, s: nat, p: PrivatePath, context: GroupContext, path: UpdatePath, exclude: seq<nat>)
      returns (i: nat)
    requires PathReplaced(t, u, s) && HasLeaf(t, p.leaf) && p.leaf != s
    requires ApplyPathSecret(u, p, s, context, path, exclude).Ok?
    ensures i < |FilteredPath(t, s)| && AboveFrom(FilteredPath(t, s), p.leaf, i)
    ensures ApplyPathSecret(u, p, s, context, path, exclude).value.0 == FilteredPath(t, s)[i].node
  {
    hide FilteredFrom, Resolution;
    Span(2 * s);
    var c;
    i, c := CommonAncestor(t, 2 * s, p.leaf);
    MatchIs(FilteredPath(t, s), p.leaf, i);
  }

  /** Once verified against the tree, the keys derived from any secret at entry
      `i` are those of the path's nodes from there up. */
  lemma {:induction false} AcceptedKeys(t: Tree, u: Tree, s: nat, l: nat, i: nat, secret: Secret)
    requires PathReplaced(t, u, s) && i < |FilteredPath(t, s)|
    requires PathSecretsAlong(u, s, FilteredPath(t, s)[i].node, secret).Ok?
    requires ToPrivatePath(
      PathSecretsAlong(u, s, FilteredPath(t, s)[i].node, secret).value.secrets, l, Some(u)).Ok?
    ensures SuffixKeys(
      u, FilteredPath(t, s), i,
      ToPrivatePath(PathSecretsAlong(u, s, FilteredPath(t, s)[i].node, secret).value.secrets, l, Some(u)).value)
  {
    hide FilteredFrom, ToPrivatePath, Under, SecretsMap, Resolution, PathSecretsAlong, InSuffix, KeyMatches,
      ListsNobody;
    var path := FilteredPath(t, s);
    AlongEntries(t, u, s, i, secret);
    var m := PathSecretsAlong(u, s, path[i].node, secret).value.secrets;
    forall n | n in m ensures At(u, n).Some? {
      SuffixInPath(path, i, n);
      WrittenThere(t, u, s, n);
    }
    VerifiedKeys(u, m, l);
  }

  /** The nodes the walk from entry `i` gives secrets for. */
  lemma {:induction false} AlongEntries(t: Tree, u: Tree, s: nat, i: nat, secret: Secret)
    requires PathReplaced(t, u, s) && i < |FilteredPath(t, s)|
    requires PathSecretsAlong(u, s, FilteredPath(t, s)[i].node, secret).Ok?
    ensures forall n ::
      n in PathSecretsAlong(u, s, FilteredPath(t, s)[i].node, secret).value.secrets
      <==> InSuffix(FilteredPath(t, s), i, n)
  {
    hide FilteredFrom, Under, SecretsMap, Resolution, InSuffix;
    var path := FilteredPath(t, s);
    FilteredChain(t, 2 * s);
    ChainSuffix(2 * s, path, i);
    SecretsMapAt(path[i..], secret, 2 * s);
    forall n ensures n in SecretsMap(path[i..], secret) <==> InSuffix(path, i, n) { SuffixNodes(path, i, n); }
  }

  lemma {:induction false} WrittenThere(t: Tree, u: Tree, s: nat, n: nat)
    requires PathReplaced(t, u, s) && n in Nodes(FilteredPath(t, s))
    ensures At(u, n).Some?
  {
    hide FilteredPath;
    assert ListsNobody(u, n);
  }

  lemma {:induction false} SuffixInPath(path: seq<PathEntry>, i: nat, n: nat)
    requires InSuffix(path, i, n)
    ensures n in Nodes(path)
  {
    var j :| i <= j < |path| && path[j].node == n;
    assert Nodes(path)[j] == n;
  }

  lemma {:induction false} VerifiedKeys(u: Tree, m: map<nat, Secret>, l: nat)
    requires ToPrivatePath(m, l, Some(u)).Ok? && forall n | n in m :: At(u, n).Some?
    ensures var p := ToPrivatePath(m, l, Some(u)).value;
      p.leaf == l && p.keys.Keys == m.Keys && forall n | n in p.keys :: KeyMatches(u, n, p.keys[n])
  {
  }

  /** An honest path is accepted, and gives the sender's commit secret. */
  lemma {:induction false} ReceiverExact(
      t: Tree, u: Tree, s: nat, seed: Secret, p: PrivatePath, context: GroupContext, path: UpdatePath,
      sent: seq<nat>, exclude: seq<nat>)
    requires PathWritten(t, u, s, seed) && Covers(t, p) && p.leaf != s
    requires SealPath(t, SecretsAbove(FilteredPath(t, s), seed, sent), context) == Ok(path.nodes)
    requires SameFilter(t, s, sent, exclude) && NoneOwned(t, p.leaf, exclude)
    ensures ReceivePath(u, p, s, context, path, exclude).Ok?
    ensures var r := ReceivePath(u, p, s, context, path, exclude).value;
      r.1 == Derived(PathSecretAt(seed, |FilteredPath(t, s)|), PathLabel)
      && Exact(u, PruneBlanked(MergePaths(p, r.0), u))
  {
    var i := ReceiverOpens(t, u, s, seed, p, context, path, sent, exclude);
    var entries := FilteredPath(t, s);
    var m, fromPath := WalkFrom(t, u, s, seed, p.leaf, i);
    FilteredChain(t, 2 * s);
    ChainSuffix(2 * s, entries, i);
    MergedExact(t, u, s, p, fromPath, i);
  }

  /** Node `n` is the path's entry `i` or one above it. */
  ghost predicate InSuffix(path: seq<PathEntry>, i: nat, n: nat) {
    exists j :: i <= j < |path| && path[j].node == n
  }

  /** The keys are those of the entries from `i` up, and match the tree. */
  ghost predicate SuffixKeys(u: Tree, path: seq<PathEntry>, i: nat, p: PrivatePath) {
    && (forall n :: n in p.keys <==> InSuffix(path, i, n))
    && (forall n | n in p.keys :: KeyMatches(u, n, p.keys[n]))
  }

  lemma {:induction false} PathSecretAdd(seed: Secret, i: nat, j: nat)
    ensures PathSecretAt(PathSecretAt(seed, i), j) == PathSecretAt(seed, i + j)
  {
    if j > 0 { PathSecretAdd(seed, i, j - 1); }
  }

  /** The walk from entry `i` with the sender's secret there: the sender's
      remaining secrets, at the nodes they belong to. */
  lemma {:induction false} SuffixSecrets(path: seq<PathEntry>, x: nat, seed: Secret, i: nat)
    requires Chain(x, path) && i < |path|
    ensures var m := SecretsMap(path[i..], PathSecretAt(seed, i + 1));
      (forall n :: n in m <==> InSuffix(path, i, n))
      && (forall j | i <= j < |path| :: SecretHeld(m, path[j].node, PathSecretAt(seed, j + 1)))
  {
    var secret, up := PathSecretAt(seed, i + 1), path[i..];
    ChainSuffix(x, path, i);
    SecretsMapAt(up, secret, x);
    var m := SecretsMap(up, secret);
    forall j | i <= j < |path| ensures SecretHeld(m, path[j].node, PathSecretAt(seed, j + 1)) {
      SuffixSecretAt(path, m, seed, i, j);
    }
    forall n ensures n in m <==> InSuffix(path, i, n) {
      SuffixNodes(path, i, n);
    }
  }

  lemma {:induction false} SuffixSecretAt(path: seq<PathEntry>, m: map<nat, Secret>, seed: Secret, i: nat, j: nat)
    requires i <= j < |path|
    requires var k, up := j - i, path[i..]; SecretHeld(m, up[k].node, PathSecretAt(PathSecretAt(seed, i + 1), k))
    ensures SecretHeld(m, path[j].node, PathSecretAt(seed, j + 1))
  {
    PathSecretAdd(seed, i + 1, j - i);
  }

  lemma {:induction false} SuffixNodes(path: seq<PathEntry>, i: nat, n: nat)
    requires i <= |path|
    ensures n in Nodes(path[i..]) <==> InSuffix(path, i, n)
  {
    var up := path[i..];
    if n in Nodes(up) {
      var j :| 0 <= j < |up| && Nodes(up)[j] == n;
      assert path[i + j].node == n;
    }
    if InSuffix(path, i, n) {
      var j :| i <= j < |path| && path[j].node == n;
      assert Nodes(up)[j - i] == n;
    }
  }

  lemma {:induction false} SuffixMatches(u: Tree, path: seq<PathEntry>, x: nat, seed: Secret, i: nat, l: nat)
    requires Chain(x, path) && i < |path|
    requires forall j | 0 <= j < |path| :: FreshNode(u, path[j].node, PathKey(seed, j + 1))
    ensures var r := ToPrivatePath(SecretsMap(path[i..], PathSecretAt(seed, i + 1)), l, Some(u));
      r.Ok? && SuffixKeys(u, path, i, r.value)
  {
    var m := SecretsMap(path[i..], PathSecretAt(seed, i + 1));
    SuffixSecrets(path, x, seed, i);
    forall n | n in m ensures KeyMatches(u, n, NodeSecret(m[n])) {
      assert InSuffix(path, i, n);
      var j :| i <= j < |path| && path[j].node == n;
      FreshMatches(u, m, n, seed, j);
    }
    MatchesVerify(u, m, l);
  }

  lemma {:induction false} MatchesVerify(u: Tree, m: map<nat, Secret>, l: nat)
    requires forall n | n in m :: KeyMatches(u, n, NodeSecret(m[n]))
    ensures var r := ToPrivatePath(m, l, Some(u));
      r.Ok? && r.value.keys.Keys == m.Keys && forall n | n in m :: KeyMatches(u, n, r.value.keys[n])
  {
  }

  lemma {:induction false} FreshMatches(u: Tree, m: map<nat, Secret>, n: nat, seed: Secret, j: nat)
    requires SecretHeld(m, n, PathSecretAt(seed, j + 1)) && FreshNode(u, n, PathKey(seed, j + 1))
    ensures KeyMatches(u, n, NodeSecret(m[n]))
  {
  }

  /** From entry `i` up, any member above which the path runs derives the
      sender's remaining secrets, its commit secret, and the advertised keys. */
  lemma {:induction false} WalkFrom(
      t: Tree, u: Tree, s: nat, seed: Secret, l: nat, i: nat) returns (a: Along, fromPath: PrivatePath)
    requires PathWritten(t, u, s, seed) && i < |FilteredPath(t, s)|
    ensures PathSecretsAlong(u, s, FilteredPath(t, s)[i].node, PathSecretAt(seed, i + 1)) == Ok(a)
    ensures a.last == PathSecretAt(seed, |FilteredPath(t, s)|)
    ensures ToPrivatePath(a.secrets, l, Some(u)) == Ok(fromPath) && fromPath.leaf == l
    ensures SuffixKeys(u, FilteredPath(t, s), i, fromPath)
  {
    var path := FilteredPath(t, s);
    FilteredChain(t, 2 * s);
    SuffixMatches(u, path, 2 * s, seed, i, l);
    a := AlongFromEntry(u, s, 2 * s, seed, i);
    fromPath := ToPrivatePath(a.secrets, l, Some(u)).value;
  }

  lemma {:induction false} AlongFromEntry(u: Tree, s: nat, x: nat, seed: Secret, i: nat) returns (a: Along)
    requires Full(|u|) && 2 * s < |u| && i < |FilteredPath(u, s)| && Chain(x, FilteredPath(u, s))
    ensures PathSecretsAlong(u, s, FilteredPath(u, s)[i].node, PathSecretAt(seed, i + 1)) == Ok(a)
    ensures a.secrets == SecretsMap(FilteredPath(u, s)[i..], PathSecretAt(seed, i + 1))
    ensures a.last == PathSecretAt(seed, |FilteredPath(u, s)|)
  {
    var path := FilteredPath(u, s);
    ChainSuffix(x, path, i);
    LastSecret(seed, i, |path|);
    a := PathSecretsAlong(u, s, path[i].node, PathSecretAt(seed, i + 1)).value;
  }

  lemma {:induction false} LastSecret(seed: Secret, i: nat, n: nat)
    requires i < n
    ensures PathSecretAt(PathSecretAt(seed, i + 1), n - 1 - i) == PathSecretAt(seed, n)
  {
    PathSecretAdd(seed, i + 1, n - 1 - i);
  }

  /** Keys kept for the nodes the path left alone plus keys of the path's
      nodes from the common ancestor up are exactly what the member must hold,
      whoever wrote the path. */
  lemma {:induction false} MergedExact(t: Tree, u: Tree, s: nat, p: PrivatePath, fromPath: PrivatePath, i: nat)
    requires PathReplaced(t, u, s) && Covers(t, p) && p.leaf != s
    requires i < |FilteredPath(t, s)| && AboveFrom(FilteredPath(t, s), p.leaf, i)
    requires SuffixKeys(u, FilteredPath(t, s), i, fromPath)
    ensures Exact(u, PruneBlanked(MergePaths(p, fromPath), u))
  {
    var l, path := p.leaf, FilteredPath(t, s);
    var q := PruneBlanked(MergePaths(p, fromPath), u);
    forall n: nat ensures n in Nodes(path) ==> n % 2 == 1 && (InSuffix(path, i, n) <==> OnPath(l, n)) {
      if n in Nodes(path) {
        PathNodeOwned(t, u, s, n);
        var j :| 0 <= j < |path| && path[j].node == n;
        if InSuffix(path, i, n) {
          var k :| i <= k < |path| && path[k].node == n;
          assert OnPath(l, path[k].node);
        } else {
          assert j < i;
        }
      }
    }
    forall n: nat ensures n in q.keys <==> OwnedBy(u, l, n) {
      if n in Nodes(path) {
        PathNodeOwned(t, u, s, n);
      } else {
        NotInSuffix(path, i, n);
        assert n != 2 * s ==> At(u, n) == At(t, n);
      }
    }
    forall n | n in q.keys ensures KeyMatches(u, n, q.keys[n]) {
      if n !in fromPath.keys {
        assert n !in Nodes(path);
        assert At(u, n) == At(t, n);
      }
    }
  }

  lemma {:induction false} NotInSuffix(path: seq<PathEntry>, i: nat, n: nat)
    requires n !in Nodes(path)
    ensures !InSuffix(path, i, n)
  {
    forall j | i <= j < |path| ensures path[j].node != n { assert Nodes(path)[j] == path[j].node; }
  }

  // ---- joiners ----

  /** Every non-blank ancestor lists the leaf: the state an Add leaves it in. */
  ghost predicate JustAdded(t: Tree, l: nat) {
    HasLeaf(t, l) && forall n: nat | OnPath(l, n) && At(t, n).Some? :: l in Unmerged(t, n)
  }

  /** A joiner with only its leaf key holds all it must when the commit has no path. */
  lemma {:induction false} JoinerWithoutPath(t: Tree, l: nat, key: Secret)
    requires JustAdded(t, l) && KeyMatches(t, 2 * l, key)
    ensures Exact(t, PrivatePath(l, map[2 * l := key])) && Covers(t, PrivatePath(l, map[2 * l := key]))
  {
  }

  /** With a path, the secret sent for the common ancestor completes its keys. */
  lemma {:induction false} JoinerExact(t: Tree, u: Tree, s: nat, seed: Secret, l: nat, key: Secret, i: nat)
    requires PathWritten(t, u, s, seed) && l != s && JustAdded(t, l) && KeyMatches(t, 2 * l, key)
    requires FirstMatch(FilteredPath(t, s), l) == Some(i)
    ensures WelcomeKeys(u, s, FilteredPath(t, s)[i].node, PathSecretAt(seed, i + 1),
      PrivatePath(l, map[2 * l := key])).Ok?
    ensures Exact(u, WelcomeKeys(
      u, s, FilteredPath(t, s)[i].node, PathSecretAt(seed, i + 1), PrivatePath(l, map[2 * l := key])).value)
  {
    hide FilteredFrom, PathSecretsAlong, Resolution;
    var p, path := PrivatePath(l, map[2 * l := key]), FilteredPath(t, s);
    JoinerWithoutPath(t, l, key);
    Span(2 * s);
    var i', c := CommonAncestor(t, 2 * s, l);
    MatchIs(path, l, i');
    var a, fromPath := WalkFrom(t, u, s, seed, l, i);
    MergedExact(t, u, s, p, fromPath, i);
    assert 2 * l !in fromPath.keys by { LeafNotOnPath(t, s, i, l); }
    MergeCommutes(fromPath, l, key);
    assert WelcomeKeys(u, s, path[i].node, PathSecretAt(seed, i + 1), p)
      == Ok(PruneBlanked(MergePaths(fromPath, p), u));
  }

  lemma {:induction false} MergeCommutes(a: PrivatePath, l: nat, key: Secret)
    requires a.leaf == l && 2 * l !in a.keys
    ensures var p := PrivatePath(l, map[2 * l := key]); MergePaths(a, p) == MergePaths(p, a)
  {
  }

  lemma {:induction false} LeafNotOnPath(t: Tree, s: nat, i: nat, l: nat)
    requires Valid(t) && 2 * s < |t|
    ensures !InSuffix(FilteredPath(t, s), i, 2 * l)
  {
    hide FilteredFrom, Under, Level;
    var path := FilteredPath(t, s);
    FilteredChain(t, 2 * s);
    ChainAbove(2 * s, path);
    forall j | i <= j < |path| ensures path[j].node != 2 * l {
      assert path[j].node % 2 == 1 by { assert path[j] in path; }
    }
  }

  /** An external joiner knows its leaf and its path; no other ancestor counts it as merged. */
  lemma {:induction false} ExternalJoinerExact(t: Tree, u: Tree, s: nat, seed: Secret)
    requires PathWritten(t, u, s, seed) && JustAdded(t, s)
    ensures Exact(u, UpdateLeafKey(
      ToPrivatePath(PathToMap(HandedOn(FilteredPath(t, s), s, seed, [])), s, None).value, NodeSecret(seed)))
  {
    var path := FilteredPath(t, s);
    var m := PathToMap(HandedOn(path, s, seed, []));
    hide FilteredPath, HandedOn, PathToMap;
    HandedOnMap(t, u, s, seed, []);
    var q := UpdateLeafKey(ToPrivatePath(m, s, None).value, NodeSecret(seed));
    forall n: nat ensures n in q.keys <==> OwnedBy(u, s, n) {
      if n in Nodes(path) { PathNodeOwned(t, u, s, n); } else if n != 2 * s { assert At(u, n) == At(t, n); }
    }
  }

  // ---- the unmerged-leaves rule after a path ----

  /** When every non-blank parent has members on both sides, the filtered path
      misses no non-blank ancestor of the sender. */
  lemma {:induction false} NonBlankOnPath(t: Tree, x: nat, n: nat)
    requires TreeOk(t) && x < |t| && Under(x, n) && n != x && At(t, n).Some?
    ensures n in Nodes(FilteredFrom(t, x))
    decreases Level(Root(|t|)) - Level(x)
  {
    if x == Root(|t|) {
      RootTop(n, |t|);
    } else {
      ParentInTree(x, |t|);
      UnderParent(x, n);
      NodesStep(t, x);
      if n == Parent(x) {
        SiblingHasLeaf(t, x);
      } else {
        NonBlankOnPath(t, Parent(x), n);
      }
    }
  }

  lemma {:induction false} NodesStep(t: Tree, x: nat)
    requires Full(|t|) && x < |t| && x != Root(|t|) && Parent(x) < |t|
    ensures Nodes(FilteredFrom(t, x)) ==
      (if Resolution(t, Sibling(x)) == [] then [] else [Parent(x)]) + Nodes(FilteredFrom(t, Parent(x)))
  {
  }

  lemma {:induction false} SiblingHasLeaf(t: Tree, x: nat)
    requires TreeOk(t) && At(t, Parent(x)).Some?
    ensures Resolution(t, Sibling(x)) != []
  {
    ParentChild(x);
    var l: nat :| HasLeaf(t, l) && Under(2 * l, Sibling(x));
    var n := ResolutionReaches(t, Sibling(x), l);
  }

  lemma {:induction false} PathOccupied(t: Tree, b: nat, x: nat)
    requires TreeOk(t) && x < |t| && Under(b, x) && Occupied(t, b)
    ensures forall n | n in Nodes(FilteredFrom(t, x)) :: n % 2 == 1 && Occupied(t, Left(n)) && Occupied(t, Right(n))
    decreases Level(Root(|t|)) - Level(x)
  {
    if x != Root(|t|) {
      ParentInTree(x, |t|);
      ParentChild(x);
      UnderParent(x, Parent(x));
      UnderTrans(b, x, Parent(x));
      PathOccupied(t, b, Parent(x));
      NodesStep(t, x);
      if Resolution(t, Sibling(x)) != [] {
        ResolutionOccupied(t, Sibling(x));
        var l: nat :| HasLeaf(t, l) && Under(2 * l, b);
        UnderTrans(2 * l, b, x);
        assert Occupied(t, x);
      }
    }
  }

  lemma {:induction false} PathKeepsTree(t: Tree, u: Tree, s: nat)
    requires TreeOk(t) && PathReplaced(t, u, s)
    ensures TreeOk(u)
  {
    var path := FilteredPath(t, s);
    forall l: nat | HasLeaf(t, l) ensures HasLeaf(u, l) {
      if l != s && 2 * l in Nodes(path) { PathNodeOwned(t, u, s, 2 * l); }
    }
    forall x: nat ensures ListedInOrder(u, x) {
      assert ListedInOrder(t, x);
      if x in Nodes(path) {
        PathNodeOwned(t, u, s, x);
      } else {
        assert Unmerged(u, x) == Unmerged(t, x);
        OrderFrame(t, u, x);
      }
    }
    forall x: nat, l: nat | l in Unmerged(u, x) ensures ListedRightly(u, x, l) {
      if x in Nodes(path) { PathNodeOwned(t, u, s, x); }
      assert At(u, x) == At(t, x) && ListedRightly(t, x, l);
      forall w: nat | OnPath(l, w) && Under(w, x) && At(u, w).Some? ensures l in Unmerged(u, w) {
        if w in Nodes(path) {
          PathNodeOwned(t, u, s, w);
          UnderTrans(2 * s, w, x);
          NonBlankOnPath(t, 2 * s, x);
          assert false;
        }
        assert At(u, w) == At(t, w);
      }
    }
    Span(2 * s);
    assert Occupied(t, 2 * s);
    PathOccupied(t, 2 * s, 2 * s);
    forall x: nat | x % 2 == 1 && At(u, x).Some? ensures Occupied(u, Left(x)) && Occupied(u, Right(x)) {
      assert x in Nodes(path) || At(t, x).Some?;
      OccupiedKept(t, u, Left(x));
      OccupiedKept(t, u, Right(x));
    }
  }
}

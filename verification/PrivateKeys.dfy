/** A member's private keys (src/private-key-path.ts, src/path-secrets.ts, and
    applyUpdatePathSecret in src/create-commit.ts). */
module PrivateKeys {
  import opened Options
  import opened Terms
  import opened TreeMath
  import opened RatchetTree
  import opened ParentHashes
  import opened UpdatePaths

  /** Private keys by node index; `leaf` is the member's own leaf. */
  datatype PrivatePath = PrivatePath(leaf: nat, keys: map<nat, Secret>)

  function MergePaths(a: PrivatePath, b: PrivatePath): PrivatePath {
    a.(keys := a.keys + b.keys)
  }

  function UpdateLeafKey(p: PrivatePath, key: Secret): PrivatePath {
    p.(keys := p.keys[2 * p.leaf := key])
  }

  function PruneBlanked(p: PrivatePath, t: Tree): PrivatePath {
    p.(keys := map n | n in p.keys && At(t, n).Some? :: p.keys[n])
  }

  function PathToMap(secrets: seq<PathSecret>): map<nat, Secret> {
    if secrets == [] then map[] else map[secrets[0].node := secrets[0].secret] + PathToMap(secrets[1..])
  }

  /** toPrivateKeyPath; with a tree, every derived key must be the one advertised there. */
  function ToPrivatePath(secrets: map<nat, Secret>, leaf: nat, verify: Option<Tree>): Result<PrivatePath> {
    if verify.Some? && exists n | n in secrets ::
         At(verify.value, n).Some? && KeyOf(At(verify.value, n).value) != Pub(NodeSecret(secrets[n]))
    then Err(DerivedKeyMismatch)
    else Ok(PrivatePath(leaf, map n | n in secrets :: NodeSecret(secrets[n])))
  }

  // ---- following the sender's filtered path ----

  function FindEntry(path: seq<PathEntry>, node: nat): (i: Option<nat>)
    ensures i.Some? ==> i.value < |path| && path[i.value].node == node
    ensures i.None? ==> node !in Nodes(path)
    ensures i.Some? ==> forall j | 0 <= j < i.value :: path[j].node != node
  {
    if path == [] then None
    else if path[0].node == node then Some(0)
    else match FindEntry(path[1..], node) case None => None case Some(i) => Some(i + 1)
  }

  /** The secrets from the first entry's `secret` to the end of the path. */
  function SecretsMap(path: seq<PathEntry>, secret: Secret): map<nat, Secret> {
    if path == [] then map[]
    else map[path[0].node := secret] + SecretsMap(path[1..], Derived(secret, PathLabel))
  }

  datatype Along = Along(secrets: map<nat, Secret>, last: Secret)

  function PathSecretsAlong(t: Tree, s: nat, node: nat, secret: Secret): Result<Along>
    requires Full(|t|) && 2 * s < |t|
  {
    var path := FilteredPath(t, s);
    match FindEntry(path, node)
    case None => Err(NotOnPath)
    case Some(i) => Ok(Along(SecretsMap(path[i..], secret), PathSecretAt(secret, |path| - 1 - i)))
  }

  /** firstMatchAncestor: the first entry of the path above leaf `l`. */
  function FirstMatch(path: seq<PathEntry>, l: nat): (i: Option<nat>)
    ensures i.Some? ==> i.value < |path| && OnPath(l, path[i.value].node)
    ensures i.Some? ==> forall j | 0 <= j < i.value :: !OnPath(l, path[j].node)
    ensures i.None? ==> forall j | 0 <= j < |path| :: !OnPath(l, path[j].node)
  {
    if path == [] then None
    else if OnPath(l, path[0].node) then Some(0)
    else match FirstMatch(path[1..], l) case None => None case Some(i) => Some(i + 1)
  }

  function FirstHeld(nodes: seq<nat>, keys: map<nat, Secret>): (k: Option<nat>)
    ensures k.Some? ==> k.value < |nodes| && nodes[k.value] in keys
    ensures k.Some? ==> forall j | 0 <= j < k.value :: nodes[j] !in keys
    ensures k.None? ==> forall n | n in nodes :: n !in keys
  {
    if nodes == [] then None
    else if nodes[0] in keys then Some(0)
    else match FirstHeld(nodes[1..], keys) case None => None case Some(k) => Some(k + 1)
  }

  /** applyUpdatePathSecret: the common ancestor and the path secret there. */
  function ApplyPathSecret(
      t: Tree, p: PrivatePath, s: nat, context: GroupContext, path: UpdatePath, exclude: seq<nat>):
      Result<(nat, Secret)>
    requires Full(|t|) && 2 * s < |t|
  {
    var entries := FilteredPath(t, s);
    match FirstMatch(entries, p.leaf)
    case None => Err(NoCommonAncestor)
    case Some(i) =>
      if i >= |path.nodes| then Err(MissingPathNode) else
      var nodes := FilterNew(entries[i].resolution, exclude);
      if |path.nodes[i].sealed| != |nodes| then Err(CiphertextCount) else
      match FirstHeld(nodes, p.keys)
      case None => Err(NoOverlap)
      case Some(k) =>
        match Open(p.keys[nodes[k]], context, path.nodes[i].sealed[k])
        case None => Err(DecryptFailed)
        case Some(secret) => Ok((entries[i].node, secret))
  }

  /** updatePrivateKeyPath: the keys the path gives this member and the commit secret. */
  function ReceivePath(
      t: Tree, p: PrivatePath, s: nat, context: GroupContext, path: UpdatePath, exclude: seq<nat>):
      Result<(PrivatePath, Secret)>
    requires Full(|t|) && 2 * s < |t|
  {
    var found :- ApplyPathSecret(t, p, s, context, path, exclude);
    var along :- PathSecretsAlong(t, s, found.0, found.1);
    var keys :- ToPrivatePath(along.secrets, p.leaf, Some(t));
    Ok((keys, Derived(along.last, PathLabel)))
  }

  /** deriveWelcomePrivateKeyPath. */
  function WelcomeKeys(t: Tree, s: nat, ancestor: nat, secret: Secret, p: PrivatePath): Result<PrivatePath>
    requires Full(|t|) && 2 * s < |t|
  {
    var along :- PathSecretsAlong(t, s, ancestor, secret);
    var fromPath :- ToPrivatePath(along.secrets, p.leaf, Some(t));
    Ok(PruneBlanked(MergePaths(fromPath, p), t))
  }

  // ---- which keys a member must hold ----

  /** Leaf `l`'s member knows node `n`'s key: its own leaf, or a non-blank
      ancestor that does not list `l` as unmerged. */
  predicate OwnedBy(t: Tree, l: nat, n: nat) {
    n == 2 * l || (OnPath(l, n) && At(t, n).Some? && l !in Unmerged(t, n))
  }

  predicate KeyMatches(t: Tree, n: nat, key: Secret) {
    At(t, n).Some? && KeyOf(At(t, n).value) == Pub(key)
  }

  /** The member's keys are those it must know and no others, and each is the
      private half of the key in the tree. */
  ghost predicate Exact(t: Tree, p: PrivatePath) {
    && HasLeaf(t, p.leaf)
    && (forall n: nat :: n in p.keys <==> OwnedBy(t, p.leaf, n))
    && (forall n | n in p.keys :: KeyMatches(t, n, p.keys[n]))
  }

  /** Exact up to keys of ancestors that are blank in `t`. */
  ghost predicate Covers(t: Tree, p: PrivatePath) {
    && HasLeaf(t, p.leaf)
    && (forall n | n in p.keys :: n == 2 * p.leaf || OnPath(p.leaf, n))
    && (forall n: nat :: OwnedBy(t, p.leaf, n) ==> n in p.keys)
    && (forall n | n in p.keys && At(t, n).Some? :: OwnedBy(t, p.leaf, n) && KeyMatches(t, n, p.keys[n]))
  }

  lemma {:induction false} PruneExact(t: Tree, p: PrivatePath)
    requires Covers(t, p)
    ensures Exact(t, PruneBlanked(p, t))
  {
  }

  /** From `l`'s point of view proposals only blank its ancestors or list other leaves on them. */
  ghost predicate Survives(t: Tree, u: Tree, l: nat) {
    && HasLeaf(t, l) && HasLeaf(u, l)
    && forall n: nat | OnPath(l, n) && At(u, n).Some? ::
         At(t, n).Some? && KeyOf(At(t, n).value) == KeyOf(At(u, n).value)
         && (l in Unmerged(t, n) <==> l in Unmerged(u, n))
  }

  lemma {:induction false} SurvivesTrans(t: Tree, u: Tree, v: Tree, l: nat)
    requires Survives(t, u, l) && Survives(u, v, l)
    ensures Survives(t, v, l)
  {
  }

  /** The keys kept across the proposals cover the new tree, whether the leaf
      stayed or an Update of this member's own took its place. */
  lemma {:induction false} SurvivorCovers(t: Tree, u: Tree, p: PrivatePath, q: PrivatePath)
    requires Exact(t, p) && Survives(t, u, p.leaf)
    requires q.leaf == p.leaf && q.keys.Keys == p.keys.Keys
    requires forall n | n in p.keys && n != 2 * p.leaf :: q.keys[n] == p.keys[n]
    requires 2 * p.leaf in q.keys && KeyMatches(u, 2 * p.leaf, q.keys[2 * p.leaf])
    ensures Covers(u, q)
  {
  }

  // ---- the common ancestor and its resolution ----

  /** Some node of the resolution is one whose key the member at leaf `l` knows. */
  lemma {:induction false} ResolutionReaches(t: Tree, x: nat, l: nat) returns (n: nat)
    requires Sound(t) && HasLeaf(t, l) && Under(2 * l, x)
    ensures n in Resolution(t, x) && OwnedBy(t, l, n)
    decreases Level(x)
  {
    Span(x);
    if At(t, x).None? {
      Children(x);
      if 2 * l < x { n := ResolutionReaches(t, Left(x), l); } else { n := ResolutionReaches(t, Right(x), l); }
    } else if x % 2 == 0 {
      n := x;
    } else if l in Unmerged(t, x) {
      n := 2 * l;
      var i :| 0 <= i < |Unmerged(t, x)| && Unmerged(t, x)[i] == l;
      assert LeafNodes(Unmerged(t, x))[i] == 2 * l;
    } else {
      n := x;
    }
  }

  /** Entries are above `l` exactly from the `i`th on. */
  predicate AboveFrom(path: seq<PathEntry>, l: nat, i: nat) {
    forall j | 0 <= j < |path| :: OnPath(l, path[j].node) <==> i <= j
  }

  /** Where the path of `x` meets the path of another leaf, it has an entry whose
      resolution covers that leaf; entries below miss the leaf, entries above do not. */
  lemma {:induction false} CommonAncestor(t: Tree, x: nat, l: nat) returns (i: nat, c: nat)
    requires Valid(t) && x < |t| && HasLeaf(t, l) && !Under(2 * l, x)
    ensures i < |FilteredFrom(t, x)| && AboveFrom(FilteredFrom(t, x), l, i)
    ensures FilteredFrom(t, x)[i].resolution == Resolution(t, c) && Under(2 * l, c)
    decreases Level(Root(|t|)) - Level(x)
  {
    hide Resolution, Level, Lo, Hi;
    RootSpan(|t|);
    assert x != Root(|t|);
    ParentInTree(x, |t|);
    var p := Parent(x);
    if Under(2 * l, p) {
      i, c := 0, Sibling(x);
      MeetHere(t, x, l);
    } else {
      i, c := CommonAncestor(t, p, l);
      if Resolution(t, Sibling(x)) != [] {
        MeetAbove(PathEntry(p, Resolution(t, Sibling(x))), FilteredFrom(t, p), l, i);
        i := i + 1;
      }
    }
  }

  lemma {:induction false} MeetHere(t: Tree, x: nat, l: nat)
    requires Valid(t) && x < |t| && x != Root(|t|) && Parent(x) < |t| && HasLeaf(t, l)
    requires !Under(2 * l, x) && Under(2 * l, Parent(x))
    ensures FilteredFrom(t, x) != [] && AboveFrom(FilteredFrom(t, x), l, 0)
    ensures FilteredFrom(t, x)[0].resolution == Resolution(t, Sibling(x)) && Under(2 * l, Sibling(x))
  {
    var p := Parent(x);
    SiblingFacts(x);
    ParentOdd(x);
    var n := ResolutionReaches(t, Sibling(x), l);
    AboveAll(t, p, l);
    ConsAbove(PathEntry(p, Resolution(t, Sibling(x))), FilteredFrom(t, p), l);
  }

  lemma {:induction false} ConsAbove(e: PathEntry, rest: seq<PathEntry>, l: nat)
    requires AboveFrom(rest, l, 0) && OnPath(l, e.node)
    ensures AboveFrom([e] + rest, l, 0)
  {
  }

  lemma {:induction false} MeetAbove(e: PathEntry, rest: seq<PathEntry>, l: nat, i: nat)
    requires AboveFrom(rest, l, i) && !OnPath(l, e.node)
    ensures AboveFrom([e] + rest, l, i + 1)
  {
  }

  lemma {:induction false} AboveAll(t: Tree, p: nat, l: nat)
    requires Full(|t|) && p < |t| && Under(2 * l, p)
    ensures AboveFrom(FilteredFrom(t, p), l, 0)
  {
    var path := FilteredFrom(t, p);
    FilteredChain(t, p);
    ChainAbove(p, path);
    forall j | 0 <= j < |path| ensures OnPath(l, path[j].node) {
      assert path[j] in path;
      UnderTrans(2 * l, p, path[j].node);
    }
  }

  lemma {:induction false} MatchIs(path: seq<PathEntry>, l: nat, i: nat)
    requires i < |path| && AboveFrom(path, l, i)
    ensures FirstMatch(path, l) == Some(i)
  {
    assert OnPath(l, path[i].node);
  }

  // ---- secrets along the path ----

  predicate SecretHeld(m: map<nat, Secret>, n: nat, secret: Secret) {
    n in m && m[n] == secret
  }

  lemma {:induction false} SecretsMapAt(path: seq<PathEntry>, secret: Secret, x: nat)
    requires Chain(x, path)
    ensures SecretsMap(path, secret).Keys == set n | n in Nodes(path)
    ensures forall i | 0 <= i < |path| :: SecretHeld(SecretsMap(path, secret), path[i].node, PathSecretAt(secret, i))
    decreases |path|
  {
    hide Under, Level;
    if path != [] {
      var n, rest, next := path[0].node, path[1..], Derived(secret, PathLabel);
      SecretsMapAt(rest, next, n);
      UnderItself(n);
      UnderNotAbove(n, n, rest);
      assert Nodes(path) == [n] + Nodes(rest);
      forall i | 0 <= i < |path|
        ensures SecretHeld(SecretsMap(path, secret), path[i].node, PathSecretAt(secret, i))
      {
        if i > 0 {
          assert path[i] == rest[i - 1];
          PathSecretShift(secret, i - 1);
        }
      }
    }
  }

  /** The committer's list of path secrets is the walk from the first node. */
  lemma {:induction false} PathToMapIs(path: seq<PathEntry>, secret: Secret, exclude: seq<nat>)
    ensures PathToMap(SecretsAbove(path, secret, exclude)) == SecretsMap(path, Derived(secret, PathLabel))
    decreases |path|
  {
    if path != [] { PathToMapIs(path[1..], Derived(secret, PathLabel), exclude); }
  }

  lemma {:induction false} ChainSuffix(x: nat, path: seq<PathEntry>, i: nat)
    requires Chain(x, path) && i < |path|
    ensures Chain(path[i].node, path[i + 1..]) && Chain(x, path[i..])
    ensures FindEntry(path, path[i].node) == Some(i)
    decreases i
  {
    if i > 0 {
      var rest := path[1..];
      ChainSuffix(path[0].node, rest, i - 1);
      assert rest[i - 1] == path[i] && rest[i..] == path[i + 1..] && rest[i - 1..] == path[i..];
      Span(path[0].node);
      UnderNotAbove(path[0].node, path[0].node, rest);
      assert path[i].node == Nodes(rest)[i - 1];
      UnderNested(x, path[0].node);
      ChainDown(x, path[0].node, path[i..]);
    } else {
      assert path[0..] == path;
    }
  }
}

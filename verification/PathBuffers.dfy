/** The same derivations on buffers that are shared and then wiped in place
    (src/path-secrets.ts, updatePrivateKeyPath in src/process-messages.ts,
    deriveWelcomePrivateKeyPath in src/private-key-path.ts, applyUpdatePathSecret
    in src/create-commit.ts). */
module PathBuffers {
  import opened Options
  import opened Terms
  import opened TreeMath
  import opened RatchetTree
  import opened UpdatePaths
  import opened PrivateKeys

  /** A byte buffer holding one secret. */
  class Buffer {
    var value: Secret

    constructor (value: Secret)
      ensures this.value == value
    {
      this.value := value;
    }
  }

  function Values(secrets: map<nat, Buffer>): map<nat, Secret>
    reads secrets.Values
  {
    map n | n in secrets :: secrets[n].value
  }

  method DeriveSecret(from: Buffer, tag: Label) returns (r: Buffer)
    ensures fresh(r) && r.value == Derived(from.value, tag)
  {
    r := new Buffer(Derived(from.value, tag));
  }

  datatype HeldAlong = HeldAlong(secrets: map<nat, Buffer>, last: Buffer)

  lemma {:induction false} MapStep(m: map<nat, Secret>, n: nat, x: Secret, rest: map<nat, Secret>)
    ensures m + (map[n := x] + rest) == m[n := x] + rest
  {
  }

  lemma {:induction false} SuffixStep(path: seq<PathEntry>, j: nat, secret: Secret)
    requires j < |path|
    ensures SecretsMap(path[j..], secret) ==
      map[path[j].node := secret] + SecretsMap(path[j + 1..], Derived(secret, PathLabel))
  {
    assert path[j..][0] == path[j] && path[j..][1..] == path[j + 1..];
  }

  /** The record's buffers hold exactly the values of `m`. */
  ghost predicate Holds(secrets: map<nat, Buffer>, m: map<nat, Secret>)
    reads secrets.Values
  {
    m.Keys == secrets.Keys && forall n | n in m :: secrets[n].value == m[n]
  }

  lemma {:induction false} HoldsValues(secrets: map<nat, Buffer>, m: map<nat, Secret>)
    requires Holds(secrets, m)
    ensures Values(secrets) == m
  {
  }

  lemma {:induction false} LaterNodes(t: Tree, s: nat, i: nat)
    requires Full(|t|) && 2 * s < |t| && i < |FilteredPath(t, s)|
    ensures forall j | i < j < |FilteredPath(t, s)| :: FilteredPath(t, s)[j].node != FilteredPath(t, s)[i].node
  {
    var path := FilteredPath(t, s);
    var n, rest := path[i].node, path[i + 1..];
    FilteredChain(t, 2 * s);
    ChainSuffix(2 * s, path, i);
    Span(n);
    UnderNotAbove(n, n, rest);
    forall j | i < j < |path| ensures path[j].node != n { assert Nodes(rest)[j - i - 1] == path[j].node; }
  }

  method NextSecret(secrets: map<nat, Buffer>, last: Buffer, n: nat, ghost m: map<nat, Secret>)
      returns (secrets': map<nat, Buffer>, last': Buffer, ghost m': map<nat, Secret>)
    requires Holds(secrets, m)
    ensures fresh(last') && last'.value == Derived(last.value, PathLabel) && secrets' == secrets[n := last']
    ensures m' == m[n := last'.value] && Holds(secrets', m')
  {
    last' := DeriveSecret(last, PathLabel);
    secrets' := secrets[n := last'];
    m' := m[n := last'.value];
  }

  /** `m` and what the rest of the path derives from `last` are all the path gives. */
  ghost predicate SoFar(path: seq<PathEntry>, i: nat, first: Secret, m: map<nat, Secret>, j: nat, last: Secret) {
    i <= |path| && j <= |path| && m + SecretsMap(path[j..], Derived(last, PathLabel)) == SecretsMap(path[i..], first)
  }

  lemma {:induction false} SoFarStart(path: seq<PathEntry>, i: nat, first: Secret)
    requires i < |path|
    ensures SoFar(path, i, first, One(path[i].node, first), i + 1, first)
  {
    SuffixStep(path, i, first);
  }

  lemma {:induction false} SoFarStep(
      path: seq<PathEntry>, i: nat, first: Secret, m: map<nat, Secret>, j: nat, last: Secret)
    requires SoFar(path, i, first, m, j, last) && j < |path|
    ensures SoFar(path, i, first, m[path[j].node := Derived(last, PathLabel)], j + 1, Derived(last, PathLabel))
  {
    var next := Derived(last, PathLabel);
    SuffixStep(path, j, next);
    MapStep(m, path[j].node, next, SecretsMap(path[j + 1..], Derived(next, PathLabel)));
  }

  lemma {:induction false} SoFarDone(path: seq<PathEntry>, i: nat, first: Secret, m: map<nat, Secret>, last: Secret)
    requires SoFar(path, i, first, m, |path|, last)
    ensures m == SecretsMap(path[i..], first)
  {
    assert path[|path|..] == [] && SecretsMap([], Derived(last, PathLabel)) == map[];
  }

  /** pathSecretsAlongFilteredPath: the first secret is the caller's own buffer,
      and the last one handed back is also in the record. */
  method PathSecretsAlongFilteredPath(t: Tree, s: nat, node: nat, pathSecret: Buffer) returns (r: Result<HeldAlong>)
    requires Full(|t|) && 2 * s < |t|
    ensures r.Err? <==> PathSecretsAlong(t, s, node, pathSecret.value).Err?
    ensures r.Err? ==> r.error == NotOnPath
    ensures r.Ok? ==>
      Values(r.value.secrets) == PathSecretsAlong(t, s, node, pathSecret.value).value.secrets
      && r.value.last.value == PathSecretsAlong(t, s, node, pathSecret.value).value.last
      && r.value.last in r.value.secrets.Values && pathSecret in r.value.secrets.Values
      && (forall b | b in r.value.secrets.Values :: b == pathSecret || fresh(b))
  {
    hide FilteredPath, Holds, SoFar, SecretsMap, One;
    var path := FilteredPath(t, s);
    var start := FindEntry(path, node);
    if start.None? { return Err(NotOnPath); }
    var i := start.value;
    LaterNodes(t, s, i);
    var secrets: map<nat, Buffer>, last, j := map[node := pathSecret], pathSecret, i + 1;
    ghost var m: map<nat, Secret> := One(node, pathSecret.value);
    ghost var at := node;
    HoldsOne(node, pathSecret);
    SoFarStart(path, i, pathSecret.value);
    while j < |path|
      invariant i < j <= |path|
      invariant node in secrets && secrets[node] == pathSecret && at in secrets && secrets[at] == last
      invariant forall n | n in secrets :: secrets[n] == pathSecret || fresh(secrets[n])
      invariant last.value == PathSecretAt(pathSecret.value, j - 1 - i)
      invariant Holds(secrets, m)
      invariant SoFar(path, i, pathSecret.value, m, j, last.value)
    {
      SoFarStep(path, i, pathSecret.value, m, j, last.value);
      secrets, last, m := NextSecret(secrets, last, path[j].node, m);
      at := path[j].node;
      j := j + 1;
    }
    SoFarDone(path, i, pathSecret.value, m, last.value);
    HoldsValues(secrets, m);
    return Ok(HeldAlong(secrets, last));
  }

  function One(n: nat, secret: Secret): map<nat, Secret> {
    map[n := secret]
  }

  lemma {:induction false} HoldsOne(n: nat, b: Buffer)
    ensures Holds(map[n := b], One(n, b.value))
  {
  }

  /** zeroPathSecrets. */
  method ZeroPathSecrets(secrets: map<nat, Buffer>)
    modifies secrets.Values
    ensures forall b | b in secrets.Values :: b.value == Zero
  {
    var left := secrets.Values;
    while left != {}
      invariant left <= secrets.Values
      invariant forall b | b in secrets.Values && b !in left :: b.value == Zero
      decreases left
    {
      var b :| b in left;
      b.value := Zero;
      left := left - {b};
    }
  }

  /** The search for a ciphertext this member can open. */
  method FindPathSecret(t: Tree, p: PrivatePath, s: nat, context: GroupContext, path: UpdatePath, exclude: seq<nat>)
      returns (r: Result<(nat, Secret)>)
    requires Full(|t|) && 2 * s < |t|
    ensures r == ApplyPathSecret(t, p, s, context, path, exclude)
  {
    hide FilteredPath;
    var entries := FilteredPath(t, s);
    var found := FirstMatch(entries, p.leaf);
    if found.None? { return Err(NoCommonAncestor); }
    var i := found.value;
    if i >= |path.nodes| { return Err(MissingPathNode); }
    var nodes := FilterNew(entries[i].resolution, exclude);
    if |path.nodes[i].sealed| != |nodes| { return Err(CiphertextCount); }
    var k := 0;
    while k < |nodes|
      invariant 0 <= k <= |nodes|
      invariant forall j | 0 <= j < k :: nodes[j] !in p.keys
    {
      if nodes[k] in p.keys {
        FirstHeldIs(nodes, p.keys, k);
        var plain := Open(p.keys[nodes[k]], context, path.nodes[i].sealed[k]);
        if plain.None? { return Err(DecryptFailed); }
        return Ok((entries[i].node, plain.value));
      }
      k := k + 1;
    }
    return Err(NoOverlap);
  }

  lemma {:induction false} FirstHeldIs(nodes: seq<nat>, keys: map<nat, Secret>, k: nat)
    requires k < |nodes| && nodes[k] in keys && forall j | 0 <= j < k :: nodes[j] !in keys
    ensures FirstHeld(nodes, keys) == Some(k)
  {
  }

  /** updatePrivateKeyPath. The commit secret comes from the very buffer that is
      wiped at the end, so it is derived first; what is returned is what the
      derivation on values returns, and no path secret is left behind. */
  method UpdatePrivateKeyPath(
      t: Tree, p: PrivatePath, s: nat, context: GroupContext, path: UpdatePath, exclude: seq<nat>)
      returns (r: Result<(PrivatePath, Secret)>, used: set<Buffer>)
    requires Full(|t|) && 2 * s < |t|
    ensures r == ReceivePath(t, p, s, context, path, exclude)
    ensures fresh(used) && (r.Ok? ==> forall b | b in used :: b.value == Zero)
  {
    hide ApplyPathSecret, PathSecretsAlong, ToPrivatePath;
    used := {};
    var found := FindPathSecret(t, p, s, context, path, exclude);
    if found.Err? { return Err(found.error), {}; }
    var pathSecret := new Buffer(found.value.1);
    used := {pathSecret};
    var along := PathSecretsAlongFilteredPath(t, s, found.value.0, pathSecret);
    if along.Err? {
      AlongError(t, s, found.value.0, found.value.1);
      return Err(along.error), used;
    }
    used := along.value.secrets.Values;
    var commitSecret := DeriveSecret(along.value.last, PathLabel);
    var keys := ToPrivatePath(Values(along.value.secrets), p.leaf, Some(t));
    if keys.Err? { return Err(keys.error), used; }
    ZeroPathSecrets(along.value.secrets);
    return Ok((keys.value, commitSecret.value)), used;
  }

  lemma {:induction false} AlongError(t: Tree, s: nat, node: nat, secret: Secret)
    requires Full(|t|) && 2 * s < |t|
    ensures PathSecretsAlong(t, s, node, secret).Err? ==> PathSecretsAlong(t, s, node, secret).error == NotOnPath
  {
  }

  /** deriveWelcomePrivateKeyPath; the joiner's own path secret buffer is wiped too. */
  method DeriveWelcomePrivateKeyPath(
      t: Tree, s: nat, ancestor: nat, pathSecret: Buffer, p: PrivatePath) returns (r: Result<PrivatePath>)
    requires Full(|t|) && 2 * s < |t|
    modifies pathSecret
    ensures r == WelcomeKeys(t, s, ancestor, old(pathSecret.value), p)
    ensures r.Ok? ==> pathSecret.value == Zero
  {
    hide PathSecretsAlong, ToPrivatePath, PruneBlanked, MergePaths;
    var along := PathSecretsAlongFilteredPath(t, s, ancestor, pathSecret);
    if along.Err? {
      AlongError(t, s, ancestor, pathSecret.value);
      return Err(along.error);
    }
    var fromPath := ToPrivatePath(Values(along.value.secrets), p.leaf, Some(t));
    if fromPath.Err? { return Err(fromPath.error); }
    AlongStart(t, s, ancestor, pathSecret.value);
    ZeroPathSecrets(along.value.secrets);
    return Ok(PruneBlanked(MergePaths(fromPath.value, p), t));
  }

  lemma {:induction false} AlongStart(t: Tree, s: nat, node: nat, secret: Secret)
    requires Full(|t|) && 2 * s < |t| && PathSecretsAlong(t, s, node, secret).Ok?
    ensures node in PathSecretsAlong(t, s, node, secret).value.secrets
  {
  }

  // ---- records filled in a loop ----

  method MergePrivateKeyPaths(a: PrivatePath, b: PrivatePath) returns (r: PrivatePath)
    ensures r == MergePaths(a, b)
  {
    var keys, left := a.keys, b.keys.Keys;
    while left != {}
      invariant left <= b.keys.Keys
      invariant keys == a.keys + (map n | n in b.keys && n !in left :: b.keys[n])
      decreases left
    {
      var n :| n in left;
      keys := keys[n := b.keys[n]];
      left := left - {n};
    }
    assert (map n | n in b.keys && n !in left :: b.keys[n]) == b.keys;
    return a.(keys := keys);
  }

  method PruneBlankedNodes(p: PrivatePath, t: Tree) returns (r: PrivatePath)
    ensures r == PruneBlanked(p, t)
  {
    var keys: map<nat, Secret>, left := map[], p.keys.Keys;
    while left != {}
      invariant left <= p.keys.Keys
      invariant keys == map n | n in p.keys && n !in left && At(t, n).Some? :: p.keys[n]
      decreases left
    {
      var n :| n in left;
      if At(t, n).Some? { keys := keys[n := p.keys[n]]; }
      left := left - {n};
    }
    return p.(keys := keys);
  }
}

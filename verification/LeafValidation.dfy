/** Checks on one leaf against the others (validateLeafNodeCommon and its one-pass
    LeafSummary, and hasDuplicateUint8Arrays, in src/client-state.ts). */
module LeafValidation {
  import opened Options
  import opened Terms
  import opened TreeMath
  import opened RatchetTree

  /** The fixed functions a client is configured with, and the clock. */
  datatype Env = Env(
    credentialOk: (Credential, PublicKey, Option<Credential>) -> bool,
    usableKey: PublicKey -> bool,
    usableSignatureKey: PublicKey -> bool,
    lifetimeOk: nat -> bool,
    validateLifetimeOnReceive: bool,
    sameClient: (KeyPackage, KeyPackage) -> bool,
    matchesLeaf: (KeyPackage, LeafNode) -> bool,
    externalSendersOk: seq<Extension> -> bool,
    psk: PskId -> Option<Secret>,
    supportedCustom: set<nat>)

  function NodeLeaf(t: Tree, x: nat): Option<LeafNode> {
    if At(t, x).Some? && At(t, x).value.Leaf? then Some(At(t, x).value.leaf) else None
  }

  function NodeParent(t: Tree, x: nat): Option<ParentNode> {
    if At(t, x).Some? && At(t, x).value.Inner? then Some(At(t, x).value.parent) else None
  }

  // ---- capabilities ----

  predicate ExtensionsSupported(exts: seq<Extension>, caps: Capabilities) {
    forall e | e in exts && e.CustomExtension? :: e.etype in caps.extensions
  }

  predicate CapabilitiesCover(required: Capabilities, caps: Capabilities) {
    && (forall c | c in required.credentials :: c in caps.credentials)
    && (forall e | e in required.extensions :: e in caps.extensions)
    && (forall p | p in required.proposals :: p in caps.proposals)
  }

  function FirstRequired(exts: seq<Extension>): Option<Extension> {
    if exts == [] then None
    else if exts[0].RequiredCapabilities? then Some(exts[0])
    else FirstRequired(exts[1..])
  }

  /** requiredCapabilitiesError finds nothing; data that does not decode is an error. */
  predicate MeetsRequired(caps: Capabilities, exts: seq<Extension>) {
    var r := FirstRequired(exts);
    r.None? || (r.value.RequiredCapabilities? && r.value.required.Some? &&
      CapabilitiesCover(r.value.required.value, caps))
  }

  // ---- the pairwise rules ----

  /** Every leaf lists this credential type. */
  predicate SupportedByEvery(t: Tree, ctype: nat) {
    forall x | 0 <= x < |t| && NodeLeaf(t, x).Some? :: ctype in NodeLeaf(t, x).value.capabilities.credentials
  }

  /** `leaf` lists the credential type of every leaf except the one it replaces. */
  predicate SupportsOthers(t: Tree, leaf: LeafNode, skip: Option<nat>) {
    forall x | 0 <= x < |t| && NodeLeaf(t, x).Some? && Some(x) != skip ::
      NodeLeaf(t, x).value.credential.ctype in leaf.capabilities.credentials
  }

  predicate KeysUnlikeOthers(t: Tree, leaf: LeafNode, skip: Option<nat>) {
    forall x | 0 <= x < |t| && NodeLeaf(t, x).Some? && Some(x) != skip ::
      NodeLeaf(t, x).value.hpkeKey != leaf.hpkeKey && NodeLeaf(t, x).value.sigKey != leaf.sigKey
  }

  predicate KeyUnlikeParents(t: Tree, key: PublicKey) {
    forall x | 0 <= x < |t| && NodeParent(t, x).Some? :: NodeParent(t, x).value.hpkeKey != key
  }

  function SkipNode(idx: Option<nat>): Option<nat> {
    if idx.Some? then Some(2 * idx.value) else None
  }

  /** validateLeafNodeCommon as a scan of all other leaves. */
  predicate CommonOk(env: Env, leaf: LeafNode, gc: GroupContext, t: Tree, idx: Option<nat>, prior: Option<Credential>) {
    && env.usableKey(leaf.hpkeKey)
    && env.credentialOk(leaf.credential, leaf.sigKey, prior)
    && MeetsRequired(leaf.capabilities, gc.extensions)
    && SupportedByEvery(t, leaf.credential.ctype)
    && SupportsOthers(t, leaf, SkipNode(idx))
    && ExtensionsSupported(leaf.extensions, leaf.capabilities)
    && KeysUnlikeOthers(t, leaf, SkipNode(idx))
    && KeyUnlikeParents(t, leaf.hpkeKey)
  }

  /** validateLeafNodeUpdateOrCommit. */
  predicate UpdateOrCommitOk(env: Env, leaf: LeafNode, l: nat, gc: GroupContext, t: Tree, prior: Option<Credential>) {
    && env.usableSignatureKey(leaf.sigKey)
    && leaf.sigKey == Pub(leaf.signature.signer) && leaf.signature.place == Some((gc.groupId, l))
    && CommonOk(env, leaf, gc, t, Some(l), prior)
  }

  /** validateKeyPackage. */
  predicate KeyPackageOk(env: Env, kp: KeyPackage, gc: GroupContext, t: Tree, sentByClient: bool) {
    && kp.suite == gc.suite && kp.version == gc.version
    && env.usableSignatureKey(kp.leaf.sigKey)
    && kp.leaf.source.FromKeyPackage?
    && kp.leaf.sigKey == Pub(kp.leaf.signature.signer) && kp.leaf.signature.place == None
    && (sentByClient || env.validateLifetimeOnReceive ==> env.lifetimeOk(kp.leaf.source.lifetime))
    && CommonOk(env, kp.leaf, gc, t, None, None)
    && kp.leaf.sigKey == Pub(kp.signedBy)
    && kp.initKey != kp.leaf.hpkeKey && env.usableKey(kp.initKey)
  }

  // ---- one pass over the tree instead ----

  datatype LeafSummary = LeafSummary(
    supportedByAll: Option<set<nat>>,
    credentialTypes: map<nat, nat>,
    leafKeys: map<PublicKey, nat>,
    signatureKeys: map<PublicKey, nat>,
    parentKeys: set<PublicKey>)

  function CredentialType(l: LeafNode): nat { l.credential.ctype }
  function HpkeKey(l: LeafNode): PublicKey { l.hpkeKey }
  function SignatureKey(l: LeafNode): PublicKey { l.sigKey }

  /** How many leaves among the first `n` nodes carry `k`. */
  function CountOf<K(==)>(t: Tree, n: nat, keyOf: LeafNode -> K, k: K): nat
    requires n <= |t|
  {
    if n == 0 then 0 else
    var here := if NodeLeaf(t, n - 1).Some? && keyOf(NodeLeaf(t, n - 1).value) == k then 1 else 0;
    here + CountOf(t, n - 1, keyOf, k)
  }

  function Tally<K(==)>(counts: map<K, nat>, k: K): nat {
    if k in counts then counts[k] else 0
  }

  ghost predicate Counts<K(!new)>(counts: map<K, nat>, t: Tree, n: nat, keyOf: LeafNode -> K)
    requires n <= |t|
  {
    forall k: K :: Tally(counts, k) == CountOf(t, n, keyOf, k)
  }

  ghost predicate SupportedIs(s: Option<set<nat>>, t: Tree, n: nat)
    requires n <= |t|
  {
    && (s.None? <==> forall x | 0 <= x < n :: NodeLeaf(t, x).None?)
    && (s.Some? ==> forall c: nat :: c in s.value <==>
          forall x | 0 <= x < n && NodeLeaf(t, x).Some? :: c in NodeLeaf(t, x).value.capabilities.credentials)
  }

  ghost predicate Summarizes(s: LeafSummary, t: Tree, n: nat)
    requires n <= |t|
  {
    && SupportedIs(s.supportedByAll, t, n)
    && Counts(s.credentialTypes, t, n, CredentialType)
    && Counts(s.leafKeys, t, n, HpkeKey)
    && Counts(s.signatureKeys, t, n, SignatureKey)
    && (forall k: PublicKey :: k in s.parentKeys <==>
          exists x :: 0 <= x < n && NodeParent(t, x).Some? && NodeParent(t, x).value.hpkeKey == k)
  }

  function Increment<K(==)>(counts: map<K, nat>, k: K): map<K, nat> {
    counts[k := Tally(counts, k) + 1]
  }

  lemma {:induction false} IncrementCounts<K(!new)>(counts: map<K, nat>, t: Tree, n: nat, keyOf: LeafNode -> K)
    requires n < |t| && Counts(counts, t, n, keyOf) && NodeLeaf(t, n).Some?
    ensures Counts(Increment(counts, keyOf(NodeLeaf(t, n).value)), t, n + 1, keyOf)
  {
    var counts' := Increment(counts, keyOf(NodeLeaf(t, n).value));
    forall k: K ensures Tally(counts', k) == CountOf(t, n + 1, keyOf, k) {
      assert Tally(counts, k) == CountOf(t, n, keyOf, k);
    }
  }

  lemma {:induction false} SkipCounts<K(!new)>(counts: map<K, nat>, t: Tree, n: nat, keyOf: LeafNode -> K)
    requires n < |t| && Counts(counts, t, n, keyOf) && NodeLeaf(t, n).None?
    ensures Counts(counts, t, n + 1, keyOf)
  {
    forall k: K ensures Tally(counts, k) == CountOf(t, n + 1, keyOf, k) {
      assert Tally(counts, k) == CountOf(t, n, keyOf, k);
    }
  }

  method SummarizeLeaves(t: Tree) returns (s: LeafSummary)
    ensures Summarizes(s, t, |t|)
  {
    s := LeafSummary(None, map[], map[], map[], {});
    var n := 0;
    while n < |t|
      invariant 0 <= n <= |t|
      invariant SupportedIs(s.supportedByAll, t, n)
      invariant Counts(s.credentialTypes, t, n, CredentialType)
      invariant Counts(s.leafKeys, t, n, HpkeKey)
      invariant Counts(s.signatureKeys, t, n, SignatureKey)
      invariant forall k: PublicKey :: k in s.parentKeys <==>
        exists x :: 0 <= x < n && NodeParent(t, x).Some? && NodeParent(t, x).value.hpkeKey == k
    {
      if t[n].Some? && t[n].value.Leaf? {
        var leaf := t[n].value.leaf;
        assert NodeLeaf(t, n) == Some(leaf);
        var listed := set c | c in leaf.capabilities.credentials;
        IncrementCounts(s.credentialTypes, t, n, CredentialType);
        IncrementCounts(s.leafKeys, t, n, HpkeKey);
        IncrementCounts(s.signatureKeys, t, n, SignatureKey);
        s := LeafSummary(
          Some(if s.supportedByAll.None? then listed else s.supportedByAll.value * listed),
          Increment(s.credentialTypes, CredentialType(leaf)),
          Increment(s.leafKeys, HpkeKey(leaf)),
          Increment(s.signatureKeys, SignatureKey(leaf)),
          s.parentKeys);
      } else {
        SkipCounts(s.credentialTypes, t, n, CredentialType);
        SkipCounts(s.leafKeys, t, n, HpkeKey);
        SkipCounts(s.signatureKeys, t, n, SignatureKey);
        if t[n].Some? {
          assert NodeParent(t, n) == Some(t[n].value.parent);
          s := s.(parentKeys := s.parentKeys + {t[n].value.parent.hpkeKey});
        }
      }
      n := n + 1;
    }
  }

  /** Leaves carrying `k`, the replaced leaf not counted. */
  function CountOthers<K(==)>(counts: map<K, nat>, k: K, excluded: Option<LeafNode>, keyOf: LeafNode -> K): int {
    Tally(counts, k) - (if excluded.Some? && keyOf(excluded.value) == k then 1 else 0)
  }

  lemma {:induction false} CountAbove<K>(t: Tree, n: nat, keyOf: LeafNode -> K, k: K, skip: Option<nat>)
    requires n <= |t|
    ensures CountOf(t, n, keyOf, k)
        > (if skip.Some? && skip.value < n && NodeLeaf(t, skip.value).Some? &&
          keyOf(NodeLeaf(t, skip.value).value) == k then 1 else 0)
      <==> exists x :: 0 <= x < n && NodeLeaf(t, x).Some? && Some(x) != skip && keyOf(NodeLeaf(t, x).value) == k
    ensures skip.Some? && skip.value < n && NodeLeaf(t, skip.value).Some? && keyOf(NodeLeaf(t, skip.value).value) == k
      ==> CountOf(t, n, keyOf, k) >= 1
  {
    if n > 0 { CountAbove(t, n - 1, keyOf, k, skip); }
  }

  function Replaced(t: Tree, idx: Option<nat>): Option<LeafNode> {
    if idx.Some? then LeafAt(t, idx.value) else None
  }

  /** countOthers is positive exactly when another leaf carries the key. */
  lemma {:induction false} CountOthersIff<K(!new)>(
      counts: map<K, nat>, t: Tree, idx: Option<nat>, keyOf: LeafNode -> K, k: K)
    requires Counts(counts, t, |t|, keyOf)
    ensures CountOthers(counts, k, Replaced(t, idx), keyOf) > 0
      <==>
      exists x ::
        && 0 <= x < |t| && NodeLeaf(t, x).Some?
        && Some(x) != SkipNode(idx) && keyOf(NodeLeaf(t, x).value) == k
  {
    CountAbove(t, |t|, keyOf, k, SkipNode(idx));
    assert Tally(counts, k) == CountOf(t, |t|, keyOf, k);
  }

  predicate InUseUnsupported(s: LeafSummary, leaf: LeafNode, replaced: Option<LeafNode>) {
    exists c | c in s.credentialTypes ::
      c !in leaf.capabilities.credentials && CountOthers(s.credentialTypes, c, replaced, CredentialType) > 0
  }

  /** validateLeafNodeCommon as the source runs it, on a summary. */
  method ValidateLeafNodeCommon(
      env: Env, leaf: LeafNode, gc: GroupContext, t: Tree, leaves: LeafSummary, idx: Option<nat>,
      prior: Option<Credential>)
      returns (ok: bool)
    requires Summarizes(leaves, t, |t|)
    ensures ok <==> CommonOk(env, leaf, gc, t, idx, prior)
  {
    if !env.usableKey(leaf.hpkeKey) { return false; }
    if !env.credentialOk(leaf.credential, leaf.sigKey, prior) { return false; }
    if !MeetsRequired(leaf.capabilities, gc.extensions) { return false; }
    var replaced := Replaced(t, idx);
    var ctype := leaf.credential.ctype;
    CredentialsAgree(leaves, t, leaf, idx);
    KeysAgree(leaves, t, leaf, idx);
    if leaves.supportedByAll.Some? && ctype !in leaves.supportedByAll.value { return false; }
    if InUseUnsupported(leaves, leaf, replaced) { return false; }
    if !ExtensionsSupported(leaf.extensions, leaf.capabilities) { return false; }
    if CountOthers(leaves.leafKeys, leaf.hpkeKey, replaced, HpkeKey) > 0
      || CountOthers(leaves.signatureKeys, leaf.sigKey, replaced, SignatureKey) > 0 { return false; }
    return leaf.hpkeKey !in leaves.parentKeys;
  }

  lemma {:induction false} CredentialsAgree(s: LeafSummary, t: Tree, leaf: LeafNode, idx: Option<nat>)
    requires Summarizes(s, t, |t|)
    ensures (s.supportedByAll.Some? && leaf.credential.ctype !in s.supportedByAll.value)
      <==> !SupportedByEvery(t, leaf.credential.ctype)
    ensures InUseUnsupported(s, leaf, Replaced(t, idx)) <==> !SupportsOthers(t, leaf, SkipNode(idx))
  {
    forall c: nat { CountOthersIff(s.credentialTypes, t, idx, CredentialType, c); }
    if !SupportsOthers(t, leaf, SkipNode(idx)) {
      var x :| 0 <= x < |t| && NodeLeaf(t, x).Some? && Some(x) != SkipNode(idx)
        && NodeLeaf(t, x).value.credential.ctype !in leaf.capabilities.credentials;
      var c := CredentialType(NodeLeaf(t, x).value);
      assert CountOthers(s.credentialTypes, c, Replaced(t, idx), CredentialType) > 0;
      assert c in s.credentialTypes;
    }
    if InUseUnsupported(s, leaf, Replaced(t, idx)) {
      var c :| c in s.credentialTypes && c !in leaf.capabilities.credentials
        && CountOthers(s.credentialTypes, c, Replaced(t, idx), CredentialType) > 0;
      var x :| 0 <= x < |t| && NodeLeaf(t, x).Some? && Some(x) != SkipNode(idx) &&
        CredentialType(NodeLeaf(t, x).value) == c;
      assert NodeLeaf(t, x).value.credential.ctype == c;
    }
  }

  lemma {:induction false} KeysAgree(s: LeafSummary, t: Tree, leaf: LeafNode, idx: Option<nat>)
    requires Summarizes(s, t, |t|)
    ensures (CountOthers(s.leafKeys, leaf.hpkeKey, Replaced(t, idx), HpkeKey) > 0
        || CountOthers(s.signatureKeys, leaf.sigKey, Replaced(t, idx), SignatureKey) > 0)
      <==> !KeysUnlikeOthers(t, leaf, SkipNode(idx))
    ensures leaf.hpkeKey in s.parentKeys <==> !KeyUnlikeParents(t, leaf.hpkeKey)
  {
    CountOthersIff(s.leafKeys, t, idx, HpkeKey, leaf.hpkeKey);
    CountOthersIff(s.signatureKeys, t, idx, SignatureKey, leaf.sigKey);
  }

  method HasDuplicate(keys: seq<Option<PublicKey>>) returns (found: bool)
    ensures found <==> exists i, j :: 0 <= i < j < |keys| && keys[i].Some? && keys[i] == keys[j]
  {
    var seen: set<PublicKey> := {};
    var n := 0;
    while n < |keys|
      invariant 0 <= n <= |keys|
      invariant forall k :: k in seen <==> exists i :: 0 <= i < n && keys[i] == Some(k)
      invariant forall i, j | 0 <= i < j < n && keys[i].Some? :: keys[i] != keys[j]
    {
      if keys[n].Some? {
        if keys[n].value in seen { return true; }
        seen := seen + {keys[n].value};
      }
      n := n + 1;
    }
    return false;
  }

  // ---- what the checks keep ----

  /** No two nodes of the tree carry one encryption key. */
  ghost predicate KeysDistinct(t: Tree) {
    forall x: nat, y: nat | x < y && At(t, x).Some? && At(t, y).Some? :: KeyOf(At(t, x).value) != KeyOf(At(t, y).value)
  }

  ghost predicate SignatureKeysDistinct(t: Tree) {
    forall x: nat, y: nat | x < y && NodeLeaf(t, x).Some? && NodeLeaf(t, y).Some? ::
      NodeLeaf(t, x).value.sigKey != NodeLeaf(t, y).value.sigKey
  }

  /** Each leaf lists every other leaf's credential type. */
  ghost predicate CredentialsSupported(t: Tree) {
    forall x: nat, y: nat | x != y && NodeLeaf(t, x).Some? && NodeLeaf(t, y).Some? ::
      NodeLeaf(t, x).value.credential.ctype in NodeLeaf(t, y).value.capabilities.credentials
  }

  ghost predicate LeavesOk(t: Tree) {
    KeysDistinct(t) && SignatureKeysDistinct(t) && CredentialsSupported(t)
  }

  ghost predicate SameKeys(t: Tree, u: Tree, x: nat) {
    At(t, x).Some? && At(u, x).Some? && KeyOf(At(u, x).value) == KeyOf(At(t, x).value) &&
      NodeLeaf(u, x) == NodeLeaf(t, x)
  }

  /** Putting a checked leaf at `n` keeps the rules, whatever else is blanked
      and whatever parents list. */
  lemma {:induction false} CheckedLeafKeeps(
      env: Env, leaf: LeafNode, gc: GroupContext, t: Tree, u: Tree, n: nat, idx: Option<nat>, prior: Option<Credential>)
    requires LeavesOk(t) && CommonOk(env, leaf, gc, t, idx, prior) && SkipNode(idx) in {None, Some(n)}
    requires idx.None? ==> At(t, n).None?
    requires At(u, n) == Some(Leaf(leaf))
    requires forall x: nat | x != n && At(u, x).Some? :: SameKeys(t, u, x)
    ensures LeavesOk(u)
  {
    forall x: nat | x != n && At(u, x).Some?
      ensures KeyOf(At(u, x).value) != leaf.hpkeKey
      ensures NodeLeaf(u, x).Some? ==>
        NodeLeaf(u, x).value.sigKey != leaf.sigKey
        && NodeLeaf(u, x).value.credential.ctype in leaf.capabilities.credentials
        && leaf.credential.ctype in NodeLeaf(u, x).value.capabilities.credentials
    {
      if NodeLeaf(t, x).None? { assert NodeParent(t, x).Some?; }
    }
  }

  lemma {:induction false} BlankingKeepsLeaves(t: Tree, u: Tree)
    requires LeavesOk(t)
    requires forall x: nat | At(u, x).Some? :: At(u, x) == At(t, x)
    ensures LeavesOk(u)
  {
    forall x: nat | NodeLeaf(u, x).Some? ensures NodeLeaf(u, x) == NodeLeaf(t, x) {}
  }
}

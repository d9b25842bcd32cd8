/** A new member that joins from an honest commit's Welcome reaches the
    committer's epoch with exactly the keys the tree says. */
module Joiners {
  import opened Options
  import opened Terms
  import opened TreeMath
  import opened RatchetTree
  import opened ParentHashes
  import opened UpdatePaths
  import opened LeafValidation
  import opened ClientStates
  import opened PrivateKeys
  import opened UnmergedLeaves
  import opened KeyOwnership
  import opened ParentHashKept
  import opened Proposals
  import opened Membership
  import opened PathRules
  import opened Commits
  import opened Joins
  import opened Agreement
  import opened Convergence
  import opened Receivers
  import ParentHashCheck
  import opened StandardLinks

  /** The private keys behind a key package. */
  predicate KeysFit(kp: KeyPackage, keys: PrivateKeyPackage) {
    kp.initKey == Pub(keys.initKey) && kp.leaf.hpkeKey == Pub(keys.hpkeKey) && kp.leaf.sigKey == Pub(keys.signKey)
  }

  // ---- what the Welcome carries ----

  lemma {:induction false} SealedAt(d: Draft, s: nat, joiner: Secret, added: seq<Added>)
    requires Full(|DraftTree(d)|) && 2 * s < |DraftTree(d)| && SealForAll(d, s, joiner, added).Ok?
    ensures var r := SealForAll(d, s, joiner, added).value;
      |r| == |added| && forall i | 0 <= i < |added| :: SealFor(d, s, joiner, added[i]) == Ok(r[i])
    decreases |added|
  {
    hide SealFor;
    if added != [] {
      SealedAt(d, s, joiner, added[1..]);
      var r, rest := SealForAll(d, s, joiner, added).value, SealForAll(d, s, joiner, added[1..]).value;
      forall i | 0 <= i < |added| ensures SealFor(d, s, joiner, added[i]) == Ok(r[i]) {
        if i > 0 { assert r[i] == rest[i - 1] && added[i] == added[1..][i - 1]; }
      }
    }
  }

  lemma {:induction false} AddsDistinct(t: Tree, m: Mutated, adds: seq<KeyPackage>, i: nat, j: nat)
    requires m.tree == t && AddedInOrder(m, adds) && KeysDistinct(t) && i < |adds| && j < |adds| && adds[i] == adds[j]
    ensures i == j
  {
    SameLeafSamePlace(t, m.added[i].leaf, m.added[j].leaf);
  }

  lemma {:induction false} SameLeafSamePlace(t: Tree, l: nat, k: nat)
    requires KeysDistinct(t) && LeafAt(t, l).Some?
    ensures LeafAt(t, l) == LeafAt(t, k) ==> l == k
  {
    assert l < k && LeafAt(t, k).Some? ==> KeyOf(At(t, 2 * l).value) != KeyOf(At(t, 2 * k).value);
    assert k < l && LeafAt(t, k).Some? ==> KeyOf(At(t, 2 * k).value) != KeyOf(At(t, 2 * l).value);
  }

  /** The sealed secrets a joiner finds are its own. */
  lemma {:induction false} FindsOwn(d: Draft, s: nat, joiner: Secret, adds: seq<KeyPackage>, i: nat)
    requires d.applied.kind.MemberCommit? && i < |adds|
    requires AddedInOrder(Mutated(d.applied.tree, d.applied.kind.added), adds) && KeysDistinct(d.applied.tree)
    requires Full(|DraftTree(d)|) && 2 * s < |DraftTree(d)| && SealForAll(d, s, joiner, d.applied.kind.added).Ok?
    ensures FindSealed(SealForAll(d, s, joiner, d.applied.kind.added).value, adds[i]).Some?
    ensures SealFor(d, s, joiner, d.applied.kind.added[i])
      == Ok(FindSealed(SealForAll(d, s, joiner, d.applied.kind.added).value, adds[i]).value)
  {
    hide KeysDistinct, JustAdded, FindSecret, FirstMatch;
    var added := d.applied.kind.added;
    var m, r := Mutated(d.applied.tree, added), SealForAll(d, s, joiner, added).value;
    SealedAt(d, s, joiner, added);
    assert SealFor(d, s, joiner, added[i]) == Ok(r[i]) && m.added[i].keyPackage == adds[i];
    assert r[i] in r;
    var f := FindSealed(r, adds[i]).value;
    var j :| 0 <= j < |r| && r[j] == f;
    assert SealFor(d, s, joiner, added[j]) == Ok(r[j]) && m.added[j].keyPackage == adds[j];
    AddsDistinct(d.applied.tree, m, adds, i, j);
  }

  // ---- what the proposals' checks say of an Add ----

  lemma {:induction false} AddsChecked(env: Env, t: Tree, adds: seq<KeyPackage>, gc: GroupContext, sent: bool, i: nat)
    requires Valid(t) && FoldAdds(env, t, adds, gc, sent).Ok? && i < |adds|
    ensures adds[i].suite == gc.suite && adds[i].version == gc.version
    decreases |adds|
  {
    hide CommonOk;
    if i > 0 {
      AddLeafAt(t, adds[0].leaf);
      AddsChecked(env, AddLeaf(t, adds[0].leaf).0, adds[1..], gc, sent, i - 1);
    }
  }

  /** What an accepted member commit tells of its Adds, its context and its pre-shared keys. */
  lemma {:induction false} AppliedAdds(env: Env, st: ClientState, props: seq<ProposalOrRef>, s: nat, applied: Applied)
    requires Valid(st.tree) && ApplyProposals(env, st, props, Some(s), true, None, MemberType) == Ok(applied)
    requires applied.kind.MemberCommit?
    ensures var g := Group(applied.all);
      && applied.kind.context == ContextAfter(st.context, g)
      && PskSecret(env, applied.pskIds, Zero, 0, |applied.pskIds|) == Ok(applied.pskSecret)
      && forall i | 0 <= i < |g.adds| ::
           g.adds[i].suite == st.context.suite && g.adds[i].version == st.context.version
           && ExtensionsSupported(applied.kind.context.extensions, g.adds[i].leaf.capabilities)
  {
    hide FoldAdds, FoldUpdates, FoldRemoves, PskSecret, ExtensionsAccepted, NewClients, PsksOk, OneChangePerLeaf,
      CommitterUntouched, ExtensionsSupported;
    var g := Group(applied.all);
    var gc := ContextAfter(st.context, g);
    FoldUpdatesValid(env, st.tree, st.tree, g.updates, gc);
    var u := FoldUpdates(env, st.tree, st.tree, g.updates, gc).value;
    FoldRemovesValid(st.tree, u, g.removes);
    var v := FoldRemoves(st.tree, u, g.removes).value;
    forall i | 0 <= i < |g.adds|
      ensures g.adds[i].suite == st.context.suite && g.adds[i].version == st.context.version
      ensures ExtensionsSupported(gc.extensions, g.adds[i].leaf.capabilities)
    {
      AddsChecked(env, v, g.adds, gc, true, i);
      assert g.adds[i] in g.adds;
    }
  }

  // ---- the path secret ----

  lemma {:induction false} FindSecretIs(path: seq<PathEntry>, x: nat, seed: Secret, exclude: seq<nat>, i: nat)
    requires Chain(x, path) && i < |path|
    ensures FindSecret(SecretsAbove(path, seed, exclude), path[i].node) == Some(PathSecretAt(seed, i + 1))
    decreases |path|
  {
    hide Under, Level;
    if i == 0 {
      assert PathSecretAt(seed, 1) == Derived(PathSecretAt(seed, 0), PathLabel);
    } else {
      NotOnRest(x, path);
      assert Nodes(path[1..])[i - 1] == path[i].node;
      FindSecretIs(path[1..], path[0].node, Derived(seed, PathLabel), exclude, i - 1);
      PathSecretShift(seed, i);
    }
  }

  /** The path of the new tree, and where it meets the way up from leaf `l`. */
  lemma {:induction false} MeetsPath(t: Tree, s: nat, l: nat) returns (i: nat)
    requires Valid(t) && HasLeaf(t, s) && HasLeaf(t, l) && s != l
    ensures i < |FilteredPath(t, s)| && FirstMatch(FilteredPath(t, s), l) == Some(i)
  {
    hide FilteredFrom, Resolution;
    LeavesApart(s, l);
    var c;
    i, c := CommonAncestor(t, 2 * s, l);
    MatchIs(FilteredPath(t, s), l, i);
  }

  lemma {:induction false} WelcomeKeysExact(
      t: Tree, u: Tree, s: nat, seed: Secret, l: nat, key: Secret, secrets: seq<PathSecret>, exclude: seq<nat>, i: nat)
    requires PathWritten(t, u, s, seed) && l != s && JustAdded(t, l) && KeyMatches(t, 2 * l, key)
    requires FirstMatch(FilteredPath(t, s), l) == Some(i) && secrets == SecretsAbove(FilteredPath(t, s), seed, exclude)
    ensures var k := JoinKeys(u, s, l, key, FindSecret(secrets, FilteredPath(t, s)[i].node));
      k.Ok? && k.value.leaf == l && Exact(u, k.value)
  {
    hide FilteredFrom, SecretsAbove, WelcomeKeys, Exact, KeyMatches, JustAdded, OnPath, Level;
    var path := FilteredPath(t, s);
    FilteredChain(t, 2 * s);
    JoinerExact(t, u, s, seed, l, key, i);
    FindSecretIs(path, 2 * s, seed, exclude, i);
    WelcomeLeaf(u, s, path[i].node, PathSecretAt(seed, i + 1), PrivatePath(l, map[2 * l := key]));
  }

  /** A just-added leaf, off the path or below it, after the commit: its keys are exact
      with the secret the Welcome carries, and without one nothing is missing. */
  lemma {:induction false} JoinKeysExact(
      env: Env, a: ClientState, o: CommitOptions, seed: Secret, d: Draft, x: Added, key: Secret, sealed: SealedSecrets,
      joiner: Secret)
    requires TreeOk(d.applied.tree) && HasLeaf(d.applied.tree, a.privatePath.leaf) && x.leaf != a.privatePath.leaf
    requires JustAdded(d.applied.tree, x.leaf) && KeyMatches(d.applied.tree, 2 * x.leaf, key)
    requires DraftPath(env, a, o, d.applied, seed) == Ok(d.created)
    requires Valid(DraftTree(d)) && 2 * a.privatePath.leaf < |DraftTree(d)|
    requires SealFor(d, a.privatePath.leaf, joiner, x) == Ok(sealed)
    ensures var k := JoinKeys(DraftTree(d), a.privatePath.leaf, x.leaf, key, sealed.secrets.pathSecret);
      k.Ok? && k.value.leaf == x.leaf && Exact(DraftTree(d), k.value)
  {
    hide UpdateOrCommitOk, NewTree, NewSenderLeaf, SealPath, Exact, FilteredFrom, TreeHash, WelcomeKeys, KeyMatches,
      FindSecret, SecretsAbove, FirstMatch, Resolution, TreeOk;
    var s, t, l := a.privatePath.leaf, d.applied.tree, x.leaf;
    assert Valid(t) by { TreeIsValid(t); }
    var i := MeetsPath(t, s, l);
    if d.created.None? {
      JoinerWithoutPath(t, l, key);
    } else {
      NewTreeWritten(t, s, CheckedContext(a, d.applied.kind), a.signKey, seed, PatchOf(o));
      WelcomeKeysExact(t, DraftTree(d), s, seed, l, key,
        SecretsAbove(FilteredPath(t, s), seed, ExcludedNodes(d.applied.kind)),
        ExcludedNodes(d.applied.kind), i);
    }
  }

  lemma {:induction false} TreeIsValid(t: Tree)
    requires TreeOk(t)
    ensures Valid(t)
  {
  }

  lemma {:induction false} WelcomeLeaf(t: Tree, s: nat, n: nat, secret: Secret, p: PrivatePath)
    requires Full(|t|) && 2 * s < |t|
    ensures WelcomeKeys(t, s, n, secret, p).Ok? ==> WelcomeKeys(t, s, n, secret, p).value.leaf == p.leaf
  {
  }

  lemma {:induction false} LeavesApart(s: nat, l: nat)
    requires s != l
    ensures !Under(2 * l, 2 * s)
  {
  }

  // ---- any Welcome ----

  /** Leaf `l`'s member is merged exactly at the ancestors on the signer's path,
      when a path secret comes with the Welcome, and nowhere when none does. */
  ghost predicate WelcomeCovers(t: Tree, signer: nat, l: nat, sent: bool)
    requires Full(|t|) && 2 * signer < |t|
  {
    forall n: nat | OnPath(l, n) && At(t, n).Some? ::
      l !in Unmerged(t, n) <==> sent && n in Nodes(FilteredPath(t, signer))
  }

  lemma {:induction false} MatchAbove(path: seq<PathEntry>, x: nat, l: nat, i: nat)
    requires Chain(x, path) && FirstMatch(path, l) == Some(i)
    ensures AboveFrom(path, l, i)
  {
    ChainSuffix(x, path, i);
    ChainAbove(path[i].node, path[i + 1..]);
    forall j | i <= j < |path| ensures OnPath(l, path[j].node) {
      if j > i {
        assert path[i + 1..][j - i - 1] == path[j];
        UnderTrans(2 * l, path[i].node, path[j].node);
      }
    }
  }

  /** The keys derived from a verified secret at entry `i`: those of the entries
      above, and where the tree is not blank there, its own. */
  lemma {:induction false} WelcomePath(t: Tree, path: seq<PathEntry>, x: nat, i: nat, secret: Secret, l: nat)
    requires Chain(x, path) && i < |path| && AboveFrom(path, l, i)
    requires ToPrivatePath(SecretsMap(path[i..], secret), l, Some(t)).Ok?
    ensures var p := ToPrivatePath(SecretsMap(path[i..], secret), l, Some(t)).value;
      && p.leaf == l && (forall n :: n in p.keys <==> n in Nodes(path) && OnPath(l, n))
      && (forall n | n in p.keys && At(t, n).Some? :: KeyMatches(t, n, p.keys[n]))
  {
    hide OnPath, Level;
    var m := SecretsMap(path[i..], secret);
    ChainSuffix(x, path, i);
    SecretsMapAt(path[i..], secret, x);
    forall n ensures n in m <==> n in Nodes(path) && OnPath(l, n) {
      SuffixNodes(path, i, n);
      if n in Nodes(path) && OnPath(l, n) {
        var j :| 0 <= j < |path| && Nodes(path)[j] == n;
        assert path[j].node == n;
      }
      if InSuffix(path, i, n) {
        SuffixInPath(path, i, n);
        var j :| i <= j < |path| && path[j].node == n;
        assert OnPath(l, path[j].node);
      }
    }
  }

  /** What the newcomer holds: its leaf's key and, from a path secret, the keys of
      its non-blank ancestors on the signer's path. */
  lemma {:induction false} JoinKeysAre(t: Tree, signer: nat, l: nat, key: Secret, secret: Option<Secret>)
    requires Valid(t) && HasLeaf(t, l) && KeyMatches(t, 2 * l, key) && 2 * signer < |t|
    requires JoinKeys(t, signer, l, key, secret).Ok?
    ensures var p := JoinKeys(t, signer, l, key, secret).value;
      && p.leaf == l && (forall n | n in p.keys :: KeyMatches(t, n, p.keys[n]))
      && (forall n :: n in p.keys <==>
           n == 2 * l ||
           (secret.Some? && OnPath(l, n) && At(t, n).Some? && n in Nodes(FilteredPath(t, signer))))
  {
    hide FilteredFrom, OnPath, Resolution, Level, ToPrivatePath;
    var path := FilteredPath(t, signer);
    FilteredChain(t, 2 * signer);
    var i := FirstMatch(path, l).value;
    MatchAbove(path, 2 * signer, l, i);
    if secret.Some? {
      ChainSuffix(2 * signer, path, i);
      WelcomePath(t, path, 2 * signer, i, secret.value, l);
    }
  }

  /** Whoever sent the Welcome, a newcomer that joins from it holds exactly the
      keys it must when and only when the Welcome's secret covers its ancestors. */
  lemma {:induction false} JoinExactIff(t: Tree, signer: nat, l: nat, key: Secret, secret: Option<Secret>)
    requires Valid(t) && HasLeaf(t, l) && KeyMatches(t, 2 * l, key) && 2 * signer < |t|
    requires JoinKeys(t, signer, l, key, secret).Ok?
    ensures Exact(t, JoinKeys(t, signer, l, key, secret).value) <==> WelcomeCovers(t, signer, l, secret.Some?)
  {
    hide FilteredFrom, JoinKeys, KeyMatches;
    JoinKeysAre(t, signer, l, key, secret);
    var p := JoinKeys(t, signer, l, key, secret).value;
    if Exact(t, p) {
      forall n: nat | OnPath(l, n) && At(t, n).Some?
        ensures l !in Unmerged(t, n) <==> secret.Some? && n in Nodes(FilteredPath(t, signer))
      {
        assert n in p.keys <==> OwnedBy(t, l, n);
        PathIsOdd(l, n);
      }
    }
  }

  // ---- the joiner's run of joinGroup ----

  /** The joiner's own policies, and the pre-shared keys of a resumption: all an honest Welcome can fail on. */
  predicate JoinPolicy(env: Env, t: Tree, signer: nat, gc: GroupContext, psks: seq<PskId>) {
    && (forall p | p in psks :: p.ResumptionPsk? ==> p.usage.ApplicationUsage?)
    && env.externalSendersOk(gc.extensions)
    && LeafAt(t, signer).Some?
    && env.credentialOk(LeafAt(t, signer).value.credential, LeafAt(t, signer).value.sigKey, None)
    && LeavesAccepted(env, t, gc)
  }

  /** An honest tree meets the standard's parent-hash rule. */
  lemma {:induction false} GoodMeetsStandard(t: Tree)
    requires GoodTree(t)
    ensures StandardVerified(t)
  {
    hide UnmergedOk, BothSides, HashesLinked, LeavesOk, ListsDistinct, ListsOrdered, StandardVerified,
      ParentHashCheck.ParentHashesVerified;
    LinkedVerified(t);
    OrderedDistinct(t);
    StandardVerifiedIff(t);
  }

  lemma {:induction false} GoodAccepted(env: Env, t: Tree, gc: GroupContext)
    requires GoodTree(t) && gc.treeHash == RootHash(t)
    ensures TreeAccepted(env, t, gc) <==> LeavesAccepted(env, t, gc)
  {
    hide LeavesAccepted, RootHash, UnmergedOk, BothSides, HashesLinked, KeysDistinct, SignatureKeysDistinct,
      CredentialsSupported;
    LinkedVerified(t);
  }

  lemma {:induction false} AcceptedLeaves(env: Env, t: Tree, gc: GroupContext)
    requires Valid(t) && KeysDistinct(t) && LeavesAccepted(env, t, gc)
    ensures LeavesOk(t)
  {
    hide KeysDistinct, MeetsRequired, ExtensionsSupported, KeyUnlikeParents, SupportedByEvery;
    forall x: nat, y: nat | x != y && NodeLeaf(t, x).Some? && NodeLeaf(t, y).Some?
      ensures NodeLeaf(t, x).value.sigKey != NodeLeaf(t, y).value.sigKey
      ensures NodeLeaf(t, x).value.credential.ctype in NodeLeaf(t, y).value.capabilities.credentials
    {
      assert LeafAccepted(env, t, gc, y, NodeLeaf(t, y).value);
      assert y % 2 == 0 && 2 * (y / 2) == y;
    }
  }

  /** What a joiner's checks leave open: a tree it accepts keeps every rule of an
      honest one exactly when each parent has members on both sides and lists its
      leaves in the order Adds do. */
  lemma {:induction false} AcceptedGoodIff(env: Env, t: Tree, gc: GroupContext)
    requires TreeAccepted(env, t, gc)
    ensures GoodTree(t) <==> BothSides(t) && ListsOrdered(t)
  {
    hide LeavesAccepted, RootHash, UnmergedOk, BothSides, ListsOrdered, HashesLinked, KeysDistinct,
      SignatureKeysDistinct, CredentialsSupported, ParentHashCheck.ParentHashesVerified;
    AcceptedLeaves(env, t, gc);
    VerifiedLinked(t);
  }

  lemma {:induction false} FindsOwnLeaf(t: Tree, l: nat, leaf: LeafNode)
    requires KeysDistinct(t) && Valid(t) && LeafAt(t, l) == Some(leaf)
    ensures FindLeaf(t, leaf, 0) == Some(l)
  {
    hide KeysDistinct;
    assert (2 * l) % 2 == 0 && NodeLeaf(t, 2 * l) == Some(leaf);
    var f := FindLeaf(t, leaf, 0);
    SameLeafSamePlace(t, l, f.value);
  }

  /** What the epoch's context keeps of the old one. */
  lemma {:induction false} EpochContext(a: ClientState, o: CommitOptions, d: Draft)
    requires d.context == CheckedContext(a, d.applied.kind) && d.applied.kind.MemberCommit?
    requires d.applied.kind.context == ContextAfter(a.context, Group(d.applied.all))
    ensures var gc := EpochOf(a, o, d).context;
      gc.suite == a.context.suite && gc.version == a.context.version &&
        gc.extensions == d.applied.kind.context.extensions
      && gc.treeHash == RootHash(DraftTree(d)) && gc.epoch == a.context.epoch + 1
  {
    hide RootHash;
  }

  /** What the Welcome of a commit that adds someone holds. */
  lemma {:induction false} WelcomeIs(env: Env, a: ClientState, o: CommitOptions, seed: Secret, d: Draft)
    requires Drafted(env, a, o, seed, d) && d.applied.kind.MemberCommit? && d.applied.kind.added != []
    ensures var s, e, r := a.privatePath.leaf, EpochOf(a, o, d), CreateCommit(env, a, o, seed).value;
      && Full(|DraftTree(d)|) && 2 * s < |DraftTree(d)|
      && SealForAll(d, s, e.secrets.joiner, d.applied.kind.added).Ok?
      && r.welcome == Some(Welcome(
           SealForAll(d, s, e.secrets.joiner, d.applied.kind.added).value, e.secrets.welcome,
           GroupInfo(e.context, e.message.tag, s, DraftTree(d), NewSignKey(a, o))))
  {
    hide DraftCommit, CommitterState, EpochOf, SealFor;
    DraftValid(env, a, o, seed);
    SealedAt(d, a.privatePath.leaf, EpochOf(a, o, d).secrets.joiner, d.applied.kind.added);
  }

  /** The joiner's leaf, its keys and its sealed secrets, side by side. */
  ghost predicate JoinsAs(
      a: ClientState, o: CommitOptions, d: Draft, x: Added, keys: PrivateKeyPackage, w: Welcome,
      sealed: SealedSecrets) {
    var e, t, s := EpochOf(a, o, d), DraftTree(d), a.privatePath.leaf;
    && GoodTree(t) && KeysFit(x.keyPackage, keys)
    && FindSealed(w.secrets, x.keyPackage) == Some(sealed) && sealed.to == x.keyPackage.initKey
    && sealed.secrets.joiner == e.secrets.joiner && sealed.secrets.psks == d.applied.pskIds
    && w.key == e.secrets.welcome && w.info == GroupInfo(e.context, e.message.tag, s, t, NewSignKey(a, o))
    && Signs(t, s, NewSignKey(a, o))
    && LeafAt(t, x.leaf) == Some(x.keyPackage.leaf)
    && e.context.suite == x.keyPackage.suite && e.context.version == x.keyPackage.version
    && ExtensionsSupported(e.context.extensions, x.keyPackage.leaf.capabilities)
    && e.context.treeHash == RootHash(t)
    && (var k := JoinKeys(t, s, x.leaf, keys.hpkeKey, sealed.secrets.pathSecret);
        k.Ok? && k.value.leaf == x.leaf && Exact(t, k.value))
  }

  /** The joiner `n`, at leaf `l`, is a member in good order of the epoch of `r`. */
  ghost predicate JoinedEpoch(r: ClientState, n: ClientState, l: nat) {
    && SameEpoch(r, n) && n.secretTree == r.secretTree && MemberOk(n)
    && n.privatePath.leaf == l && n.active == IsActive && n.pending == [] && n.updateKeys == map[]
  }

  lemma {:induction false} JoinRuns(
      env: Env, a: ClientState, o: CommitOptions, d: Draft, x: Added, keys: PrivateKeyPackage, w: Welcome,
      sealed: SealedSecrets, retain: int, maxPending: int)
    requires JoinsAs(a, o, d, x, keys, w, sealed)
    requires PskSecret(env, d.applied.pskIds, Zero, 0, |d.applied.pskIds|) == Ok(d.applied.pskSecret)
    ensures var j, e := JoinGroup(env, w, x.keyPackage, keys, retain, maxPending), EpochOf(a, o, d);
      && (j.Ok? <==> JoinPolicy(env, DraftTree(d), a.privatePath.leaf, e.context, d.applied.pskIds))
      && j != Err(MissingPathSecret)
      && (j.Ok? ==> JoinedEpoch(CommitterState(a, o, d), j.value, x.leaf))
  {
    hide TreeAccepted, LeavesAccepted, RootHash, JoinKeys, PskSecret, ExtensionsSupported, Exact, GoodTree,
      AddHistory, CommitterPath;
    GoodAccepted(env, DraftTree(d), EpochOf(a, o, d).context);
    GoodKeys(DraftTree(d));
    FindsOwnLeaf(DraftTree(d), x.leaf, x.keyPackage.leaf);
  }

  /** Whoever a commit adds joins exactly when its own policies allow, and then
      shares the committer's epoch; the missing-path-secret check never trips. */
  lemma {:induction false} JoinerConverges(
      env: Env, a: ClientState, o: CommitOptions, seed: Secret, d: Draft, i: nat, keys: PrivateKeyPackage, retain: int,
      maxPending: int)
    requires GoodTree(a.tree) && MemberOk(a) && Drafted(env, a, o, seed, d) && Fresh(seed, d.applied.tree)
    requires d.applied.kind.MemberCommit? && i < |d.applied.kind.added|
    requires KeysFit(d.applied.kind.added[i].keyPackage, keys)
    ensures var r, x := CreateCommit(env, a, o, seed).value, d.applied.kind.added[i];
      r.welcome.Some? &&
      var j := JoinGroup(env, r.welcome.value, x.keyPackage, keys, retain, maxPending);
      && (j.Ok? <==> JoinPolicy(env, r.state.tree, a.privatePath.leaf, r.state.context, d.applied.pskIds))
      && j != Err(MissingPathSecret)
      && (j.Ok? ==> JoinedEpoch(r.state, j.value, x.leaf))
  {
    hide ApplyProposals, CreateCommit, DraftCommit, Exact, GoodTree, JoinGroup, JoinPolicy, EpochOf, CommitterPath,
      AddHistory, SealForAll, DraftPath, RootHash, Fresh, MemberOk, JoinedEpoch;
    GoodKeys(a.tree);
    DraftFacts(env, a, o, seed, d);
    WelcomeIs(env, a, o, seed, d);
    var sealed := JoinsAsAdded(env, a, o, seed, d, i, keys);
    AppliedAdds(env, a, d.props, a.privatePath.leaf, d.applied);
    JoinRuns(env, a, o, d, d.applied.kind.added[i], keys, CreateCommit(env, a, o, seed).value.welcome.value, sealed,
      retain, maxPending);
  }

  lemma {:induction false} JoinsAsAdded(
      env: Env, a: ClientState, o: CommitOptions, seed: Secret, d: Draft, i: nat, keys: PrivateKeyPackage)
      returns (sealed: SealedSecrets)
    requires GoodTree(a.tree) && MemberOk(a) && Drafted(env, a, o, seed, d) && Fresh(seed, d.applied.tree)
    requires d.applied.kind.MemberCommit? && i < |d.applied.kind.added|
    requires KeysFit(d.applied.kind.added[i].keyPackage, keys)
    ensures CreateCommit(env, a, o, seed).value.welcome.Some?
    ensures JoinsAs(a, o, d, d.applied.kind.added[i], keys, CreateCommit(env, a, o, seed).value.welcome.value, sealed)
  {
    hide ApplyProposals, CreateCommit, DraftCommit, Exact, GoodTree, JoinKeys, EpochOf, SealFor, SealForAll,
      DraftPath, RootHash, Fresh, MemberOk, Covers, Signs, JustAdded, ExtensionsSupported, TreeOk, KeysDistinct;
    var s, x, e, added := a.privatePath.leaf, d.applied.kind.added[i], EpochOf(a, o, d), d.applied.kind.added;
    var g := Group(d.applied.all);
    GoodKeys(a.tree);
    DraftFacts(env, a, o, seed, d);
    WelcomeIs(env, a, o, seed, d);
    CommitterStays(env, a, d.props, s, d.applied);
    MemberCommitGood(env, a, d.props, s, true, None, d.applied);
    GoodKeys(d.applied.tree);
    GoodIsTreeOk(d.applied.tree);
    CommitterTreeGood(env, a, o, seed, d);
    CommitterKeysExact(env, a, o, seed, d);
    AppliedAdds(env, a, d.props, s, d.applied);
    EpochContext(a, o, d);
    AddedFacts(a.tree, s, d.applied, i, keys);
    FindsOwn(d, s, e.secrets.joiner, g.adds, i);
    sealed := FindSealed(SealForAll(d, s, e.secrets.joiner, added).value, g.adds[i]).value;
    SealForIs(d, s, e.secrets.joiner, x, sealed);
    JoinKeysExact(env, a, o, seed, d, x, keys.hpkeKey, sealed, e.secrets.joiner);
    OtherLeafKept(env, a, o, seed, d, x.leaf);
  }

  lemma {:induction false} SealForIs(d: Draft, s: nat, joiner: Secret, x: Added, sealed: SealedSecrets)
    requires Full(|DraftTree(d)|) && 2 * s < |DraftTree(d)| && SealFor(d, s, joiner, x) == Ok(sealed)
    ensures sealed.to == x.keyPackage.initKey && sealed.secrets.joiner == joiner
    ensures sealed.secrets.psks == d.applied.pskIds
  {
    hide FirstMatch, FindSecret, FilteredPath;
  }

  lemma {:induction false} AddedFacts(t: Tree, s: nat, applied: Applied, i: nat, keys: PrivateKeyPackage)
    requires CommitApplied(t, s, applied) && HasLeaf(t, s)
    requires applied.kind.MemberCommit? && i < |applied.kind.added| && KeysFit(applied.kind.added[i].keyPackage, keys)
    ensures var g, x := Group(applied.all), applied.kind.added[i];
      && AddedInOrder(Mutated(applied.tree, applied.kind.added), g.adds)
      && |applied.kind.added| == |g.adds| && x.keyPackage == g.adds[i]
      && x.leaf != s && JustAdded(applied.tree, x.leaf) && HasLeaf(applied.tree, x.leaf)
      && LeafAt(applied.tree, x.leaf) == Some(x.keyPackage.leaf) && KeyMatches(applied.tree, 2 * x.leaf, keys.hpkeKey)
  {
    var m := Mutated(applied.tree, applied.kind.added);
    assert m.added[i].leaf == applied.kind.added[i].leaf;
    assert Joined(m, applied.kind.added[i].leaf);
  }
}

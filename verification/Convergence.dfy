/** Everyone who stays in the group, and everyone who joins it, reaches the same
    epoch after a commit, holding exactly the keys the new tree says. */
module Convergence {
  import opened Options
  import opened Terms
  import opened TreeMath
  import opened RatchetTree
  import opened ParentHashes
  import opened UpdatePaths
  import opened LeafValidation
  import opened ClientStates
  import opened PrivateKeys
  import opened UnmergedLeaves
  import opened KeyOwnership
  import opened ParentHashKept
  import opened Proposals
  import opened Membership
  import opened PathRules
  import opened Commits
  import opened Agreement

  // ---- what every member keeps ----

  /** Pending proposals sent by members were sent by members of this epoch. */
  ghost predicate SendersKnown(st: ClientState) {
    forall r: Ref | FindPending(st.pending, r).Some? && FindPending(st.pending, r).value.leaf.Some? ::
      HasLeaf(st.tree, FindPending(st.pending, r).value.leaf.value)
  }

  ghost predicate Signs(t: Tree, l: nat, key: Secret) {
    LeafAt(t, l).Some? && LeafAt(t, l).value.sigKey == Pub(key)
  }

  /** The member's own state: exact keys, the signature key of its leaf, and
      pending proposals and Update keys that belong together. */
  ghost predicate MemberOk(st: ClientState) {
    && Valid(st.tree)
    && Exact(st.tree, st.privatePath)
    && Signs(st.tree, st.privatePath.leaf, st.signKey)
    && UpdateKeysOk(st)
    && SendersKnown(st)
  }

  lemma {:induction false} MemberHasLeaf(b: ClientState)
    requires MemberOk(b)
    ensures Valid(b.tree) && HasLeaf(b.tree, b.privatePath.leaf)
  {
  }

  // ---- what a member's commit does to the tree ----

  function AddedOf(kind: Kind): seq<Added> {
    if kind.MemberCommit? then kind.added else []
  }

  lemma {:induction false} SendersArePresent(st: ClientState, props: seq<ProposalOrRef>, s: nat, sender: SenderType)
    requires SendersKnown(st) && HasLeaf(st.tree, s)
    requires Resolve(props, st.pending, Some(s), sender).Ok?
    ensures SendersPresent(st.tree, Group(Resolve(props, st.pending, Some(s), sender).value).updates)
  {
    var all := Resolve(props, st.pending, Some(s), sender).value;
    ResolveAt(props, st.pending, Some(s), sender);
    forall u | u in Group(all).updates && u.sender.Some? ensures HasLeaf(st.tree, u.sender.value) {
      GroupedUpdates(all, u);
      var p :| p in all && p.proposal == Update(u.leaf) && p.leaf == u.sender;
      var i :| 0 <= i < |all| && all[i] == p;
      assert ComesFrom(all[i], props[i], st.pending, Some(s));
    }
  }

  lemma {:induction false} ReinitAlone(all: seq<ProposalWithSender>)
    requires |all| == 1 && Group(all).reinits != []
    ensures var g := Group(all); g.updates == [] && g.removes == [] && g.adds == []
  {
    assert all[..0] == [];
  }

  /** A member's accepted commit: the tree changes as its proposals say and the committer stays put. */
  ghost predicate CommitApplied(t: Tree, s: nat, applied: Applied) {
    var g := Group(applied.all);
    && !applied.kind.ExternalCommit?
    && OneChangePerLeaf(g)
    && MembershipChange(t, g, Mutated(applied.tree, AddedOf(applied.kind)))
    && s !in g.removes && UpdateFor(g.updates, s).None?
  }

  lemma {:induction false} NothingChanges(t: Tree, g: Grouped)
    requires Valid(t) && g.updates == [] && g.removes == [] && g.adds == []
    ensures MembershipChange(t, g, Mutated(t, []))
  {
  }

  lemma {:induction false} MemberCommitApplied(
      env: Env, st: ClientState, props: seq<ProposalOrRef>, s: nat, sent: bool, newLeaf: Option<LeafNode>,
      applied: Applied)
    requires Valid(st.tree) && SendersKnown(st) && HasLeaf(st.tree, s)
    requires ApplyProposals(env, st, props, Some(s), sent, newLeaf, MemberType) == Ok(applied)
    ensures CommitApplied(st.tree, s, applied)
    ensures Resolve(props, st.pending, Some(s), MemberType) == Ok(applied.all)
  {
    hide FoldUpdates, FoldRemoves, FoldAdds, PskSecret, ExtensionsAccepted, NewClients, PsksOk, MembershipChange;
    var all := Resolve(props, st.pending, Some(s), MemberType).value;
    var g := Group(all);
    SendersArePresent(st, props, s, MemberType);
    if g.reinits != [] {
      ReinitAlone(all);
      NothingChanges(st.tree, g);
    } else {
      MutationsEffect(env, st.tree, g, ContextAfter(st.context, g), sent);
    }
  }

  lemma {:induction false} MemberCommitGood(
      env: Env, st: ClientState, props: seq<ProposalOrRef>, s: nat, sent: bool, newLeaf: Option<LeafNode>,
      applied: Applied)
    requires GoodTree(st.tree)
    requires ApplyProposals(env, st, props, Some(s), sent, newLeaf, MemberType) == Ok(applied)
    ensures GoodTree(applied.tree)
  {
    var all := Resolve(props, st.pending, Some(s), MemberType).value;
    var g := Group(all);
    if g.reinits == [] { MutationsKeepRules(env, st.tree, g, ContextAfter(st.context, g), sent); }
  }

  // ---- the keys a member carries through the proposals ----

  lemma {:induction false} CarriedKeys(st: ClientState, applied: Applied, s: nat, key: Option<PendingKey>)
    requires MemberOk(st) && CommitApplied(st.tree, s, applied)
    requires st.privatePath.leaf !in Group(applied.all).removes
    requires KeyForUpdate(st, UpdateFor(Group(applied.all).updates, st.privatePath.leaf), key)
    ensures var l := st.privatePath.leaf;
      Covers(applied.tree, OwnPath(st, key)) && OwnPath(st, key).leaf == l
      && Signs(applied.tree, l, if key.Some? then OrElse(key.value.signature, st.signKey) else st.signKey)
  {
    var g, l, own := Group(applied.all), st.privatePath.leaf, OwnPath(st, key);
    assert Survives(st.tree, applied.tree, l) && UpdatedBy(st.tree, applied.tree, g.updates, l);
    assert OwnedBy(st.tree, l, 2 * l);
    assert KeyMatches(applied.tree, 2 * l, own.keys[2 * l]);
    SurvivorCovers(st.tree, applied.tree, st.privatePath, own);
  }

  // ---- a path over the tree the proposals leave ----

  lemma {:induction false} CommitSecretIs(
      t: Tree, s: nat, gc: GroupContext, signKey: Secret, seed: Secret, exclude: seq<nat>, patch: LeafPatch)
    requires Valid(t) && CreateUpdatePath(t, s, gc, signKey, seed, exclude, patch).Ok?
    ensures CommitSecret(Some(CreateUpdatePath(t, s, gc, signKey, seed, exclude, patch).value))
      == Derived(PathSecretAt(seed, |FilteredPath(t, s)|), PathLabel)
  {
    var path := FilteredPath(t, s);
    if path != [] { SecretsAboveAt(path, seed, exclude, |path| - 1); }
  }

  /** The path part of an honest commit, at a receiver whose tree is `r`: the
      committer's own tree, hash and commit secret, and exact keys. */
  lemma {:induction false} PathReceived(
      t: Tree, r: Tree, s: nat, gc: GroupContext, signKey: Secret, seed: Secret, sent: seq<nat>, patch: LeafPatch,
      external: bool, own: PrivatePath, exclude: seq<nat>)
    requires Valid(t) && Valid(r) && |t| == |r| && HasLeaf(t, s) && HasLeaf(r, s)
    requires forall y: nat | y != 2 * s :: At(t, y) == At(r, y)
    requires CreateUpdatePath(t, s, gc, signKey, seed, sent, patch).Ok?
    requires FreshPath(seed, r, s, external)
    requires Covers(t, own) && own.leaf != s && SameFilter(t, s, sent, exclude) && NoneOwned(t, own.leaf, exclude)
    ensures var c := CreateUpdatePath(t, s, gc, signKey, seed, sent, patch).value;
      var u := ApplyPathAs(r, s, c.path, external, own, gc, exclude);
      && u.Ok? && u.value.tree == c.tree && u.value.treeHash == c.treeHash == RootHash(c.tree)
      && u.value.commitSecret == CommitSecret(Some(c)) && u.value.keys.Some?
      && Exact(c.tree, PruneBlanked(MergePaths(own, u.value.keys.value), c.tree))
  {
    var c := CreateUpdatePath(t, s, gc, signKey, seed, sent, patch).value;
    HonestPathAccepted(t, r, s, gc, signKey, seed, sent, patch, external);
    NewTreeWritten(t, s, gc, signKey, seed, patch);
    ReceiverExact(t, c.tree, s, seed, own, NextContext(gc, c.treeHash), c.path, sent, exclude);
    CommitSecretIs(t, s, gc, signKey, seed, sent, patch);
  }

  lemma {:induction false} FilterUnaffected(resolution: seq<nat>, n: nat)
    requires n !in resolution
    ensures FilterNew(resolution, [n]) == FilterNew(resolution, [])
  {
    if resolution != [] { FilterUnaffected(resolution[1..], n); }
  }

  /** Skipping a blank leaf skips nothing. */
  lemma {:induction false} BlankFilter(t: Tree, s: nat, n: nat)
    requires Valid(t) && UnmergedOk(t) && HasLeaf(t, s) && (At(t, n).None? || n == 2 * s)
    ensures SameFilter(t, s, [], [n])
  {
    Span(2 * s);
    PathResolutions(t, 2 * s, 2 * s);
    forall e | e in FilteredPath(t, s) ensures FilterNew(e.resolution, []) == FilterNew(e.resolution, [n]) {
      FilterUnaffected(e.resolution, n);
    }
  }

  // ---- the committer ----

  /** What a successful createCommit went through. */
  ghost predicate Drafted(env: Env, st: ClientState, o: CommitOptions, seed: Secret, d: Draft) {
    && Valid(st.tree) && CreateCommit(env, st, o, seed).Ok? && DraftCommit(env, st, o, seed) == Ok(d)
  }

  lemma {:induction false} DraftFacts(env: Env, st: ClientState, o: CommitOptions, seed: Secret, d: Draft)
    requires Drafted(env, st, o, seed, d)
    ensures ApplyProposals(env, st, d.props, Some(st.privatePath.leaf), true, None, MemberType) == Ok(d.applied)
    ensures Valid(d.applied.tree) && !d.applied.kind.ExternalCommit? && d.context == CheckedContext(st, d.applied.kind)
    ensures DraftPath(env, st, o, d.applied, seed) == Ok(d.created)
    ensures CreateCommit(env, st, o, seed).value.state == CommitterState(st, o, d)
    ensures CreateCommit(env, st, o, seed).value.message == EpochOf(st, o, d).message
  {
    hide ApplyProposals, DraftPath, CommitterState, EpochOf, CreateWelcome;
    ApplyProposalsValid(env, st, d.props, Some(st.privatePath.leaf), true, None, MemberType);
  }

  function PatchOf(o: CommitOptions): LeafPatch {
    OrElse(o.patch, NoPatch)
  }

  /** The committer's new leaf keeps the rules: unpatched it says what the old
      one said, patched it was checked before the commit was made. */
  lemma {:induction false} CommitterLeafFits(
      env: Env, st: ClientState, o: CommitOptions, applied: Applied, seed: Secret, c: Created)
    requires Valid(applied.tree) && LeavesOk(applied.tree) && LeafAt(applied.tree, st.privatePath.leaf).Some?
    requires DraftPath(env, st, o, applied, seed) == Ok(Some(c))
    ensures Fits(applied.tree, 2 * st.privatePath.leaf, c.path.leaf)
  {
    var s := st.privatePath.leaf;
    if o.patch.None? {
      SameLeafFits(applied.tree, s, c.path.leaf);
    } else {
      CheckedLeafFits(env, c.path.leaf, CheckedContext(st, applied.kind), applied.tree, s,
        LeafCredential(applied.tree, s));
    }
  }

  lemma {:induction false} CommitterTreeGood(env: Env, st: ClientState, o: CommitOptions, seed: Secret, d: Draft)
    requires GoodTree(st.tree) && MemberOk(st) && Drafted(env, st, o, seed, d) && Fresh(seed, d.applied.tree)
    ensures GoodTree(DraftTree(d))
  {
    hide CreateCommit, DraftCommit, ApplyProposals, MemberOk, TreeOk, HashesLinked, LeavesOk, Fits, OthersOk,
      Fresh, NewSenderLeaf, NewTree, CommitApplied, Covers, Signs, SealPath, SecretsAbove, TreeHash, EpochOf,
      CommitterState, FilteredFrom, UpdateOrCommitOk;
    var s := st.privatePath.leaf;
    DraftFacts(env, st, o, seed, d);
    MemberCommitGood(env, st, d.props, s, true, None, d.applied);
    if d.created.Some? {
      var c := d.created.value;
      CommitterStays(env, st, d.props, s, d.applied);
      CommitterLeafFits(env, st, o, d.applied, seed, c);
      OthersFromAll(d.applied.tree, 2 * s);
      NewTreeKeepsRules(d.applied.tree, s, d.context, st.signKey, seed, PatchOf(o));
    }
  }

  /** Nothing a commit carries touches the committer's own leaf. */
  lemma {:induction false} CommitterStays(
      env: Env, st: ClientState, props: seq<ProposalOrRef>, s: nat, applied: Applied)
    requires MemberOk(st) && s == st.privatePath.leaf
    requires ApplyProposals(env, st, props, Some(s), true, None, MemberType) == Ok(applied)
    ensures CommitApplied(st.tree, s, applied) && HasLeaf(applied.tree, s)
    ensures LeafAt(applied.tree, s) == LeafAt(st.tree, s)
    ensures Covers(applied.tree, st.privatePath) && Signs(applied.tree, s, st.signKey)
  {
    MemberCommitApplied(env, st, props, s, true, None, applied);
    CarriedKeys(st, applied, s, None);
    assert UpdatedBy(st.tree, applied.tree, Group(applied.all).updates, s);
  }

  /** A patch is for a path. */
  lemma {:induction false} NoPatchHere(env: Env, st: ClientState, o: CommitOptions, applied: Applied, seed: Secret)
    requires Valid(applied.tree) && DraftPath(env, st, o, applied, seed) == Ok(None)
    ensures NewSignKey(st, o) == st.signKey
  {
    hide CreateUpdatePath, UpdateOrCommitOk;
  }

  lemma {:induction false} PathCommitterExact(
      env: Env, st: ClientState, o: CommitOptions, seed: Secret, applied: Applied, c: Created)
    requires Valid(applied.tree) && HasLeaf(applied.tree, st.privatePath.leaf) && Covers(applied.tree, st.privatePath)
    requires Signs(applied.tree, st.privatePath.leaf, st.signKey)
    requires DraftPath(env, st, o, applied, seed) == Ok(Some(c))
    ensures Valid(c.tree) && Exact(c.tree, CommitterKeys(st.privatePath, c.secrets, c.leafKey, c.tree))
    ensures Signs(c.tree, st.privatePath.leaf, NewSignKey(st, o))
  {
    hide Exact, Covers, SecretsAbove, SealPath, PathTree;
    var s, t, exclude := st.privatePath.leaf, applied.tree, ExcludedNodes(applied.kind);
    NewTreeWritten(t, s, CheckedContext(st, applied.kind), st.signKey, seed, PatchOf(o));
    CommitterExact(t, c.tree, s, seed, exclude, st.privatePath);
    assert c.secrets == HandedOn(FilteredPath(t, s), s, seed, exclude);
  }

  /** The committer's new keys are exact, and it signs for its new leaf. */
  lemma {:induction false} CommitterKeysExact(env: Env, st: ClientState, o: CommitOptions, seed: Secret, d: Draft)
    requires MemberOk(st) && Drafted(env, st, o, seed, d)
    ensures Exact(DraftTree(d), CommitterPath(st, d)) && Signs(DraftTree(d), st.privatePath.leaf, NewSignKey(st, o))
    ensures CommitterPath(st, d).leaf == st.privatePath.leaf && Valid(DraftTree(d))
  {
    hide CreateCommit, DraftCommit, ApplyProposals, MemberOk, Exact, Covers, CommitApplied, DraftPath, EpochOf,
      CommitterState, CommitterKeys, Signs;
    var s, t := st.privatePath.leaf, d.applied.tree;
    DraftFacts(env, st, o, seed, d);
    CommitterStays(env, st, d.props, s, d.applied);
    if d.created.None? {
      assert MergePaths(st.privatePath, PrivatePath(s, map[])) == st.privatePath;
      PruneExact(t, st.privatePath);
      NoPatchHere(env, st, o, d.applied, seed);
    } else {
      CommitterLeaf(st.privatePath, d.created.value.secrets, d.created.value.leafKey, d.created.value.tree);
      PathCommitterExact(env, st, o, seed, d.applied, d.created.value);
    }
  }

  /** After its own commit a member is still a member in good order. */
  lemma {:induction false} CommitterKeeps(env: Env, st: ClientState, o: CommitOptions, seed: Secret, d: Draft)
    requires GoodTree(st.tree) && MemberOk(st) && Drafted(env, st, o, seed, d) && Fresh(seed, d.applied.tree)
    ensures var r := CreateCommit(env, st, o, seed).value.state;
      GoodTree(r.tree) && MemberOk(r) && r.privatePath.leaf == st.privatePath.leaf
      && r.active != RemovedFromGroup
  {
    hide CreateCommit, DraftCommit, ApplyProposals, CommitterPath, GoodTree, DraftPath, Exact, Signs, DraftTree,
      EpochOf, AddHistory;
    DraftFacts(env, st, o, seed, d);
    CommitterTreeGood(env, st, o, seed, d);
    CommitterKeysExact(env, st, o, seed, d);
    NotFlagged(env, st, d.props, d.applied);
  }

  lemma {:induction false} NotFlagged(env: Env, st: ClientState, props: seq<ProposalOrRef>, applied: Applied)
    requires MemberOk(st)
    requires ApplyProposals(env, st, props, Some(st.privatePath.leaf), true, None, MemberType) == Ok(applied)
    ensures !applied.selfRemoved
  {
    hide Covers, Signs, CommitApplied, FoldUpdates, FoldRemoves, FoldAdds;
    CommitterStays(env, st, props, st.privatePath.leaf, applied);
  }
}

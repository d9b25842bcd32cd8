/** An external commit: the joiner and the members it does not replace reach the
    same epoch, agreeing on the joiner's leaf, which three places compute. */
module ExternalJoins {
  import opened Options
  import opened Terms
  import opened TreeMath
  import opened RatchetTree
  import opened ParentHashes
  import opened UpdatePaths
  import opened LeafValidation
  import opened ClientStates
  import opened PrivateKeys
  import opened UnmergedLeaves
  import opened KeyOwnership
  import opened ParentHashKept
  import opened Proposals
  import opened Membership
  import opened PathRules
  import opened Commits
  import opened Joins
  import opened Agreement
  import opened Convergence
  import opened Receivers
  import opened AcceptedCommits
  import opened Joiners

  /** The tree the joiner writes its path over: the group's, less its former
      leaf, with its key package's leaf added. */
  function JoinerTree(d: ExternalDraft, kp: KeyPackage): Tree
    requires Full(|d.base|)
  {
    AddLeaf(d.base, kp.leaf).0
  }

  function PriorCredential(t: Tree, removes: seq<nat>): Option<Credential> {
    if removes == [] then None else LeafCredential(t, removes[0])
  }

  /** A resync may replace only a leaf with the joiner's own signature key. */
  predicate ResyncMismatch(t: Tree, d: ExternalDraft) {
    d.removes != [] && (LeafAt(t, d.removes[0]).None? ||
      LeafAt(t, d.removes[0]).value.sigKey != d.created.path.leaf.sigKey)
  }

  predicate JoinerLeafRefused(env: Env, gi: GroupInfo, d: ExternalDraft) {
    !UpdateOrCommitOk(env, d.created.path.leaf, d.leaf, gi.context, d.base, PriorCredential(gi.tree, d.removes))
  }

  /** An external join drafted with the joiner's own keys against the group `gi` describes. */
  ghost predicate JoinMade(
      env: Env, gi: GroupInfo, kp: KeyPackage, keys: PrivateKeyPackage, resync: bool, seed: Secret, d: ExternalDraft) {
    && Valid(gi.tree) && DraftExternal(env, gi, kp, keys, resync, seed) == Ok(d) && KeysFit(kp, keys) && Full(|d.base|)
  }

  /** The same from a fresh seed. */
  ghost predicate JoinDrafted(
      env: Env, gi: GroupInfo, kp: KeyPackage, keys: PrivateKeyPackage, resync: bool, seed: Secret, d: ExternalDraft) {
    JoinMade(env, gi, kp, keys, resync, seed, d) && Fresh(seed, JoinerTree(d, kp))
  }

  /** The leaf index every side works out: the first blank leaf, or a new one. */
  lemma {:induction false} SameLeafIndex(t: Tree, kp: KeyPackage, leaf: LeafNode)
    requires Valid(t)
    ensures AddLeaf(t, kp.leaf).1 == NewLeafNode(t) == AddLeaf(t, leaf).1
    ensures var (u, n) := AddLeaf(t, kp.leaf);
      var (r, m) := AddLeaf(t, leaf);
      && Valid(u) && Valid(r) && |u| == |r| && HasLeaf(u, n / 2) && HasLeaf(r, n / 2)
      && LeafAt(u, n / 2) == Some(kp.leaf) && LeafAt(r, n / 2) == Some(leaf)
      && n % 2 == 0 && forall y: nat | y != n :: At(u, y) == At(r, y)
  {
    AddLeafAt(t, kp.leaf);
    AddLeafAt(t, leaf);
    var (u, n) := AddLeaf(t, kp.leaf);
    var (r, m) := AddLeaf(t, leaf);
    forall y: nat ensures At(u, y) == AddedAt(t, kp.leaf, n, y) && At(r, y) == AddedAt(t, leaf, n, y) {}
  }

  /** The draft, laid open. */
  lemma {:induction false} DraftIs(
      env: Env, gi: GroupInfo, kp: KeyPackage, keys: PrivateKeyPackage, resync: bool, seed: Secret, d: ExternalDraft)
    requires JoinMade(env, gi, kp, keys, resync, seed, d)
    ensures Former(env, gi.tree, kp, resync) == Ok(d.removes)
    ensures AfterResync(gi.tree, d.removes) == Ok(d.base) && Valid(d.base)
    ensures d.removes != [] ==> |d.removes| == 1 && HasLeaf(gi.tree, d.removes[0])
    ensures var t := JoinerTree(d, kp);
      && Valid(t) && HasLeaf(t, d.leaf) && JustAdded(t, d.leaf)
      && !HasLeaf(d.base, d.leaf) && 2 * d.leaf == NewLeafNode(d.base)
      && LeafAt(t, d.leaf) == Some(kp.leaf)
      && CreateUpdatePath(t, d.leaf, gi.context, keys.signKey, seed, [], NoPatch) == Ok(d.created)
  {
    hide CreateUpdatePath, Fresh, AddLeaf, RemoveLeaf;
    AddLeafAt(d.base, kp.leaf);
    SameLeafIndex(d.base, kp, kp.leaf);
    AddStepMember(d.base, kp.leaf, d.leaf);
  }

  // ---- the joiner's own state ----

  lemma {:induction false} ExternalKeysExact(
      env: Env, gi: GroupInfo, kp: KeyPackage, keys: PrivateKeyPackage, resync: bool, seed: Secret, d: ExternalDraft)
    requires JoinMade(env, gi, kp, keys, resync, seed, d)
    ensures Valid(d.created.tree) && Exact(d.created.tree, ExternalKeys(d)) && ExternalKeys(d).leaf == d.leaf
    ensures Signs(d.created.tree, d.leaf, keys.signKey)
    ensures d.created.treeHash == RootHash(d.created.tree)
  {
    hide DraftExternal, Fresh, Exact, PathTree, SealPath, JustAdded, AddLeaf;
    DraftIs(env, gi, kp, keys, resync, seed, d);
    var t := JoinerTree(d, kp);
    NewTreeWritten(t, d.leaf, gi.context, keys.signKey, seed, NoPatch);
    ExternalJoinerExact(t, d.created.tree, d.leaf, seed);
    assert d.created.secrets == HandedOn(FilteredPath(t, d.leaf), d.leaf, seed, []);
  }

  /** With a leaf the members accept, the new tree keeps every rule. */
  lemma {:induction false} ExternalTreeGood(
      env: Env, gi: GroupInfo, kp: KeyPackage, keys: PrivateKeyPackage, resync: bool, seed: Secret, d: ExternalDraft)
    requires GoodTree(gi.tree) && JoinDrafted(env, gi, kp, keys, resync, seed, d) && !JoinerLeafRefused(env, gi, d)
    ensures GoodTree(d.created.tree)
  {
    hide DraftExternal, Fresh, AddLeaf, JustAdded, TreeOk, HashesLinked, LeavesOk, OthersOk, CommonOk, PathTree,
      SealPath, SecretsAbove;
    DraftIs(env, gi, kp, keys, resync, seed, d);
    BaseGood(gi.tree, d.removes, d.base);
    AddKeepsTree(d.base, kp.leaf);
    AddKeepsHashes(d.base, kp.leaf);
    OthersAfterAdd(d.base, kp.leaf, 2 * d.leaf);
    var leaf := d.created.path.leaf;
    CheckedLeafFits(env, leaf, gi.context, d.base, d.leaf, PriorCredential(gi.tree, d.removes));
    FitsSame(d.base, JoinerTree(d, kp), 2 * d.leaf, leaf);
    NewTreeKeepsRules(JoinerTree(d, kp), d.leaf, gi.context, keys.signKey, seed, NoPatch);
  }

  // ---- a member's run of processCommit ----

  /** The joiner's proposals as a member resolves them. */
  function JoinerItems(removes: seq<nat>, kem: KemOutput): seq<ProposalWithSender> {
    (if removes == [] then [] else [ProposalWithSender(Remove(removes[0]), None, NewMemberCommitType)])
      + [ProposalWithSender(ExternalInit(kem), None, NewMemberCommitType)]
  }

  lemma {:induction false} ResolveValue(
      p: Proposal, rest: seq<ProposalOrRef>, pending: seq<Pending>, committer: Option<nat>, sender: SenderType)
    requires Resolve(rest, pending, committer, sender).Ok?
    ensures Resolve([ByValue(p)] + rest, pending, committer, sender)
      == Ok([ProposalWithSender(p, committer, sender)] + Resolve(rest, pending, committer, sender).value)
  {
    var all := [ByValue(p)] + rest;
    assert all[0] == ByValue(p) && all[1..] == rest;
  }

  lemma {:induction false} ItemsResolve(removes: seq<nat>, kem: KemOutput, pending: seq<Pending>)
    ensures Resolve(ByValues(ExternalProposals(removes, kem)), pending, None, NewMemberCommitType) ==
      Ok(JoinerItems(removes, kem))
  {
    var none: seq<ProposalOrRef> := [];
    var last := [ByValue(ExternalInit(kem))];
    ResolveValue(ExternalInit(kem), none, pending, None, NewMemberCommitType);
    assert last + none == last;
    if removes == [] {
      assert ByValues(ExternalProposals(removes, kem)) == last;
      assert JoinerItems(removes, kem) == [ProposalWithSender(ExternalInit(kem), None, NewMemberCommitType)] + [];
    } else {
      ResolveValue(Remove(removes[0]), last, pending, None, NewMemberCommitType);
      assert ByValues(ExternalProposals(removes, kem)) == [ByValue(Remove(removes[0]))] + last;
      assert Resolve(last, pending, None, NewMemberCommitType).value ==
        [ProposalWithSender(ExternalInit(kem), None, NewMemberCommitType)];
    }
  }

  lemma {:induction false} ItemsGroup(removes: seq<nat>, kem: KemOutput)
    requires |removes| <= 1
    ensures Group(JoinerItems(removes, kem)) == Grouped([], removes, [], [], [], [kem], [], [])
  {
    var items := JoinerItems(removes, kem);
    assert items[|items| - 1].proposal == ExternalInit(kem);
    assert Group([]) == Grouped([], [], [], [], [], [], [], []);
    if removes == [] {
      assert items[..0] == [];
    } else {
      var first := ProposalWithSender(Remove(removes[0]), None, NewMemberCommitType);
      assert items[..1] == [first] && [first][..0] == [];
      assert Group([first]) == Grouped([], removes, [], [], [], [], [], []);
    }
  }

  /** What a member of the group applies. */
  function JoinApplied(t: Tree, d: ExternalDraft, kem: KemOutput): Applied {
    Applied(
      d.base, Zero, [], true,
      ExternalCommit(ExternalInitSecret(kem.to, kem.encapsulation), d.leaf, PriorCredential(t, d.removes)), false,
      JoinerItems(d.removes, kem))
  }

  lemma {:induction false} JoinApplies(
      env: Env, b: ClientState, gi: GroupInfo, kp: KeyPackage, keys: PrivateKeyPackage, resync: bool, seed: Secret,
      d: ExternalDraft, kem: KemOutput)
    requires JoinMade(env, gi, kp, keys, resync, seed, d) && b.tree == gi.tree && kem.to == Pub(b.schedule.external)
    ensures Valid(b.tree) && ApplyProposals(
      env, b, ByValues(ExternalProposals(d.removes, kem)), None, false, Some(d.created.path.leaf), NewMemberCommitType)
      == if ResyncMismatch(gi.tree, d) then Err(BadResync) else Ok(JoinApplied(gi.tree, d, kem))
  {
    hide DraftExternal, Fresh, AddLeaf, RemoveLeaf, JustAdded, CreateUpdatePath, Resolve, Group;
    DraftIs(env, gi, kp, keys, resync, seed, d);
    ItemsResolve(d.removes, kem, b.pending);
    ItemsGroup(d.removes, kem);
    var props := ByValues(ExternalProposals(d.removes, kem));
    forall p | p in props ensures p.ByValue? {}
    EvenLeaf(gi.tree, d.removes);
  }

  lemma {:induction false} EvenLeaf(t: Tree, removes: seq<nat>)
    ensures removes != [] && HasLeaf(t, removes[0]) ==> At(t, 2 * removes[0]).Some?
  {
  }

  lemma {:induction false} JoinPathReceived(
      env: Env, gi: GroupInfo, kp: KeyPackage, keys: PrivateKeyPackage, resync: bool, seed: Secret, d: ExternalDraft,
      own: PrivatePath)
    requires JoinDrafted(env, gi, kp, keys, resync, seed, d) && TreeOk(JoinerTree(d, kp))
    requires Covers(JoinerTree(d, kp), own) && HasLeaf(d.base, own.leaf)
    ensures Valid(d.base)
    ensures var u := ApplyTreeUpdate(
        Some(d.created.path), NewMemberCommit, d.base, own, gi.context, [NewLeafNode(d.base)]);
      && u.Ok? && u.value.tree == d.created.tree && u.value.treeHash == d.created.treeHash
      && u.value.commitSecret == CommitSecret(Some(d.created)) && u.value.keys.Some?
      && Exact(d.created.tree, PruneBlanked(MergePaths(own, u.value.keys.value), d.created.tree))
  {
    hide DraftExternal, AddLeaf, JustAdded, CreateUpdatePath, ApplyUpdatePath, ReceivePath, Exact, Covers, UnmergedOk,
      BothSides, ApplyPathAs;
    DraftIs(env, gi, kp, keys, resync, seed, d);
    var t, s, leaf := JoinerTree(d, kp), d.leaf, d.created.path.leaf;
    SameLeafIndex(d.base, kp, leaf);
    var r := AddLeaf(d.base, leaf).0;
    JoinerLeafKey(t, s, gi.context, keys.signKey, seed, d.created);
    FreshWithLeaf(t, r, s, seed, leaf);
    BlankFilter(t, s, 2 * s);
    PathReceived(t, r, s, gi.context, keys.signKey, seed, [], NoPatch, true, own, [2 * s]);
  }

  lemma {:induction false} JoinerLeafKey(t: Tree, s: nat, gc: GroupContext, signKey: Secret, seed: Secret, c: Created)
    requires Valid(t) && CreateUpdatePath(t, s, gc, signKey, seed, [], NoPatch) == Ok(c)
    ensures c.path.leaf.hpkeKey == PathKey(seed, 0)
  {
  }

  /** In the receiver's tree the joiner's leaf carries the seed's own leaf key and no path key. */
  lemma {:induction false} FreshWithLeaf(t: Tree, r: Tree, s: nat, seed: Secret, leaf: LeafNode)
    requires Fresh(seed, t) && LeafAt(r, s) == Some(leaf) && leaf.hpkeKey == PathKey(seed, 0)
    requires forall y: nat | y != 2 * s :: At(t, y) == At(r, y)
    ensures FreshPath(seed, r, s, true)
  {
    forall i: nat | i > 0 ensures PathKey(seed, 0) != PathKey(seed, i) { PathKeysDistinct(seed, 0, i); }
    forall x: nat, i: nat | x != 2 * s && At(r, x).Some? ensures KeyOf(At(r, x).value) != PathKey(seed, i) {
      assert At(t, x) == At(r, x);
    }
  }

  lemma {:induction false} NoUpdateKey(keys: map<Ref, PendingKey>, ps: seq<Proposal>)
    ensures AppliedUpdateKey(keys, ByValues(ps)) == None
  {
    AppliedKeyFrom(keys, ByValues(ps));
  }

  lemma {:induction false} JoinPathError(
      env: Env, b: ClientState, gi: GroupInfo, o: ExternalOptions, d: ExternalDraft, kem: KemOutput)
    requires b.context == gi.context && LeafCredential(d.base, d.leaf) == None
    ensures PathError(env, b, ExternalContent(gi, o, d, kem), JoinApplied(gi.tree, d, kem))
      == if JoinerLeafRefused(env, gi, d) then Some(LeafRejected) else None
  {
    hide UpdateOrCommitOk;
  }

  /** What the joiner's message and state are. */
  lemma {:induction false} JoinResult(
      env: Env, e: ExternalInfo, kp: KeyPackage, keys: PrivateKeyPackage, o: ExternalOptions, seed: Secret,
      d: ExternalDraft)
    requires Valid(e.info.tree) && JoinExternal(env, e, kp, keys, o, seed).Ok?
    requires DraftExternal(env, e.info, kp, keys, o.resync, seed) == Ok(d)
    ensures var kem := Encapsulated(e.externalPub, o.encapsulation);
      var r, epoch := JoinExternal(env, e, kp, keys, o, seed).value, ExternalEpoch(e.info, keys, o, d, kem);
      && r.message == epoch.message && epoch.message.content == ExternalContent(e.info, o, d, kem)
      && r.state.context == epoch.context && r.state.schedule == epoch.secrets.derived.schedule
      && r.state.tree == d.created.tree
      && r.state.secretTree == NewSecretTree(d.created.tree, epoch.secrets.derived.encryption)
      && r.state.privatePath == ExternalKeys(d) && r.state.signKey == keys.signKey && r.state.tag == epoch.message.tag
      && r.state.pending == [] && r.state.updateKeys == map[] && r.state.active == IsActive
  {
    hide DraftExternal, TreeAccepted, NextEpochContext, InitializeEpoch, ConfirmationTag;
  }

  /** The joiner is a member in good order of the epoch it makes. */
  lemma {:induction false} ExternalJoinerKeeps(
      env: Env, e: ExternalInfo, kp: KeyPackage, keys: PrivateKeyPackage, o: ExternalOptions, seed: Secret,
      d: ExternalDraft)
    requires JoinExternal(env, e, kp, keys, o, seed).Ok? && JoinMade(env, e.info, kp, keys, o.resync, seed, d)
    ensures var n := JoinExternal(env, e, kp, keys, o, seed).value.state;
      MemberOk(n) && n.privatePath.leaf == d.leaf && n.context.epoch == e.info.context.epoch + 1
  {
    hide JoinExternal, DraftExternal, Exact, Signs, Fresh, InitializeEpoch, ConfirmationTag, CommitSecret;
    JoinResult(env, e, kp, keys, o, seed, d);
    ExternalKeysExact(env, e.info, kp, keys, o.resync, seed, d);
  }

  // ---- convergence ----

  /** A member the join does not replace either refuses it (a resync that names
      another client's leaf, or a leaf that breaks the rules) or reaches the joiner's epoch. */
  lemma {:induction false} ExternalConverges(
      env: Env, b: ClientState, e: ExternalInfo, kp: KeyPackage, keys: PrivateKeyPackage, o: ExternalOptions,
      seed: Secret, d: ExternalDraft)
    requires GoodTree(e.info.tree) && MemberOk(b)
    requires b.context == e.info.context && b.tree == e.info.tree
    requires b.tag == e.info.tag && e.externalPub == Pub(b.schedule.external)
    requires JoinExternal(env, e, kp, keys, o, seed).Ok? && JoinDrafted(env, e.info, kp, keys, o.resync, seed, d)
    requires b.privatePath.leaf !in d.removes
    ensures var r := JoinExternal(env, e, kp, keys, o, seed).value;
      var p := ProcessCommit(env, b, r.message, true);
      if ResyncMismatch(e.info.tree, d) then p == Err(BadResync)
      else if JoinerLeafRefused(env, e.info, d) then p == Err(LeafRejected)
      else p.Ok? && Converged(r.state, b, p.value)
  {
    hide JoinExternal, DraftExternal, ApplyProposals, AdvanceEpoch, PathError, Exact, Signs, Fresh,
      ResyncMismatch, JoinerLeafRefused, ExternalKeys, UpdateKeysOk, SendersKnown, GoodTree, ExternalEpoch,
      NewSecretTree, JoinApplied, Converged;
    var kem := Encapsulated(e.externalPub, o.encapsulation);
    JoinResult(env, e, kp, keys, o, seed, d);
    DraftIs(env, e.info, kp, keys, o.resync, seed, d);
    JoinApplies(env, b, e.info, kp, keys, o.resync, seed, d, kem);
    JoinPathError(env, b, e.info, o, d, kem);
    JoinAppliedIs(e.info.tree, d, kem);
    if !ResyncMismatch(e.info.tree, d) && !JoinerLeafRefused(env, e.info, d) {
      JoinAdvances(env, b, e, kp, keys, o, seed, d);
    }
  }

  lemma {:induction false} JoinAppliedIs(t: Tree, d: ExternalDraft, kem: KemOutput)
    ensures !JoinApplied(t, d, kem).selfRemoved && JoinApplied(t, d, kem).tree == d.base
  {
  }

  /** Same inputs, same schedule. */
  lemma {:induction false} JoinEpochAgrees(
      b: ClientState, e: ExternalInfo, keys: PrivateKeyPackage, o: ExternalOptions, d: ExternalDraft,
      update: TreeUpdate)
    requires b.context == e.info.context && b.tag == e.info.tag && Valid(d.base)
    requires ApplyTreeUpdate(
      Some(d.created.path), NewMemberCommit, d.base, b.privatePath, e.info.context, [NewLeafNode(d.base)]) == Ok(update)
    requires update.treeHash == d.created.treeHash && update.commitSecret == CommitSecret(Some(d.created))
    ensures var kem := Encapsulated(e.externalPub, o.encapsulation);
      var epoch, applied := ExternalEpoch(e.info, keys, o, d, kem), JoinApplied(e.info.tree, d, kem);
      AdvanceEpoch(b, epoch.message, applied)
        == Ok(ReceiverState(b, epoch.message, applied, None, update, epoch.context, epoch.secrets))
  {
    hide ApplyTreeUpdate;
    var kem := Encapsulated(e.externalPub, o.encapsulation);
    NoUpdateKey(b.updateKeys, ExternalProposals(d.removes, kem));
  }

  lemma {:induction false} JoinAdvances(
      env: Env, b: ClientState, e: ExternalInfo, kp: KeyPackage, keys: PrivateKeyPackage, o: ExternalOptions,
      seed: Secret, d: ExternalDraft)
    requires GoodTree(e.info.tree) && MemberOk(b)
    requires b.context == e.info.context && b.tree == e.info.tree
    requires b.tag == e.info.tag && e.externalPub == Pub(b.schedule.external)
    requires JoinExternal(env, e, kp, keys, o, seed).Ok? && JoinDrafted(env, e.info, kp, keys, o.resync, seed, d)
    requires b.privatePath.leaf !in d.removes
    ensures var kem, r := Encapsulated(e.externalPub, o.encapsulation), JoinExternal(env, e, kp, keys, o, seed).value;
      Valid(d.base) &&
      var p := AdvanceEpoch(b, r.message, JoinApplied(e.info.tree, d, kem));
      p.Ok? && Converged(r.state, b, p.value)
  {
    hide JoinExternal, JoinDrafted, DraftExternal, ApplyTreeUpdate, AdvanceEpoch, Exact, Covers, Signs, Fresh,
      AddLeaf, NewSecretTree, GoodTree, CommitSecret, AddHistory, ExternalEpoch, UpdateKeysOk, SendersKnown, JustAdded,
      TreeOk, LeafAt;
    var kem, l := Encapsulated(e.externalPub, o.encapsulation), b.privatePath.leaf;
    DraftedIs(env, e.info, kp, keys, o.resync, seed, d);
    hide JoinMade;
    JoinResult(env, e, kp, keys, o, seed, d);
    DraftIs(env, e.info, kp, keys, o.resync, seed, d);
    JoinerTreeOk(e.info.tree, d, kp);
    VacancyCovers(b, d.removes, d.base, kp.leaf);
    JoinPathReceived(env, e.info, kp, keys, o.resync, seed, d, b.privatePath);
    var update := ApplyTreeUpdate(
      Some(d.created.path), NewMemberCommit, d.base, b.privatePath, e.info.context, [NewLeafNode(d.base)]).value;
    JoinEpochAgrees(b, e, keys, o, d, update);
    JoinerElsewhere(env, e.info, kp, keys, o.resync, seed, d, l);
    NextIsConverged(b, JoinExternal(env, e, kp, keys, o, seed).value.state, d, e, keys, o, update);
  }

  lemma {:induction false} DraftedIs(
      env: Env, gi: GroupInfo, kp: KeyPackage, keys: PrivateKeyPackage, resync: bool, seed: Secret, d: ExternalDraft)
    requires JoinDrafted(env, gi, kp, keys, resync, seed, d)
    ensures Valid(gi.tree) && DraftExternal(env, gi, kp, keys, resync, seed) == Ok(d)
    ensures JoinMade(env, gi, kp, keys, resync, seed, d)
  {
  }

  lemma {:induction false} JoinerTreeOk(t: Tree, d: ExternalDraft, kp: KeyPackage)
    requires GoodTree(t) && AfterResync(t, d.removes) == Ok(d.base) && Valid(d.base)
    ensures TreeOk(JoinerTree(d, kp))
  {
    hide GoodTree, AddLeaf;
    BaseGood(t, d.removes, d.base);
    GoodIsTreeOk(d.base);
    AddKeepsTree(d.base, kp.leaf);
  }

  /** The member's next state against the joiner's. */
  lemma {:induction false} NextIsConverged(
      b: ClientState, r: ClientState, d: ExternalDraft, e: ExternalInfo, keys: PrivateKeyPackage, o: ExternalOptions,
      update: TreeUpdate)
    requires MemberOk(b) && update.tree == d.created.tree && Valid(d.created.tree)
    requires Exact(d.created.tree, PruneBlanked(MergePaths(b.privatePath, OrElse(update.keys, b.privatePath)),
      d.created.tree)) && update.keys.Some?
    requires LeafAt(d.created.tree, b.privatePath.leaf) == LeafAt(b.tree, b.privatePath.leaf)
    requires var kem := Encapsulated(e.externalPub, o.encapsulation);
      var epoch := ExternalEpoch(e.info, keys, o, d, kem);
      && r.context == epoch.context && r.schedule == epoch.secrets.derived.schedule && r.tree == d.created.tree
      && r.secretTree == NewSecretTree(d.created.tree, epoch.secrets.derived.encryption)
      && r.tag == epoch.message.tag && r.pending == [] && r.updateKeys == map[] && r.active == IsActive
    ensures var kem := Encapsulated(e.externalPub, o.encapsulation);
      var epoch, applied := ExternalEpoch(e.info, keys, o, d, kem), JoinApplied(e.info.tree, d, kem);
      Converged(r, b, ReceiverState(b, epoch.message, applied, None, update, epoch.context, epoch.secrets))
  {
    hide ExternalEpoch, NewSecretTree, AddHistory, Exact;
  }

  // ---- the member the join replaces ----

  /** The former member a resync replaces gets an exception, never word of its removal. */
  lemma {:induction false} ReplacedThrows(
      env: Env, b: ClientState, e: ExternalInfo, kp: KeyPackage, keys: PrivateKeyPackage, o: ExternalOptions,
      seed: Secret, d: ExternalDraft)
    requires GoodTree(e.info.tree) && MemberOk(b)
    requires b.context == e.info.context && b.tree == e.info.tree
    requires b.tag == e.info.tag && e.externalPub == Pub(b.schedule.external)
    requires JoinExternal(env, e, kp, keys, o, seed).Ok? && JoinDrafted(env, e.info, kp, keys, o.resync, seed, d)
    requires b.privatePath.leaf in d.removes
    ensures ProcessCommit(env, b, JoinExternal(env, e, kp, keys, o, seed).value.message, true).Err?
  {
    hide JoinExternal, DraftExternal, ApplyProposals, PathError, Fresh, ResyncMismatch, JoinerLeafRefused, Exact,
      Signs, UpdateKeysOk, SendersKnown, GoodTree, ExternalEpoch, AdvanceEpoch, NewSecretTree, JoinApplied,
      ExternalKeys, ApplyTreeUpdate, PublishInfo, MemberOk;
    var kem := Encapsulated(e.externalPub, o.encapsulation);
    JoinResult(env, e, kp, keys, o, seed, d);
    DraftIs(env, e.info, kp, keys, o.resync, seed, d);
    JoinApplies(env, b, e.info, kp, keys, o.resync, seed, d, kem);
    JoinAppliedIs(e.info.tree, d, kem);
    if !ResyncMismatch(e.info.tree, d) {
      assert d.removes == [b.privatePath.leaf];
      GoodBelow(b.tree);
      ReplacedCannotOpen(b, d.removes, d.base, d.created.path, b.context);
      ReplacedStays(b, e, keys, o, d);
    }
  }

  lemma {:induction false} ReplacedStays(
      b: ClientState, e: ExternalInfo, keys: PrivateKeyPackage, o: ExternalOptions, d: ExternalDraft)
    requires b.context == e.info.context && Valid(d.base)
    requires ApplyTreeUpdate(Some(d.created.path), NewMemberCommit, d.base, b.privatePath, b.context,
      [NewLeafNode(d.base)]).Err?
    ensures var kem := Encapsulated(e.externalPub, o.encapsulation);
      AdvanceEpoch(b, ExternalEpoch(e.info, keys, o, d, kem).message, JoinApplied(e.info.tree, d, kem)).Err?
  {
    hide ApplyTreeUpdate;
    NoUpdateKey(b.updateKeys, ExternalProposals(d.removes, Encapsulated(e.externalPub, o.encapsulation)));
  }

  /** The join leaves every other member's leaf as it is. */
  lemma {:induction false} JoinerElsewhere(
      env: Env, gi: GroupInfo, kp: KeyPackage, keys: PrivateKeyPackage, resync: bool, seed: Secret, d: ExternalDraft,
      l: nat)
    requires JoinMade(env, gi, kp, keys, resync, seed, d) && HasLeaf(d.base, l)
    ensures Valid(d.created.tree) && LeafAt(d.created.tree, l) == LeafAt(JoinerTree(d, kp), l)
    ensures d.created.treeHash == RootHash(d.created.tree)
  {
    hide DraftExternal, Fresh, PathTree, NewSenderLeaf, SecretsAbove, SealPath, AddLeaf, JustAdded;
    DraftIs(env, gi, kp, keys, resync, seed, d);
    var t := JoinerTree(d, kp);
    NewTreeWritten(t, d.leaf, gi.context, keys.signKey, seed, NoPatch);
    LeafOffPath(t, d.leaf, l);
  }
}

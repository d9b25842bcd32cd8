/** Any commit a member accepts, whoever made it: the member's keys stay exact and
    the tree keeps its rules, because processCommit (src/process-messages.ts)
    compares what it derives with what the commit says. */
module AcceptedCommits {
  import opened Options
  import opened Terms
  import opened TreeMath
  import opened RatchetTree
  import opened ParentHashes
  import opened UpdatePaths
  import opened LeafValidation
  import opened ClientStates
  import opened PrivateKeys
  import opened UnmergedLeaves
  import opened KeyOwnership
  import opened ParentHashKept
  import opened Proposals
  import opened Membership
  import opened PathRules
  import opened Commits
  import opened Agreement
  import opened Convergence
  import opened Receivers

  /** What a verified signature says of a commit's sender: a member at a leaf that
      is not blank, or a newcomer who brings a path. Another member's, here. */
  predicate SentByOther(b: ClientState, content: CommitContent) {
    match content.sender
    case Member(s) => s != b.privatePath.leaf && HasLeaf(b.tree, s)
    case NewMemberCommit => content.commit.path.Some?
    case _ => false
  }

  // ---- a path over a tree the member's keys cover ----

  /** The next keys and signature key of a member whose keys cover `t`, after any path it accepts. */
  lemma {:induction false} PathAccepted(
      t: Tree, s: nat, path: UpdatePath, external: bool, own: PrivatePath, gc: GroupContext, exclude: seq<nat>,
      signKey: Secret)
    requires Valid(t) && HasLeaf(t, s) && Covers(t, own) && own.leaf != s && Signs(t, own.leaf, signKey)
    requires ApplyPathAs(t, s, path, external, own, gc, exclude).Ok?
    ensures var u := ApplyPathAs(t, s, path, external, own, gc, exclude).value;
      && u.keys.Some? && Valid(u.tree) && ApplyUpdatePath(t, s, path, external) == Ok(u.tree)
      && Exact(u.tree, PruneBlanked(MergePaths(own, u.keys.value), u.tree)) && Signs(u.tree, own.leaf, signKey)
      && (ListsBelow(t) ==> ListsBelow(u.tree))
  {
    hide ApplyUpdatePath, ReceivePath, Exact, Covers, RootHash, Hashed, FilteredFrom;
    AcceptedPath(t, s, path, external);
    var u := ApplyUpdatePath(t, s, path, external).value;
    AcceptedExact(t, u, s, own, NextContext(gc, RootHash(u)), path, exclude);
    LeafOffPath(t, s, own.leaf);
    assert At(u, 2 * own.leaf) == At(t, 2 * own.leaf);
    if ListsBelow(t) { PathKeepsBelow(t, u, s); }
  }

  lemma {:induction false} PathKeepsBelow(t: Tree, u: Tree, s: nat)
    requires PathReplaced(t, u, s) && ListsBelow(t)
    ensures ListsBelow(u)
  {
    hide FilteredFrom, OnPath;
    forall x: nat, l: nat | l in Unmerged(u, x) ensures OnPath(l, x) {
      assert x in Nodes(FilteredPath(t, s)) ==> ListsNobody(u, x);
      assert x != 2 * s ==> At(u, x) == At(t, x);
    }
  }

  /** And a path by a leaf the checks let through leaves a good tree good. */
  lemma {:induction false} PathAcceptedGood(t: Tree, s: nat, path: UpdatePath, external: bool)
    requires TreeOk(t) && HashesLinked(t) && OthersOk(t, 2 * s) && HasLeaf(t, s)
    requires ApplyUpdatePath(t, s, path, external).Ok?
    requires LeafKeyNew(t, 2 * s, path.leaf) && Fits(t, 2 * s, path.leaf)
    ensures GoodTree(ApplyUpdatePath(t, s, path, external).value)
  {
    AcceptedKeepsRules(t, s, path, external);
  }

  // ---- the proposals keep lists below ----

  lemma {:induction false} UpdatesKeepBelow(env: Env, orig: Tree, t: Tree, updates: seq<UpdateBy>, gc: GroupContext)
    requires Valid(t) && ListsBelow(t) && FoldUpdates(env, orig, t, updates, gc).Ok?
    ensures ListsBelow(FoldUpdates(env, orig, t, updates, gc).value)
    decreases |updates|
  {
    hide UpdateLeaf, UpdateOrCommitOk, ListsBelow, BlankedAt;
    if updates != [] {
      var l, leaf := updates[0].sender.value, updates[0].leaf;
      UpdateLeafAt(t, leaf, l);
      BlankingKeepsBelow(t, UpdateLeaf(t, leaf, l), l, Some(Leaf(leaf)));
      UpdatesKeepBelow(env, orig, UpdateLeaf(t, leaf, l), updates[1..], gc);
    }
  }

  lemma {:induction false} RemovesKeepBelow(orig: Tree, t: Tree, removes: seq<nat>)
    requires Valid(t) && ListsBelow(t) && FoldRemoves(orig, t, removes).Ok?
    ensures ListsBelow(FoldRemoves(orig, t, removes).value)
    decreases |removes|
  {
    hide RemoveLeaf, ListsBelow, BlankedAt;
    if removes != [] {
      RemoveLeafAt(t, removes[0]);
      BlankingKeepsBelow(t, RemoveLeaf(t, removes[0]).value, removes[0], None);
      RemovesKeepBelow(orig, RemoveLeaf(t, removes[0]).value, removes[1..]);
    }
  }

  lemma {:induction false} AddsKeepBelow(
      env: Env, t: Tree, adds: seq<KeyPackage>, gc: GroupContext, sentByClient: bool)
    requires Valid(t) && ListsBelow(t) && FoldAdds(env, t, adds, gc, sentByClient).Ok?
    ensures ListsBelow(FoldAdds(env, t, adds, gc, sentByClient).value.tree)
    decreases |adds|
  {
    hide AddLeaf, KeyPackageOk, ListsBelow;
    if adds != [] {
      AddLeafAt(t, adds[0].leaf);
      AddKeepsBelow(t, adds[0].leaf);
      AddsKeepBelow(env, AddLeaf(t, adds[0].leaf).0, adds[1..], gc, sentByClient);
    }
  }

  lemma {:induction false} ProposalsKeepBelow(
      env: Env, b: ClientState, props: seq<ProposalOrRef>, committer: Option<nat>, sent: bool,
      newLeaf: Option<LeafNode>, sender: SenderType)
    requires Valid(b.tree) && ListsBelow(b.tree)
    requires ApplyProposals(env, b, props, committer, sent, newLeaf, sender).Ok?
    ensures ListsBelow(ApplyProposals(env, b, props, committer, sent, newLeaf, sender).value.tree)
  {
    hide FoldUpdates, FoldRemoves, FoldAdds, ProposalsOk, PskSecret, ListsBelow, RemoveLeaf, BlankedAt;
    var all := Resolve(props, b.pending, committer, sender).value;
    var g := Group(all);
    if g.externalInits != [] {
      if g.removes != [] {
        RemoveLeafAt(b.tree, g.removes[0]);
        BlankingKeepsBelow(b.tree, RemoveLeaf(b.tree, g.removes[0]).value, g.removes[0], None);
      }
    } else if g.reinits == [] {
      var gc := ContextAfter(b.context, g);
      FoldUpdatesValid(env, b.tree, b.tree, g.updates, gc);
      UpdatesKeepBelow(env, b.tree, b.tree, g.updates, gc);
      var u := FoldUpdates(env, b.tree, b.tree, g.updates, gc).value;
      FoldRemovesValid(b.tree, u, g.removes);
      RemovesKeepBelow(b.tree, u, g.removes);
      AddsKeepBelow(env, FoldRemoves(b.tree, u, g.removes).value, g.adds, gc, sent);
    }
  }

  // ---- a member's commit ----

  /** The receiver's keys as the proposals leave them. */
  lemma {:induction false} CarriedIn(
      env: Env, b: ClientState, props: seq<ProposalOrRef>, s: nat, newLeaf: Option<LeafNode>, applied: Applied)
    requires MemberOk(b) && HasLeaf(b.tree, s) && s != b.privatePath.leaf && Stays(applied, b.privatePath.leaf)
    requires ApplyProposals(env, b, props, Some(s), false, newLeaf, MemberType) == Ok(applied)
    ensures var key, l := AppliedUpdateKey(b.updateKeys, props), b.privatePath.leaf;
      && Covers(applied.tree, OwnPath(b, key)) && OwnPath(b, key).leaf == l
      && Signs(applied.tree, l, UpdatedSignKey(b, key))
    ensures !applied.kind.ExternalCommit? && Valid(applied.tree)
  {
    hide ApplyProposals, Exact, Covers, Signs, UpdateKeysOk, SendersKnown;
    MemberCommitApplied(env, b, props, s, false, newLeaf, applied);
    OwnUpdateKey(b, props, Some(s), MemberType);
    CarriedKeys(b, applied, s, AppliedUpdateKey(b.updateKeys, props));
    ApplyProposalsValid(env, b, props, Some(s), false, newLeaf, MemberType);
  }

  /** The state a receiver goes on with. */
  lemma {:induction false} NextMember(
      b: ClientState, m: CommitMessage, applied: Applied, key: Option<PendingKey>, update: TreeUpdate,
      context: GroupContext, secrets: EpochSecrets)
    requires MemberOk(b) && Valid(update.tree)
    requires Exact(update.tree, PruneBlanked(
      if update.keys.None? then OwnPath(b, key) else MergePaths(OwnPath(b, key), update.keys.value), update.tree))
    requires Signs(update.tree, b.privatePath.leaf, UpdatedSignKey(b, key))
    ensures var n := ReceiverState(b, m, applied, key, update, context, secrets);
      MemberOk(n) && n.privatePath.leaf == b.privatePath.leaf && n.tree == update.tree
  {
    hide Exact, AddHistory, NewSecretTree;
  }

  lemma {:induction false} AdvanceIs(b: ClientState, m: CommitMessage, applied: Applied)
    requires Valid(applied.tree) && AdvanceEpoch(b, m, applied).Ok?
    ensures var key := AppliedUpdateKey(b.updateKeys, m.content.commit.proposals);
      var update := ApplyTreeUpdate(
        m.content.commit.path, m.content.sender, applied.tree, OwnPath(b, key), CheckedContext(b, applied.kind),
        ReceiverExcluded(applied.kind, applied.tree));
      update.Ok? && exists context, secrets ::
        AdvanceEpoch(b, m, applied).value == ReceiverState(b, m, applied, key, update.value, context, secrets)
  {
    hide ApplyTreeUpdate, ReceiverState, ReceiverExcluded;
  }

  lemma {:induction false} MemberAdvances(env: Env, b: ClientState, m: CommitMessage, s: nat, applied: Applied)
    requires MemberOk(b) && HasLeaf(b.tree, s) && s != b.privatePath.leaf && Stays(applied, b.privatePath.leaf)
    requires m.content.sender == Member(s) && ApplyProposals(
      env, b, m.content.commit.proposals, Some(s), false, PathLeaf(m.content.commit), MemberType) == Ok(applied)
    requires Valid(applied.tree) && AdvanceEpoch(b, m, applied).Ok?
    ensures var n := AdvanceEpoch(b, m, applied).value;
      && MemberOk(n) && n.privatePath.leaf == b.privatePath.leaf
      && (ListsBelow(applied.tree) ==> ListsBelow(n.tree))
      && (m.content.commit.path.None? ==> n.tree == applied.tree)
      && (m.content.commit.path.Some? ==>
            HasLeaf(applied.tree, s) &&
            ApplyUpdatePath(applied.tree, s, m.content.commit.path.value, false) == Ok(n.tree))
  {
    hide ApplyProposals, AdvanceEpoch, Exact, Covers, Signs, UpdateKeysOk, SendersKnown, ApplyUpdatePath, ReceivePath,
      RootHash, ReceiverExcluded, ListsBelow, Stays, ReceiverState;
    var c, t, key := m.content.commit, applied.tree, AppliedUpdateKey(b.updateKeys, m.content.commit.proposals);
    var own, gc, exclude := OwnPath(b, key), CheckedContext(b, applied.kind), ReceiverExcluded(applied.kind, t);
    CarriedIn(env, b, c.proposals, s, PathLeaf(c), applied);
    AdvanceIs(b, m, applied);
    var update := ApplyTreeUpdate(c.path, m.content.sender, t, own, gc, exclude).value;
    if c.path.None? {
      PruneExact(t, own);
    } else {
      SenderThere(t, s, c.path.value);
      PathAccepted(t, s, c.path.value, false, own, gc, exclude, UpdatedSignKey(b, key));
    }
    var context, secrets :|
      AdvanceEpoch(b, m, applied).value == ReceiverState(b, m, applied, key, update, context, secrets);
    NextMember(b, m, applied, key, update, context, secrets);
  }

  lemma {:induction false} SenderThere(t: Tree, s: nat, path: UpdatePath)
    requires Valid(t) && ApplyUpdatePath(t, s, path, false).Ok?
    ensures HasLeaf(t, s)
  {
    hide ReceiverTree, PathKeyError;
  }

  /** A member a commit removes has left, or gets an exception: with its leaf filled
      again it could open nothing in the path. */
  lemma {:induction false} RemovedCannotAdvance(env: Env, b: ClientState, m: CommitMessage, s: nat, applied: Applied)
    requires MemberOk(b) && ListsBelow(b.tree) && HasLeaf(b.tree, s) && s != b.privatePath.leaf
    requires !Stays(applied, b.privatePath.leaf) && !applied.selfRemoved
    requires m.content.sender == Member(s) && ApplyProposals(
      env, b, m.content.commit.proposals, Some(s), false, PathLeaf(m.content.commit), MemberType) == Ok(applied)
    requires PathError(env, b, m.content, applied).None? && Valid(applied.tree)
    ensures AdvanceEpoch(b, m, applied).Err?
  {
    hide ApplyProposals, AdvanceEpoch, Exact, UpdateKeysOk, SendersKnown, Signs, ApplyUpdatePath, ReceivePath, RootHash,
      ListsBelow, BlankAbove, UpdateOrCommitOk;
    var c, t, l := m.content.commit, applied.tree, b.privatePath.leaf;
    RefilledOwn(env, b, c.proposals, s, PathLeaf(c), applied);
    ProposalsKeepBelow(env, b, c.proposals, Some(s), false, PathLeaf(c), MemberType);
    ExactNodes(b.tree, b.privatePath);
    var key := AppliedUpdateKey(b.updateKeys, c.proposals);
    var own, gc, exclude := OwnPath(b, key), CheckedContext(b, applied.kind), ReceiverExcluded(applied.kind, t);
    if ApplyUpdatePath(t, s, c.path.value, false).Ok? {
      SenderThere(t, s, c.path.value);
      AcceptedPath(t, s, c.path.value, false);
      var u := ApplyUpdatePath(t, s, c.path.value, false).value;
      ReceiveFails(t, u, s, own, NextContext(gc, RootHash(u)), c.path.value, exclude);
    }
    if AdvanceEpoch(b, m, applied).Ok? { AdvanceIs(b, m, applied); }
  }

  lemma {:induction false} RefilledOwn(
      env: Env, b: ClientState, props: seq<ProposalOrRef>, s: nat, newLeaf: Option<LeafNode>, applied: Applied)
    requires MemberOk(b) && HasLeaf(b.tree, s) && !Stays(applied, b.privatePath.leaf) && !applied.selfRemoved
    requires ApplyProposals(env, b, props, Some(s), false, newLeaf, MemberType) == Ok(applied)
    ensures Valid(applied.tree) && BlankAbove(applied.tree, b.privatePath.leaf)
    ensures applied.kind.MemberCommit? && applied.needsPath && 2 * b.privatePath.leaf in AddedNodes(applied.kind.added)
  {
    hide FoldUpdates, FoldRemoves, FoldAdds, ProposalsOk;
    var g, l := Group(applied.all), b.privatePath.leaf;
    MemberCommitApplied(env, b, props, s, false, newLeaf, applied);
    ApplyProposalsValid(env, b, props, Some(s), false, newLeaf, MemberType);
    if g.reinits != [] { ReinitAlone(applied.all); }
    RemovedIsBlankAbove(env, b.tree, g, ContextAfter(b.context, g), false, l);
    EvenIsLeaf(applied.tree, l);
    var m := Mutated(applied.tree, applied.kind.added);
    assert Joined(m, l);
    var i :| 0 <= i < |m.added| && m.added[i].leaf == l;
    assert AddedNodes(applied.kind.added)[i] == 2 * l;
  }

  // ---- an external commit ----

  lemma {:induction false} NewLeafIs(t: Tree, leaf: LeafNode)
    requires Valid(t)
    ensures var (r, n) := AddLeaf(t, leaf); n == NewLeafNode(t) && n % 2 == 0 && Valid(r) && HasLeaf(r, n / 2)
  {
    hide AddLeaf;
    AddLeafAt(t, leaf);
    var (r, n) := AddLeaf(t, leaf);
    assert At(r, n) == AddedAt(t, leaf, n, n);
  }

  /** The replaced leaf and every node above it are blank, unless the newcomer sits there now. */
  lemma {:induction false} ReplacedIsBlank(t: Tree, l: nat, base: Tree, leaf: LeafNode)
    requires Valid(t) && HasLeaf(t, l) && RemoveLeaf(t, l) == Ok(base) && Valid(base)
    ensures var (r, n) := AddLeaf(base, leaf); BlankAbove(r, l) && (n == 2 * l || At(r, 2 * l).None?)
  {
    hide OnPath, AddLeaf, RemoveLeaf;
    RemoveLeafAt(t, l);
    AddLeafAt(base, leaf);
    var (r, n) := AddLeaf(base, leaf);
    forall x: nat | OnPath(l, x) ensures At(r, x) == None {
      assert At(base, x) == BlankedAt(t, l, None, x);
      assert At(r, x) == AddedAt(base, leaf, n, x);
      PathIsOdd(l, x);
    }
    assert At(base, 2 * l) == BlankedAt(t, l, None, 2 * l);
    assert At(r, 2 * l) == AddedAt(base, leaf, n, 2 * l);
  }

  /** A member an external commit leaves in place carries its keys into the newcomer's tree. */
  lemma {:induction false} VacancyCovers(b: ClientState, removes: seq<nat>, base: Tree, leaf: LeafNode)
    requires MemberOk(b) && AfterResync(b.tree, removes) == Ok(base) && Valid(base)
    requires |removes| <= 1 && b.privatePath.leaf !in removes
    ensures var (t, n) := AddLeaf(base, leaf);
      var l := b.privatePath.leaf;
      && Covers(t, b.privatePath) && HasLeaf(t, l) && HasLeaf(base, l) && LeafAt(t, l) == LeafAt(b.tree, l)
      && l != n / 2
  {
    hide AddLeaf, RemoveLeaf, UpdateKeysOk, SendersKnown;
    var t, l := AddLeaf(base, leaf).0, b.privatePath.leaf;
    if removes == [] {
      assert Survives(b.tree, base, l);
    } else {
      assert removes == [removes[0]];
      RemoveStep(b.tree, removes[0]);
    }
    AddStepMember(base, leaf, l);
    SurvivesTrans(b.tree, base, t, l);
    assert OwnedBy(b.tree, l, 2 * l);
    SurvivorCovers(b.tree, t, b.privatePath, b.privatePath);
  }

  /** The one it replaces opens nothing in the path, wherever the newcomer's leaf is. */
  lemma {:induction false} ReplacedCannotOpen(
      b: ClientState, removes: seq<nat>, base: Tree, path: UpdatePath, gc: GroupContext)
    requires MemberOk(b) && ListsBelow(b.tree) && AfterResync(b.tree, removes) == Ok(base) && Valid(base)
    requires removes == [b.privatePath.leaf]
    ensures ApplyTreeUpdate(Some(path), NewMemberCommit, base, b.privatePath, gc, [NewLeafNode(base)]).Err?
  {
    hide AddLeaf, RemoveLeaf, ApplyUpdatePath, ReceivePath, UpdateKeysOk, SendersKnown, Signs, Exact,
      BlankAbove, ListsBelow, RootHash, BlankedAt;
    var leaf, own := path.leaf, b.privatePath;
    MemberHasLeaf(b);
    RemoveLeafAt(b.tree, own.leaf);
    BlankingKeepsBelow(b.tree, base, own.leaf, None);
    AddKeepsBelow(base, leaf);
    AddLeafAt(base, leaf);
    var (r, n) := AddLeaf(base, leaf);
    NewLeafIs(base, leaf);
    ReplacedIsBlank(b.tree, own.leaf, base, leaf);
    if ApplyUpdatePath(r, n / 2, path, true).Ok? {
      var u := ApplyUpdatePath(r, n / 2, path, true).value;
      ExactNodes(b.tree, own);
      AcceptedPath(r, n / 2, path, true);
      ReceiveFails(r, u, n / 2, own, NextContext(gc, RootHash(u)), path, [NewLeafNode(base)]);
    }
  }

  /** What any external commit that resolves applies. */
  lemma {:induction false} ExternalApplied(
      env: Env, b: ClientState, props: seq<ProposalOrRef>, newLeaf: Option<LeafNode>, applied: Applied)
    requires Valid(b.tree) && ApplyProposals(env, b, props, None, false, newLeaf, NewMemberCommitType) == Ok(applied)
    ensures applied.kind.ExternalCommit? && !applied.selfRemoved && Valid(applied.tree)
    ensures applied.kind.newLeaf == NewLeafNode(applied.tree) / 2
    ensures AppliedUpdateKey(b.updateKeys, props) == None
    ensures var removes := Group(applied.all).removes;
      |removes| <= 1 && AfterResync(b.tree, removes) == Ok(applied.tree)
      && (removes != [] ==> HasLeaf(b.tree, removes[0]))
  {
    hide FoldUpdates, FoldRemoves, FoldAdds, ProposalsOk, PskSecret, RemoveLeaf;
    AppliedKeyFrom(b.updateKeys, props);
    ApplyProposalsValid(env, b, props, None, false, newLeaf, NewMemberCommitType);
  }

  lemma {:induction false} ExternalAdvances(env: Env, b: ClientState, m: CommitMessage, applied: Applied)
    requires MemberOk(b) && ListsBelow(b.tree) && m.content.sender == NewMemberCommit && m.content.commit.path.Some?
    requires ApplyProposals(
      env, b, m.content.commit.proposals, None, false, PathLeaf(m.content.commit), NewMemberCommitType) == Ok(applied)
    requires Valid(applied.tree) && AdvanceEpoch(b, m, applied).Ok?
    ensures var n := AdvanceEpoch(b, m, applied).value;
      var (r, x) := AddLeaf(applied.tree, m.content.commit.path.value.leaf);
      && MemberOk(n) && n.privatePath.leaf == b.privatePath.leaf && ListsBelow(n.tree) && Valid(r)
      && x == NewLeafNode(applied.tree) && HasLeaf(r, x / 2)
      && ApplyUpdatePath(r, x / 2, m.content.commit.path.value, true) == Ok(n.tree)
  {
    hide ApplyProposals, AdvanceEpoch, Exact, Covers, UpdateKeysOk, SendersKnown, ApplyUpdatePath, ReceivePath,
      RootHash, ListsBelow, AddLeaf, ReceiverState, AfterResync;
    var c, t, path := m.content.commit, applied.tree, m.content.commit.path.value;
    var own, gc, exclude := b.privatePath, CheckedContext(b, applied.kind), ReceiverExcluded(applied.kind, t);
    ExternalApplied(env, b, c.proposals, PathLeaf(c), applied);
    AdvanceIs(b, m, applied);
    NewLeafIs(t, path.leaf);
    var (r, x) := AddLeaf(t, path.leaf);
    var removes := Group(applied.all).removes;
    ProposalsKeepBelow(env, b, c.proposals, None, false, PathLeaf(c), NewMemberCommitType);
    AddKeepsBelow(t, path.leaf);
    if own.leaf in removes {
      assert removes == [own.leaf];
      ReplacedCannotOpen(b, removes, t, path, gc);
      assert false;
    }
    VacancyCovers(b, removes, t, path.leaf);
    PathAccepted(r, x / 2, path, true, own, gc, exclude, b.signKey);
    var update := ApplyTreeUpdate(c.path, m.content.sender, t, own, gc, exclude).value;
    var context, secrets :|
      AdvanceEpoch(b, m, applied).value == ReceiverState(b, m, applied, None, update, context, secrets);
    NextMember(b, m, applied, None, update, context, secrets);
  }

  // ---- any commit ----

  lemma {:induction false} RemovedKeeps(b: ClientState)
    requires MemberOk(b)
    ensures var n := RemovedState(b); MemberOk(n) && n.privatePath.leaf == b.privatePath.leaf && n.tree == b.tree
  {
    hide Exact;
  }

  /** What one accepted commit of another does: the member is out, or its next
      state comes from the proposals applied. */
  lemma {:induction false} AcceptedIs(env: Env, b: ClientState, m: CommitMessage) returns (applied: Applied)
    requires Valid(b.tree) && ProcessCommit(env, b, m, true).Ok?
    ensures ApplyProposals(
      env, b, m.content.commit.proposals, SenderLeaf(m.content.sender), false, PathLeaf(m.content.commit),
      SenderTypeOf(m.content.sender)) == Ok(applied)
    ensures Valid(applied.tree) && PathError(env, b, m.content, applied).None?
    ensures if applied.selfRemoved then ProcessCommit(env, b, m, true).value == RemovedState(b)
      else AdvanceEpoch(b, m, applied) == ProcessCommit(env, b, m, true)
  {
    hide ApplyProposals, AdvanceEpoch, PathError;
    var c, sender := m.content.commit, m.content.sender;
    applied := ApplyProposals(env, b, c.proposals, SenderLeaf(sender), false, PathLeaf(c), SenderTypeOf(sender)).value;
    ApplyProposalsValid(env, b, c.proposals, SenderLeaf(sender), false, PathLeaf(c), SenderTypeOf(sender));
  }

  /** Whoever made the commit and however, a member that accepts it holds exactly
      the keys the new tree says it must and can sign for its leaf. */
  lemma {:induction false} AcceptedKeepsMember(env: Env, b: ClientState, m: CommitMessage)
    requires MemberOk(b) && ListsBelow(b.tree) && SentByOther(b, m.content) && ProcessCommit(env, b, m, true).Ok?
    ensures var n := ProcessCommit(env, b, m, true).value;
      MemberOk(n) && ListsBelow(n.tree) && n.privatePath.leaf == b.privatePath.leaf
  {
    hide ProcessCommit, ApplyProposals, AdvanceEpoch, PathError, MemberOk, ListsBelow, Stays;
    assert Valid(b.tree) by { MemberHasLeaf(b); }
    var applied := AcceptedIs(env, b, m);
    var c := m.content.commit;
    if applied.selfRemoved {
      RemovedKeeps(b);
    } else if m.content.sender.Member? {
      var s := m.content.sender.leaf;
      ProposalsKeepBelow(env, b, c.proposals, Some(s), false, PathLeaf(c), MemberType);
      if !Stays(applied, b.privatePath.leaf) {
        RemovedCannotAdvance(env, b, m, s, applied);
      } else {
        MemberAdvances(env, b, m, s, applied);
      }
    } else {
      ExternalAdvances(env, b, m, applied);
    }
  }

  // ---- the tree ----

  lemma {:induction false} GoodBelow(t: Tree)
    requires GoodTree(t)
    ensures ListsBelow(t) && Valid(t)
  {
    UnmergedBelow(t);
  }

  lemma {:induction false} BaseGood(t: Tree, removes: seq<nat>, base: Tree)
    requires GoodTree(t) && AfterResync(t, removes) == Ok(base)
    ensures GoodTree(base)
  {
    hide GoodTree;
    GoodKeys(t);
    if removes != [] { RemoveStepRules(t, removes[0]); }
  }

  lemma {:induction false} OthersAfterAdd(t: Tree, leaf: LeafNode, n: nat)
    requires Valid(t) && LeavesOk(t) && n == NewLeafNode(t)
    ensures OthersOk(AddLeaf(t, leaf).0, n)
    ensures forall x: nat | x != n :: NodeLeaf(AddLeaf(t, leaf).0, x) == NodeLeaf(t, x)
  {
    hide AddLeaf, OnPath;
    AddLeafAt(t, leaf);
    var u := AddLeaf(t, leaf).0;
    forall x: nat | x != n
      ensures NodeLeaf(u, x) == NodeLeaf(t, x)
      ensures (At(u, x).Some? ==> At(t, x).Some? && KeyOf(At(u, x).value) == KeyOf(At(t, x).value))
    {
      assert At(u, x) == AddedAt(t, leaf, n, x);
    }
    OthersFromAll(t, n);
  }

  lemma {:induction false} FitsSame(t: Tree, u: Tree, n: nat, leaf: LeafNode)
    requires Fits(t, n, leaf) && forall x: nat | x != n :: NodeLeaf(u, x) == NodeLeaf(t, x)
    ensures Fits(u, n, leaf)
  {
  }

  /** The leaf check of a received commit, spelled out. */
  lemma {:induction false} PathLeafChecked(env: Env, b: ClientState, content: CommitContent, applied: Applied, s: nat)
    requires PathError(env, b, content, applied).None? && content.commit.path.Some? && Sound(applied.tree)
    requires s == if content.sender.Member? then content.sender.leaf
      else if applied.kind.ExternalCommit? then applied.kind.newLeaf else s
    ensures content.sender.Member? || applied.kind.ExternalCommit?
    ensures var leaf := content.commit.path.value.leaf;
      Fits(applied.tree, 2 * s, leaf) && LeafKeyNew(applied.tree, 2 * s, leaf)
  {
    hide CommonOk, Fits, LeafKeyNew;
    var leaf, gc := content.commit.path.value.leaf, CheckedContext(b, applied.kind);
    var prior := if applied.kind.ExternalCommit? && applied.kind.prior.Some? then applied.kind.prior
      else LeafCredential(applied.tree, s);
    CheckedLeafFits(env, leaf, gc, applied.tree, s, prior);
    CheckedLeafKey(env, leaf, gc, applied.tree, s, prior);
  }

  lemma {:induction false} KeyNewAfterAdd(t: Tree, leaf: LeafNode, n: nat)
    requires Valid(t) && n == NewLeafNode(t) && LeafKeyNew(t, n, leaf)
    ensures LeafKeyNew(AddLeaf(t, leaf).0, n, leaf)
  {
    hide AddLeaf, OnPath;
    AddLeafAt(t, leaf);
    var u := AddLeaf(t, leaf).0;
    forall y: nat | y != n && At(u, y).Some? ensures KeyOf(At(u, y).value) != leaf.hpkeKey {
      assert At(u, y) == AddedAt(t, leaf, n, y);
    }
  }

  lemma {:induction false} MemberTreeGood(env: Env, b: ClientState, m: CommitMessage, s: nat, applied: Applied)
    requires GoodTree(b.tree) && m.content.sender == Member(s) && m.content.commit.path.Some?
    requires ApplyProposals(
      env, b, m.content.commit.proposals, Some(s), false, PathLeaf(m.content.commit), MemberType) == Ok(applied)
    requires Valid(applied.tree) && PathError(env, b, m.content, applied).None? && HasLeaf(applied.tree, s)
    requires ApplyUpdatePath(applied.tree, s, m.content.commit.path.value, false).Ok?
    ensures GoodTree(ApplyUpdatePath(applied.tree, s, m.content.commit.path.value, false).value)
  {
    hide ApplyProposals, PathError, TreeOk, HashesLinked, LeavesOk, OthersOk, Fits, LeafKeyNew, ApplyUpdatePath;
    MemberCommitGood(env, b, m.content.commit.proposals, s, false, PathLeaf(m.content.commit), applied);
    OthersFromAll(applied.tree, 2 * s);
    PathLeafChecked(env, b, m.content, applied, s);
    PathAcceptedGood(applied.tree, s, m.content.commit.path.value, false);
  }

  lemma {:induction false} ExternalTreeKept(env: Env, b: ClientState, m: CommitMessage, applied: Applied)
    requires GoodTree(b.tree) && m.content.sender == NewMemberCommit && m.content.commit.path.Some?
    requires Valid(b.tree) && ApplyProposals(
      env, b, m.content.commit.proposals, None, false, PathLeaf(m.content.commit), NewMemberCommitType) == Ok(applied)
    requires Valid(applied.tree) && PathError(env, b, m.content, applied).None?
    requires var (r, x) := AddLeaf(applied.tree, m.content.commit.path.value.leaf);
      Valid(r) && HasLeaf(r, x / 2) && ApplyUpdatePath(r, x / 2, m.content.commit.path.value, true).Ok?
    ensures var (r, x) := AddLeaf(applied.tree, m.content.commit.path.value.leaf);
      GoodTree(ApplyUpdatePath(r, x / 2, m.content.commit.path.value, true).value)
  {
    hide ApplyProposals, PathError, TreeOk, HashesLinked, LeavesOk, OthersOk, Fits, LeafKeyNew, ApplyUpdatePath,
      AddLeaf, AfterResync;
    var c, t, leaf := m.content.commit, applied.tree, m.content.commit.path.value.leaf;
    ExternalApplied(env, b, c.proposals, PathLeaf(c), applied);
    BaseGood(b.tree, Group(applied.all).removes, t);
    NewLeafIs(t, leaf);
    var (r, x) := AddLeaf(t, leaf);
    AddKeepsTree(t, leaf);
    AddKeepsHashes(t, leaf);
    OthersAfterAdd(t, leaf, x);
    PathLeafChecked(env, b, m.content, applied, x / 2);
    FitsSame(t, r, x, leaf);
    KeyNewAfterAdd(t, leaf, x);
    PathAcceptedGood(r, x / 2, c.path.value, true);
  }

  /** And the tree keeps every rule: shape, keys, credentials and parent hashes. */
  lemma {:induction false} AcceptedKeepsTree(env: Env, b: ClientState, m: CommitMessage)
    requires GoodTree(b.tree) && MemberOk(b) && SentByOther(b, m.content) && ProcessCommit(env, b, m, true).Ok?
    ensures GoodTree(ProcessCommit(env, b, m, true).value.tree)
  {
    hide ProcessCommit, ApplyProposals, AdvanceEpoch, PathError, MemberOk, ListsBelow, Stays, GoodTree, ApplyUpdatePath,
      AddLeaf;
    GoodBelow(b.tree);
    var applied := AcceptedIs(env, b, m);
    var c := m.content.commit;
    if applied.selfRemoved {
      assert RemovedState(b).tree == b.tree;
    } else if m.content.sender.Member? {
      var s := m.content.sender.leaf;
      if !Stays(applied, b.privatePath.leaf) {
        RemovedCannotAdvance(env, b, m, s, applied);
      } else {
        MemberAdvances(env, b, m, s, applied);
        MemberCommitGood(env, b, c.proposals, s, false, PathLeaf(c), applied);
        if c.path.Some? { MemberTreeGood(env, b, m, s, applied); }
      }
    } else {
      ExternalAdvances(env, b, m, applied);
      ExternalTreeKept(env, b, m, applied);
    }
  }
}

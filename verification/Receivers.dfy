/** A member that receives an honest commit reaches the committer's epoch. */
module Receivers {
  import opened Options
  import opened Terms
  import opened TreeMath
  import opened RatchetTree
  import opened ParentHashes
  import opened UpdatePaths
  import opened LeafValidation
  import opened ClientStates
  import opened PrivateKeys
  import opened UnmergedLeaves
  import opened KeyOwnership
  import opened ParentHashKept
  import opened Proposals
  import opened Membership
  import opened PathRules
  import opened Commits
  import opened Agreement
  import opened Convergence

  /** The only check left to fail on an honest commit: the path's leaf against
      the tree it goes into, and the receiver's credential policy. */
  predicate LeafRefused(env: Env, s: nat, d: Draft) {
    d.created.Some? && !UpdateOrCommitOk(env, d.created.value.path.leaf, s, d.context, d.applied.tree,
      LeafCredential(d.applied.tree, s))
  }

  /** No Remove in the commit names leaf `l`. */
  predicate Stays(applied: Applied, l: nat) {
    l !in Group(applied.all).removes
  }

  function UpdatedSignKey(st: ClientState, key: Option<PendingKey>): Secret {
    if key.Some? then OrElse(key.value.signature, st.signKey) else st.signKey
  }

  /** What the receiver brings to the new tree: keys that cover what the
      proposals left, its own Update's among them. */
  lemma {:induction false} ReceiverCovers(
      env: Env, a: ClientState, b: ClientState, props: seq<ProposalOrRef>, applied: Applied)
    requires MemberOk(a) && MemberOk(b) && SameEpoch(a, b) && Knows(b, a, props)
    requires a.privatePath.leaf != b.privatePath.leaf
    requires ApplyProposals(env, a, props, Some(a.privatePath.leaf), true, None, MemberType) == Ok(applied)
    requires Stays(applied, b.privatePath.leaf)
    ensures var key, l := AppliedUpdateKey(b.updateKeys, props), b.privatePath.leaf;
      Covers(applied.tree, OwnPath(b, key)) && OwnPath(b, key).leaf == l &&
        Signs(applied.tree, l, UpdatedSignKey(b, key))
      && !Joined(Mutated(applied.tree, AddedOf(applied.kind)), l) && HasLeaf(applied.tree, l)
  {
    hide ApplyProposals, Exact, Covers, Signs, UpdateKeysOk, SendersKnown;
    var s := a.privatePath.leaf;
    CommitterStays(env, a, props, s, applied);
    MemberCommitApplied(env, a, props, s, true, None, applied);
    ResolveAgrees(a, b, props, Some(s), MemberType);
    OwnUpdateKey(b, props, Some(s), MemberType);
    CarriedKeys(b, applied, s, AppliedUpdateKey(b.updateKeys, props));
    StillThere(b, applied, s);
  }

  lemma {:induction false} StillThere(b: ClientState, applied: Applied, s: nat)
    requires MemberOk(b) && CommitApplied(b.tree, s, applied) && Stays(applied, b.privatePath.leaf)
    ensures !Joined(Mutated(applied.tree, AddedOf(applied.kind)), b.privatePath.leaf)
    ensures HasLeaf(applied.tree, b.privatePath.leaf)
  {
  }

  /** The committer and a receiver skip the same recipients, and neither skips the receiver. */
  lemma {:induction false} SameRecipients(t: Tree, s: nat, kind: Kind, l: nat)
    requires Valid(t) && UnmergedOk(t) && HasLeaf(t, s) && HasLeaf(t, l) && !kind.ExternalCommit?
    requires !Joined(Mutated(t, AddedOf(kind)), l)
    ensures SameFilter(t, s, ExcludedNodes(kind), ReceiverExcluded(kind, t))
    ensures NoneOwned(t, l, ReceiverExcluded(kind, t))
  {
    if kind.MemberCommit? {
      var m := Mutated(t, kind.added);
      forall n | n in AddedNodes(kind.added) ensures n % 2 == 0 && n != 2 * l {
        var i :| 0 <= i < |kind.added| && AddedNodes(kind.added)[i] == n;
        assert m.added[i].leaf != l;
      }
    } else {
      BlankFilter(t, s, NewLeafNode(t));
    }
  }

  /** The receiver's new tree, commit secret and keys. */
  lemma {:induction false} TreeUpdateAgrees(
      env: Env, a: ClientState, o: CommitOptions, seed: Secret, d: Draft, own: PrivatePath)
    requires MemberOk(a) && TreeOk(d.applied.tree) && Drafted(env, a, o, seed, d) && Fresh(seed, d.applied.tree)
    requires own.leaf != a.privatePath.leaf && Covers(d.applied.tree, own)
    requires HasLeaf(d.applied.tree, a.privatePath.leaf) && HasLeaf(d.applied.tree, own.leaf)
    requires !d.applied.kind.ExternalCommit? && !Joined(Mutated(d.applied.tree, AddedOf(d.applied.kind)), own.leaf)
    requires DraftPath(env, a, o, d.applied, seed) == Ok(d.created)
    requires d.context == CheckedContext(a, d.applied.kind)
    ensures var path := DraftContent(a, o, d).commit.path;
      var u := ApplyTreeUpdate(
        path, Member(a.privatePath.leaf), d.applied.tree, own, d.context,
        ReceiverExcluded(d.applied.kind, d.applied.tree));
      && u.Ok? && u.value.tree == DraftTree(d) && u.value.treeHash == RootHash(DraftTree(d))
      && u.value.commitSecret == CommitSecret(d.created)
      && Exact(DraftTree(d), PruneBlanked(if u.value.keys.None? then own else MergePaths(own, u.value.keys.value),
        DraftTree(d)))
  {
    hide CreateCommit, DraftCommit, ApplyProposals, MemberOk, Exact, Covers, CreateUpdatePath, ApplyUpdatePath,
      ReceivePath, Fresh, Drafted;
    var s, t, kind := a.privatePath.leaf, d.applied.tree, d.applied.kind;
    if d.created.None? {
      PruneExact(t, own);
    } else {
      SameRecipients(t, s, kind, own.leaf);
      FreshIsFreshPath(seed, t, s);
      PathReceived(t, t, s, d.context, a.signKey, seed, ExcludedNodes(kind), PatchOf(o), false, own,
        ReceiverExcluded(kind, t));
    }
  }

  lemma {:induction false} FreshIsFreshPath(seed: Secret, t: Tree, s: nat)
    requires Fresh(seed, t)
    ensures FreshPath(seed, t, s, false)
  {
  }

  // ---- the receiver's run of processCommit ----

  lemma {:induction false} SameApplied(
      env: Env, a: ClientState, b: ClientState, props: seq<ProposalOrRef>, applied: Applied, newLeaf: Option<LeafNode>)
    requires MemberOk(a) && SameEpoch(a, b) && Knows(b, a, props)
    requires ApplyProposals(env, a, props, Some(a.privatePath.leaf), true, None, MemberType) == Ok(applied)
    requires HasLeaf(applied.tree, b.privatePath.leaf)
    ensures ApplyProposals(env, b, props, Some(a.privatePath.leaf), false, newLeaf, MemberType) == Ok(applied)
    ensures !applied.selfRemoved
  {
    hide ApplyProposals;
    AppliedAgrees(env, a, b, props, a.privatePath.leaf, newLeaf);
    NotFlagged(env, a, props, applied);
  }

  lemma {:induction false} PathErrorIs(
      env: Env, a: ClientState, b: ClientState, o: CommitOptions, d: Draft, seed: Secret)
    requires SameEpoch(a, b) && Valid(d.applied.tree) && !d.applied.kind.ExternalCommit?
    requires DraftPath(env, a, o, d.applied, seed) == Ok(d.created) && d.context == CheckedContext(a, d.applied.kind)
    ensures PathError(env, b, DraftContent(a, o, d), d.applied)
      == if LeafRefused(env, a.privatePath.leaf, d) then Some(LeafRejected) else None
  {
    hide UpdateOrCommitOk, CreateUpdatePath;
  }

  /** Same inputs, same schedule: the epoch the receiver derives is the committer's. */
  lemma {:induction false} EpochAgrees(
      a: ClientState, b: ClientState, o: CommitOptions, d: Draft, key: Option<PendingKey>, update: TreeUpdate)
    requires SameEpoch(a, b) && Valid(d.applied.tree) && !d.applied.kind.ExternalCommit?
    requires d.context == CheckedContext(a, d.applied.kind)
    requires key == AppliedUpdateKey(b.updateKeys, d.props)
    requires ApplyTreeUpdate(
      DraftContent(a, o, d).commit.path, Member(a.privatePath.leaf), d.applied.tree, OwnPath(b, key), d.context,
      ReceiverExcluded(d.applied.kind, d.applied.tree)) == Ok(update)
    requires update.tree == DraftTree(d) && update.treeHash == RootHash(DraftTree(d))
    requires update.commitSecret == CommitSecret(d.created)
    ensures var e := EpochOf(a, o, d);
      AdvanceEpoch(b, e.message, d.applied) ==
        Ok(ReceiverState(b, e.message, d.applied, key, update, e.context, e.secrets))
  {
    hide ApplyTreeUpdate, RootHash;
  }

  /** A receiver no Remove names accepts the commit unless the path's leaf is
      refused, and then shares the committer's new epoch with exact keys. */
  lemma {:induction false} ReceiverConverges(
      env: Env, a: ClientState, b: ClientState, o: CommitOptions, seed: Secret, d: Draft)
    requires GoodTree(a.tree) && MemberOk(a) && MemberOk(b) && SameEpoch(a, b) && Knows(b, a, d.props)
    requires a.privatePath.leaf != b.privatePath.leaf
    requires Drafted(env, a, o, seed, d) && Fresh(seed, d.applied.tree) && Stays(d.applied, b.privatePath.leaf)
    ensures var r := CreateCommit(env, a, o, seed).value;
      var p := ProcessCommit(env, b, r.message, true);
      if LeafRefused(env, a.privatePath.leaf, d) then p == Err(LeafRejected)
      else p.Ok? && Converged(r.state, b, p.value)
  {
    hide ApplyProposals, CreateCommit, DraftCommit, ApplyTreeUpdate, AdvanceEpoch, PathError, GoodTree, Exact, Covers,
      Signs, DraftPath, Fresh, RootHash, EpochOf, LeafRefused, ReceiverExcluded, CommitSecret, NewSecretTree,
      AddHistory, UpdateKeysOk, SendersKnown;
    var s, l, key := a.privatePath.leaf, b.privatePath.leaf, AppliedUpdateKey(b.updateKeys, d.props);
    DraftFacts(env, a, o, seed, d);
    var content := DraftContent(a, o, d);
    assert EpochOf(a, o, d).message.content == content by { MessageContent(a, o, d); }
    ReceiverCovers(env, a, b, d.props, d.applied);
    SameApplied(env, a, b, d.props, d.applied, PathLeaf(content.commit));
    PathErrorIs(env, a, b, o, d, seed);
    if !LeafRefused(env, s, d) {
      ReceiverAdvances(env, a, b, o, seed, d, key);
    }
  }

  lemma {:induction false} MessageContent(a: ClientState, o: CommitOptions, d: Draft)
    ensures EpochOf(a, o, d).message.content == DraftContent(a, o, d)
  {
  }

  /** The receiver's next state `n`: the committer's epoch, its own leaf, exact keys. */
  ghost predicate Converged(r: ClientState, b: ClientState, n: ClientState) {
    && SameEpoch(r, n) && n.secretTree == r.secretTree && n.active == r.active
    && MemberOk(n) && n.privatePath.leaf == b.privatePath.leaf
    && n.pending == [] == r.pending && n.updateKeys == map[] == r.updateKeys
  }

  lemma {:induction false} ReceiverAdvances(
      env: Env, a: ClientState, b: ClientState, o: CommitOptions, seed: Secret, d: Draft, key: Option<PendingKey>)
    requires GoodTree(a.tree) && MemberOk(a) && MemberOk(b) && SameEpoch(a, b)
    requires a.privatePath.leaf != b.privatePath.leaf
    requires Drafted(env, a, o, seed, d) && Fresh(seed, d.applied.tree)
    requires key == AppliedUpdateKey(b.updateKeys, d.props)
    requires HasLeaf(d.applied.tree, b.privatePath.leaf)
    requires Covers(d.applied.tree, OwnPath(b, key))
    requires Signs(d.applied.tree, b.privatePath.leaf, UpdatedSignKey(b, key))
    requires !Joined(Mutated(d.applied.tree, AddedOf(d.applied.kind)), b.privatePath.leaf)
    ensures Valid(d.applied.tree) && AdvanceEpoch(b, EpochOf(a, o, d).message, d.applied).Ok?
    ensures Converged(CreateCommit(env, a, o, seed).value.state, b,
      AdvanceEpoch(b, EpochOf(a, o, d).message, d.applied).value)
  {
    hide ApplyProposals, CreateCommit, DraftCommit, ApplyTreeUpdate, AdvanceEpoch, Exact, Covers, DraftPath, Drafted,
      GoodTree, Fresh, RootHash, EpochOf, ReceiverExcluded, CommitSecret, NewSecretTree, AddHistory, Joined,
      CommitApplied;
    var s, l := a.privatePath.leaf, b.privatePath.leaf;
    DraftFacts(env, a, o, seed, d);
    MemberCommitGood(env, a, d.props, s, true, None, d.applied);
    CommitterStays(env, a, d.props, s, d.applied);
    NotFlagged(env, a, d.props, d.applied);
    TreeUpdateAgrees(env, a, o, seed, d, OwnPath(b, key));
    var update := ApplyTreeUpdate(
      DraftContent(a, o, d).commit.path, Member(s), d.applied.tree, OwnPath(b, key), d.context,
      ReceiverExcluded(d.applied.kind, d.applied.tree)).value;
    EpochAgrees(a, b, o, d, key, update);
    OtherLeafKept(env, a, o, seed, d, l);
  }

  /** The committer's path leaves every other member's leaf as it is. */
  lemma {:induction false} OtherLeafKept(env: Env, a: ClientState, o: CommitOptions, seed: Secret, d: Draft, l: nat)
    requires Valid(d.applied.tree) && HasLeaf(d.applied.tree, a.privatePath.leaf)
    requires HasLeaf(d.applied.tree, l) && l != a.privatePath.leaf
    requires DraftPath(env, a, o, d.applied, seed) == Ok(d.created)
    ensures Valid(DraftTree(d)) && LeafAt(DraftTree(d), l) == LeafAt(d.applied.tree, l)
  {
    hide UpdateOrCommitOk, PathTree, NewSenderLeaf, SecretsAbove, SealPath;
    var s, t := a.privatePath.leaf, d.applied.tree;
    if d.created.Some? {
      NewTreeWritten(t, s, CheckedContext(a, d.applied.kind), a.signKey, seed, PatchOf(o));
      LeafNotOnPath(t, s, 0, l);
      LeafOffPath(t, s, l);
    }
  }

  lemma {:induction false} LeafOffPath(t: Tree, s: nat, l: nat)
    requires Valid(t) && 2 * s < |t|
    ensures 2 * l !in Nodes(FilteredPath(t, s))
  {
    LeafNotOnPath(t, s, 0, l);
    var path := FilteredPath(t, s);
    forall i | 0 <= i < |path| ensures path[i].node != 2 * l { assert InSuffix(path, 0, path[i].node); }
  }

  // ---- a receiver the commit removes ----

  /** Whether an Add takes a removed leaf can be told from the tree and the proposals alone. */
  lemma {:induction false} RefilledByCommit(
      env: Env, a: ClientState, props: seq<ProposalOrRef>, applied: Applied, l: nat)
    requires MemberOk(a) && l in Group(applied.all).removes
    requires ApplyProposals(env, a, props, Some(a.privatePath.leaf), true, None, MemberType) == Ok(applied)
    ensures Joined(Mutated(applied.tree, AddedOf(applied.kind)), l) <==> Refilled(a.tree, Group(applied.all), l)
    ensures At(applied.tree, 2 * l).None? <==> !Refilled(a.tree, Group(applied.all), l)
  {
    hide FoldUpdates, FoldRemoves, FoldAdds, ApplyMutations, PskSecret, ExtensionsAccepted, NewClients, PsksOk, Exact,
      Signs, Refilled, Vacant;
    var g, gc := Group(applied.all), ContextAfter(a.context, Group(applied.all));
    CommitterStays(env, a, props, a.privatePath.leaf, applied);
    MemberCommitApplied(env, a, props, a.privatePath.leaf, true, None, applied);
    RemoveIsMember(env, a, props, applied);
    SendersArePresent(a, props, a.privatePath.leaf, MemberType);
    RefilledIff(env, a.tree, g, gc, true, l);
    RefilledFlag(env, a.tree, g, gc, l);
  }

  lemma {:induction false} RefilledFlag(env: Env, t: Tree, g: Grouped, gc: GroupContext, l: nat)
    requires Valid(t) && OneChangePerLeaf(g) && SendersPresent(t, g.updates)
    requires ApplyMutations(env, t, g, gc, true).Ok? && l in g.removes
    ensures At(ApplyMutations(env, t, g, gc, true).value.tree, 2 * l).None? <==> !Refilled(t, g, l)
  {
    hide ApplyMutations, Vacant;
    RemovedFlagIff(env, t, g, gc, true, l);
  }

  /** A removed receiver learns it when the commit's Adds fill no more than the vacancies before its leaf. */
  lemma {:induction false} RemovedReceiver(
      env: Env, a: ClientState, b: ClientState, o: CommitOptions, seed: Secret, d: Draft)
    requires MemberOk(a) && SameEpoch(a, b) && Drafted(env, a, o, seed, d) && Knows(b, a, d.props)
    requires !Stays(d.applied, b.privatePath.leaf) && !Refilled(a.tree, Group(d.applied.all), b.privatePath.leaf)
    ensures ProcessCommit(env, b, CreateCommit(env, a, o, seed).value.message, true)
      == if LeafRefused(env, a.privatePath.leaf, d) then Err(LeafRejected) else Ok(RemovedState(b))
  {
    hide ApplyProposals, CreateCommit, DraftCommit, PathError, DraftPath, EpochOf, LeafRefused, AdvanceEpoch, Exact,
      Signs, Refilled;
    var s := a.privatePath.leaf;
    DraftFacts(env, a, o, seed, d);
    MessageContent(a, o, d);
    assert EpochOf(a, o, d).message.content == DraftContent(a, o, d);
    AppliedAgrees(env, a, b, d.props, s, PathLeaf(DraftContent(a, o, d).commit));
    CommitterStays(env, a, d.props, s, d.applied);
    RemoveIsMember(env, a, d.props, d.applied);
    RefilledByCommit(env, a, d.props, d.applied, b.privatePath.leaf);
    var seen := SeenBy(d.applied, b.privatePath.leaf);
    PathErrorIs(env, a, b, o, d, seed);
    PathErrorSeen(env, b, DraftContent(a, o, d), d.applied, b.privatePath.leaf);
  }

  lemma {:induction false} PathErrorSeen(env: Env, b: ClientState, content: CommitContent, applied: Applied, l: nat)
    ensures PathError(env, b, content, SeenBy(applied, l)) == PathError(env, b, content, applied)
  {
  }

  lemma {:induction false} RemoveIsMember(env: Env, a: ClientState, props: seq<ProposalOrRef>, applied: Applied)
    requires MemberOk(a)
    requires ApplyProposals(env, a, props, Some(a.privatePath.leaf), true, None, MemberType) == Ok(applied)
    ensures Group(applied.all).removes != [] ==> applied.kind.MemberCommit? && applied.needsPath
  {
    hide FoldUpdates, FoldRemoves, FoldAdds, ProposalsOk;
    var all := applied.all;
    if Group(all).reinits != [] { ReinitAlone(all); }
  }

  /** When its leaf was filled again the removed receiver holds no key for any
      recipient, so the commit throws: the member is not told it was removed. */
  lemma {:induction false} RefilledReceiver(
      env: Env, a: ClientState, b: ClientState, o: CommitOptions, seed: Secret, d: Draft)
    requires GoodTree(a.tree) && MemberOk(a) && MemberOk(b) && SameEpoch(a, b) && Knows(b, a, d.props)
    requires a.privatePath.leaf != b.privatePath.leaf && Drafted(env, a, o, seed, d) && Fresh(seed, d.applied.tree)
    requires !Stays(d.applied, b.privatePath.leaf) && Refilled(a.tree, Group(d.applied.all), b.privatePath.leaf)
    ensures ProcessCommit(env, b, CreateCommit(env, a, o, seed).value.message, true).Err?
  {
    hide ApplyProposals, CreateCommit, DraftCommit, PathError, DraftPath, EpochOf, LeafRefused, AdvanceEpoch, Exact,
      Signs, GoodTree, UpdateKeysOk, SendersKnown, Fresh, Refilled;
    var s, l := a.privatePath.leaf, b.privatePath.leaf;
    DraftFacts(env, a, o, seed, d);
    RefilledByCommit(env, a, d.props, d.applied, l);
    MessageContent(a, o, d);
    assert EpochOf(a, o, d).message.content == DraftContent(a, o, d);
    AppliedAgrees(env, a, b, d.props, s, PathLeaf(DraftContent(a, o, d).commit));
    var seen := SeenBy(d.applied, l);
    PathErrorIs(env, a, b, o, d, seed);
    PathErrorSeen(env, b, DraftContent(a, o, d), d.applied, l);
    RefilledFacts(env, a, d.props, d.applied, l);
    assert !seen.selfRemoved;
    if !LeafRefused(env, s, d) {
      MemberCommitGood(env, a, d.props, s, true, None, d.applied);
      GoodIsTreeOk(d.applied.tree);
      RefilledCannotOpen(env, a, b, o, seed, d);
      UpdateFails(a, b, o, d);
    }
  }

  /** So a member a commit removes is told exactly when the path's leaf stands and
      no Add of the commit is left over for its own leaf. */
  lemma {:induction false} RemovedToldIff(
      env: Env, a: ClientState, b: ClientState, o: CommitOptions, seed: Secret, d: Draft)
    requires GoodTree(a.tree) && MemberOk(a) && MemberOk(b) && SameEpoch(a, b) && Knows(b, a, d.props)
    requires a.privatePath.leaf != b.privatePath.leaf && Drafted(env, a, o, seed, d) && Fresh(seed, d.applied.tree)
    requires !Stays(d.applied, b.privatePath.leaf)
    ensures ProcessCommit(env, b, CreateCommit(env, a, o, seed).value.message, true) == Ok(RemovedState(b))
      <==> !LeafRefused(env, a.privatePath.leaf, d) && !Refilled(a.tree, Group(d.applied.all), b.privatePath.leaf)
  {
    hide ProcessCommit, CreateCommit, LeafRefused, Refilled, GoodTree, MemberOk, Fresh;
    if Refilled(a.tree, Group(d.applied.all), b.privatePath.leaf) {
      RefilledReceiver(env, a, b, o, seed, d);
    } else {
      RemovedReceiver(env, a, b, o, seed, d);
    }
  }

  // ---- who follows a commit ----

  /** Nobody applies a commit that references a proposal they have not pending. */
  lemma {:induction false} MissingProposal(env: Env, b: ClientState, o: CommitOptions, a: ClientState, d: Draft)
    requires Valid(b.tree) && SameEpoch(a, b) && !Holds(b, d.props)
    ensures ProcessCommit(env, b, EpochOf(a, o, d).message, true).Err?
  {
    hide FoldUpdates, FoldRemoves, FoldAdds, PathError, AdvanceEpoch, EpochOf, Holds;
    MessageContent(a, o, d);
    ResolvesIff(b, d.props, Some(a.privatePath.leaf), MemberType);
    ApplyNeedsResolve(env, b, d.props, Some(a.privatePath.leaf), PathLeaf(DraftContent(a, o, d).commit), MemberType);
  }

  lemma {:induction false} ApplyNeedsResolve(
      env: Env, b: ClientState, props: seq<ProposalOrRef>, committer: Option<nat>, newLeaf: Option<LeafNode>,
      sender: SenderType)
    requires Valid(b.tree) && Resolve(props, b.pending, committer, sender).Err?
    ensures ApplyProposals(env, b, props, committer, false, newLeaf, sender).Err?
  {
    hide FoldUpdates, FoldRemoves, FoldAdds, PskSecret, ProposalsOk;
  }

  lemma {:induction false} CommitterHolds(env: Env, a: ClientState, o: CommitOptions, seed: Secret, d: Draft)
    requires Drafted(env, a, o, seed, d)
    ensures Holds(a, d.props)
  {
    hide DraftCommit, CreateCommit, FoldUpdates, FoldRemoves, FoldAdds, PskSecret, ProposalsOk, Holds, DraftPath,
      EpochOf, CommitterState;
    DraftFacts(env, a, o, seed, d);
    ResolvesIff(a, d.props, Some(a.privatePath.leaf), MemberType);
  }

  lemma {:induction false} NewEpochNumber(env: Env, a: ClientState, o: CommitOptions, seed: Secret, d: Draft)
    requires Drafted(env, a, o, seed, d)
    ensures CreateCommit(env, a, o, seed).value.state.context.epoch == a.context.epoch + 1
  {
    hide DraftCommit, CreateCommit, ApplyProposals, DraftPath, RootHash, InitializeEpoch, ConfirmationTag,
      CommitterPath, AddHistory;
    DraftFacts(env, a, o, seed, d);
    AppliedEpoch(env, a, d.props, d.applied);
  }

  lemma {:induction false} AppliedEpoch(env: Env, a: ClientState, props: seq<ProposalOrRef>, applied: Applied)
    requires Valid(a.tree)
    requires ApplyProposals(env, a, props, Some(a.privatePath.leaf), true, None, MemberType) == Ok(applied)
    ensures CheckedContext(a, applied.kind).epoch == a.context.epoch
  {
    hide FoldUpdates, FoldRemoves, FoldAdds, ProposalsOk, PskSecret;
  }

  /** Which members a commit takes into the next epoch: those that hold what it
      references and stay, given that its path's leaf stands. They converge. */
  lemma {:induction false} FollowsIff(
      env: Env, a: ClientState, b: ClientState, o: CommitOptions, seed: Secret, d: Draft)
    requires GoodTree(a.tree) && MemberOk(a) && MemberOk(b) && SameEpoch(a, b) && SameProposals(a, b)
    requires a.privatePath.leaf != b.privatePath.leaf && Drafted(env, a, o, seed, d) && Fresh(seed, d.applied.tree)
    ensures var r := CreateCommit(env, a, o, seed).value;
      var p := ProcessCommit(env, b, r.message, true);
      && (p.Ok? && p.value.context.epoch == a.context.epoch + 1
          <==> Holds(b, d.props) && Stays(d.applied, b.privatePath.leaf) && !LeafRefused(env, a.privatePath.leaf, d))
      && (p.Ok? && p.value.context.epoch == a.context.epoch + 1 ==> Converged(r.state, b, p.value))
  {
    hide ProcessCommit, CreateCommit, DraftCommit, LeafRefused, Refilled, GoodTree, MemberOk, Fresh, Stays, Holds,
      SameProposals, Knows;
    NewEpochNumber(env, a, o, seed, d);
    if !Holds(b, d.props) {
      assert Valid(b.tree) by { MemberValid(b); }
      DraftFacts(env, a, o, seed, d);
      MissingProposal(env, b, o, a, d);
    } else {
      CommitterHolds(env, a, o, seed, d);
      HoldsKnows(a, b, d.props);
      if Stays(d.applied, b.privatePath.leaf) {
        ReceiverConverges(env, a, b, o, seed, d);
      } else if Refilled(a.tree, Group(d.applied.all), b.privatePath.leaf) {
        RefilledReceiver(env, a, b, o, seed, d);
      } else {
        RemovedReceiver(env, a, b, o, seed, d);
      }
    }
  }

  lemma {:induction false} MemberValid(b: ClientState)
    requires MemberOk(b)
    ensures Valid(b.tree)
  {
  }

  lemma {:induction false} GoodKeys(t: Tree)
    requires GoodTree(t)
    ensures Valid(t) && KeysDistinct(t)
  {
  }

  lemma {:induction false} GoodIsTreeOk(t: Tree)
    requires GoodTree(t)
    ensures TreeOk(t)
  {
  }

  lemma {:induction false} UpdateFails(a: ClientState, b: ClientState, o: CommitOptions, d: Draft)
    requires SameEpoch(a, b) && Valid(d.applied.tree) && d.context == CheckedContext(a, d.applied.kind)
    requires ApplyTreeUpdate(
      DraftContent(a, o, d).commit.path, Member(a.privatePath.leaf), d.applied.tree,
      OwnPath(b, AppliedUpdateKey(b.updateKeys, d.props)), d.context,
      ReceiverExcluded(d.applied.kind, d.applied.tree)).Err?
    ensures AdvanceEpoch(b, EpochOf(a, o, d).message, SeenBy(d.applied, b.privatePath.leaf)).Err?
  {
    hide ApplyTreeUpdate, RootHash;
  }

  lemma {:induction false} RefilledFacts(env: Env, a: ClientState, props: seq<ProposalOrRef>, applied: Applied, l: nat)
    requires MemberOk(a) && a.privatePath.leaf != l
    requires ApplyProposals(env, a, props, Some(a.privatePath.leaf), true, None, MemberType) == Ok(applied)
    requires l in Group(applied.all).removes && Joined(Mutated(applied.tree, AddedOf(applied.kind)), l)
    ensures Valid(applied.tree) && HasLeaf(applied.tree, l) && BlankAbove(applied.tree, l)
    ensures applied.kind.MemberCommit? && applied.needsPath && 2 * l in AddedNodes(applied.kind.added)
  {
    hide FoldUpdates, FoldRemoves, FoldAdds, ProposalsOk;
    var all, st := applied.all, a;
    var g := Group(all);
    CommitterStays(env, a, props, a.privatePath.leaf, applied);
    RemoveIsMember(env, a, props, applied);
    RemovedIsBlankAbove(env, a.tree, g, ContextAfter(a.context, g), true, l);
    var m := Mutated(applied.tree, applied.kind.added);
    var i :| 0 <= i < |m.added| && m.added[i].leaf == l;
    assert AddedNodes(applied.kind.added)[i] == 2 * l;
  }

  /** None of the keys an excluded or vacated leaf below blank nodes holds is a recipient's. */
  lemma {:induction false} NothingHeld(
      t: Tree, s: nat, l: nat, keys: map<nat, Secret>, exclude: seq<nat>, e: PathEntry)
    requires Valid(t) && ListsBelow(t) && HasLeaf(t, s) && e in FilteredPath(t, s)
    requires BlankAbove(t, l) && (2 * l in exclude || At(t, 2 * l).None?)
    requires forall n | n in keys :: n == 2 * l || OnPath(l, n)
    ensures FirstHeld(FilterNew(e.resolution, exclude), keys) == None
  {
    hide FilteredFrom, Resolution, ListsBelow;
    var c := EntryResolution(t, 2 * s, e);
    forall n | n in FilterNew(e.resolution, exclude) ensures n !in keys {
      if n % 2 == 1 { ResolutionParents(t, c, n); }
      if n == 2 * l { ResolutionNames(t, c, l); }
    }
  }

  lemma {:induction false} RefilledCannotOpen(
      env: Env, a: ClientState, b: ClientState, o: CommitOptions, seed: Secret, d: Draft)
    requires MemberOk(a) && MemberOk(b) && SameEpoch(a, b) && a.privatePath.leaf != b.privatePath.leaf
    requires ApplyProposals(env, a, d.props, Some(a.privatePath.leaf), true, None, MemberType) == Ok(d.applied)
    requires TreeOk(d.applied.tree) && DraftPath(env, a, o, d.applied, seed) == Ok(d.created)
    requires b.privatePath.leaf in Group(d.applied.all).removes
    requires Joined(Mutated(d.applied.tree, AddedOf(d.applied.kind)), b.privatePath.leaf)
    ensures ApplyTreeUpdate(
      DraftContent(a, o, d).commit.path, Member(a.privatePath.leaf), d.applied.tree,
      OwnPath(b, AppliedUpdateKey(b.updateKeys, d.props)), d.context,
      ReceiverExcluded(d.applied.kind, d.applied.tree)).Err?
  {
    hide ApplyProposals, CreateUpdatePath, ApplyUpdatePath, ReceivePath, UpdateKeysOk, SendersKnown, Signs,
      BlankAbove, CommitApplied, UpdateOrCommitOk, Joined, Covers, Exact, UnmergedOk, BothSides;
    var s, l, t := a.privatePath.leaf, b.privatePath.leaf, d.applied.tree;
    RefilledFacts(env, a, d.props, d.applied, l);
    CommitterStays(env, a, d.props, s, d.applied);
    var key := AppliedUpdateKey(b.updateKeys, d.props);
    var c, own := d.created.value, OwnPath(b, key);
    UnmergedBelow(t);
    var exclude := AddedNodes(d.applied.kind.added);
    if ApplyUpdatePath(t, s, c.path, false).Ok? {
      var u := ApplyUpdatePath(t, s, c.path, false).value;
      ExactNodes(b.tree, b.privatePath);
      AcceptedPath(t, s, c.path, false);
      ReceiveFails(t, u, s, own, NextContext(d.context, RootHash(u)), c.path, exclude);
    }
  }

  lemma {:induction false} ExactNodes(t: Tree, p: PrivatePath)
    requires Exact(t, p)
    ensures forall n | n in p.keys :: n == 2 * p.leaf || OnPath(p.leaf, n)
  {
  }

  lemma {:induction false} ReceiveFails(
      t: Tree, u: Tree, s: nat, own: PrivatePath, context: GroupContext, path: UpdatePath, exclude: seq<nat>)
    requires Valid(t) && ListsBelow(t) && Valid(u) && HasLeaf(t, s)
    requires |u| == |t| && FilteredPath(u, s) == FilteredPath(t, s)
    requires BlankAbove(t, own.leaf) && (2 * own.leaf in exclude || At(t, 2 * own.leaf).None?)
    requires forall n | n in own.keys :: n == 2 * own.leaf || OnPath(own.leaf, n)
    ensures ReceivePath(u, own, s, context, path, exclude).Err?
  {
    hide FilteredFrom, PathSecretsAlong, OnPath;
    var entries := FilteredPath(t, s);
    match FirstMatch(entries, own.leaf)
    case None =>
    case Some(i) =>
      assert entries[i] in entries;
      NothingHeld(t, s, own.leaf, own.keys, exclude, entries[i]);
  }
}

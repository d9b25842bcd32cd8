/** The commit transition seen from every side: the committer (createCommit), a
    receiver (processCommit), a joiner (joinGroupWithGroupInfo) and an external
    joiner (joinGroupExternal). */
module Commits {
  import opened Options
  import opened Terms
  import opened TreeMath
  import opened RatchetTree
  import opened ParentHashes
  import opened UpdatePaths
  import opened LeafValidation
  import opened ClientStates
  import opened PrivateKeys
  import opened KeyOwnership
  import opened Proposals
  import opened FilterPending

  // ---- shared by every side ----

  /** nextEpochContext. */
  function NextEpochContext(
      gc: GroupContext, content: CommitContent, signature: CommitSignature, treeHash: Digest, tag: Tag): GroupContext {
    var interim := if gc.epoch == 0 then NoBytes else InterimHash(gc.confirmed, tag);
    gc.(epoch := gc.epoch + 1, treeHash := treeHash, confirmed := ConfirmedHash(interim, content, signature))
  }

  function ConfirmationTag(schedule: KeySchedule, gc: GroupContext): Tag {
    Mac(schedule.confirmation, gc.confirmed)
  }

  function RootHash(t: Tree): Digest {
    TreeHash(t, Root(|t|))
  }

  function NewSecretTree(t: Tree, encryption: Secret): SecretTree {
    SecretTree(|t| / 2 + 1, encryption, 0)
  }

  /** The context Updates, Adds and the committer's leaf are checked against. */
  function CheckedContext(st: ClientState, kind: Kind): GroupContext {
    if kind.MemberCommit? then kind.context else st.context
  }

  function ActiveAfter(kind: Kind): Active {
    if kind.ReinitCommit? then SuspendedPendingReinit(kind.reinit) else IsActive
  }

  function AddedNodes(added: seq<Added>): (r: seq<nat>)
    ensures |r| == |added| && forall i | 0 <= i < |added| :: r[i] == 2 * added[i].leaf
  {
    seq(|added|, i requires 0 <= i < |added| => 2 * added[i].leaf)
  }

  datatype CommitMessage = CommitMessage(content: CommitContent, signature: CommitSignature, tag: Tag)

  // ---- the committer ----

  datatype CommitOptions = CommitOptions(
    publicWire: bool, extra: seq<Proposal>, authenticatedData: nat, patch: Option<LeafPatch>)

  function SendError(st: ClientState): Option<Error> {
    match st.active
    case SuspendedPendingReinit(_) => Some(Suspended)
    case RemovedFromGroup => Some(Removed)
    case IsActive => None
  }

  function ByRefs(refs: seq<Ref>): seq<ProposalOrRef> {
    seq(|refs|, i requires 0 <= i < |refs| => ByReference(refs[i]))
  }

  function ByValues(ps: seq<Proposal>): seq<ProposalOrRef> {
    seq(|ps|, i requires 0 <= i < |ps| => ByValue(ps[i]))
  }

  datatype Draft = Draft(props: seq<ProposalOrRef>, applied: Applied, context: GroupContext, created: Option<Created>)

  function ExcludedNodes(kind: Kind): seq<nat> {
    if kind.MemberCommit? then AddedNodes(kind.added) else []
  }

  function DraftPath(
      env: Env, st: ClientState, o: CommitOptions, applied: Applied, seed: Secret): Result<Option<Created>>
    requires Valid(applied.tree)
  {
    if !applied.needsPath && o.patch.None? then Ok(None) else
    var s, context := st.privatePath.leaf, CheckedContext(st, applied.kind);
    var created :- CreateUpdatePath(
      applied.tree, s, context, st.signKey, seed, ExcludedNodes(applied.kind), OrElse(o.patch, NoPatch));
    if o.patch.Some? && !UpdateOrCommitOk(
         env, created.path.leaf, s, context, applied.tree, LeafCredential(applied.tree, s)) then Err(LeafRejected)
    else Ok(Some(created))
  }

  lemma {:induction false} ApplyProposalsValid(
      env: Env, st: ClientState, props: seq<ProposalOrRef>, committer: Option<nat>, sent: bool,
      newLeaf: Option<LeafNode>, sender: SenderType)
    requires Valid(st.tree)
    ensures ApplyProposals(env, st, props, committer, sent, newLeaf, sender).Ok? ==>
      Valid(ApplyProposals(env, st, props, committer, sent, newLeaf, sender).value.tree)
  {
    hide ProposalsOk, FoldUpdates, FoldRemoves, FoldAdds;
  }

  /** The proposals, the tree they leave and the path over it. */
  function DraftCommit(env: Env, st: ClientState, o: CommitOptions, seed: Secret): Result<Draft>
    requires Valid(st.tree)
  {
    var s := st.privatePath.leaf;
    var refs :- FilterPendingProposals(env, st, o.extra);
    var props := ByRefs(refs) + ByValues(o.extra);
    var applied :- ApplyProposals(env, st, props, Some(s), true, None, MemberType);
    ApplyProposalsValid(env, st, props, Some(s), true, None, MemberType);
    if applied.kind.ExternalCommit? then Err(ExternalAsMember) else
    var created :- DraftPath(env, st, o, applied, seed);
    Ok(Draft(props, applied, CheckedContext(st, applied.kind), created))
  }

  function DraftTree(d: Draft): Tree {
    if d.created.Some? then d.created.value.tree else d.applied.tree
  }

  function CommitSecret(created: Option<Created>): Secret {
    if created.None? || created.value.secrets == [] then Zero
    else Derived(created.value.secrets[|created.value.secrets| - 1].secret, PathLabel)
  }

  function DraftContent(st: ClientState, o: CommitOptions, d: Draft): CommitContent {
    CommitContent(
      if o.publicWire then PublicWire else PrivateWire, st.context.groupId, st.context.epoch,
      Member(st.privatePath.leaf), o.authenticatedData,
      Commit(d.props, if d.created.Some? then Some(d.created.value.path) else None))
  }

  /** Everything after the draft that cannot fail: the new epoch and the message. */
  datatype NewEpoch = NewEpoch(context: GroupContext, secrets: EpochSecrets, message: CommitMessage)

  function EpochOf(st: ClientState, o: CommitOptions, d: Draft): NewEpoch {
    var content := DraftContent(st, o, d);
    var signature := CommitSignature(st.signKey, content, st.context);
    var context := NextEpochContext(d.context, content, signature, RootHash(DraftTree(d)), st.tag);
    var secrets := InitializeEpoch(st.schedule.init, CommitSecret(d.created), context, d.applied.pskSecret);
    NewEpoch(context, secrets, CommitMessage(content, signature, ConfirmationTag(secrets.derived.schedule, context)))
  }

  function CommitterPath(st: ClientState, d: Draft): PrivatePath {
    if d.created.None? then
      PruneBlanked(MergePaths(st.privatePath, PrivatePath(st.privatePath.leaf, map[])), d.applied.tree)
    else CommitterKeys(st.privatePath, d.created.value.secrets, d.created.value.leafKey, d.created.value.tree)
  }

  function NewSignKey(st: ClientState, o: CommitOptions): Secret {
    if o.patch.Some? then OrElse(o.patch.value.signature, st.signKey) else st.signKey
  }

  function CommitterState(st: ClientState, o: CommitOptions, d: Draft): ClientState {
    var e := EpochOf(st, o, d);
    ClientState(
      e.context, e.secrets.derived.schedule, NewSecretTree(DraftTree(d), e.secrets.derived.encryption), DraftTree(d),
      CommitterPath(st, d), NewSignKey(st, o), [], map[], e.message.tag, AddHistory(st),
      if d.applied.selfRemoved then RemovedFromGroup else ActiveAfter(d.applied.kind),
      st.retain, st.maxPending)
  }

  // ---- the Welcome ----

  datatype GroupInfo = GroupInfo(context: GroupContext, tag: Tag, signer: nat, tree: Tree, signedBy: Secret)

  datatype GroupSecrets = GroupSecrets(joiner: Secret, pathSecret: Option<Secret>, psks: seq<PskId>)

  /** Group secrets sealed to a KeyPackage's init key, under that KeyPackage's reference. */
  datatype SealedSecrets = SealedSecrets(newMember: KeyPackage, to: PublicKey, secrets: GroupSecrets)

  /** `key` is the welcome secret the GroupInfo is encrypted under. */
  datatype Welcome = Welcome(secrets: seq<SealedSecrets>, key: Secret, info: GroupInfo)

  function FindSecret(secrets: seq<PathSecret>, node: nat): Option<Secret> {
    if secrets == [] then None
    else if secrets[0].node == node then Some(secrets[0].secret)
    else FindSecret(secrets[1..], node)
  }

  /** createEncryptedGroupSecrets for one new member. */
  function SealFor(d: Draft, s: nat, joiner: Secret, a: Added): Result<SealedSecrets>
    requires Full(|DraftTree(d)|) && 2 * s < |DraftTree(d)|
  {
    var path := FilteredPath(DraftTree(d), s);
    match FirstMatch(path, a.leaf)
    case None => Err(NoCommonAncestor)
    case Some(i) =>
      var pathSecret := if d.created.Some? then FindSecret(d.created.value.secrets, path[i].node) else None;
      Ok(SealedSecrets(a.keyPackage, a.keyPackage.initKey, GroupSecrets(joiner, pathSecret, d.applied.pskIds)))
  }

  function SealForAll(d: Draft, s: nat, joiner: Secret, added: seq<Added>): Result<seq<SealedSecrets>>
    requires Full(|DraftTree(d)|) && 2 * s < |DraftTree(d)|
  {
    if added == [] then Ok([]) else
    var first :- SealFor(d, s, joiner, added[0]);
    var rest :- SealForAll(d, s, joiner, added[1..]);
    Ok([first] + rest)
  }

  function CreateWelcome(st: ClientState, o: CommitOptions, d: Draft): Result<Option<Welcome>>
    requires Full(|DraftTree(d)|) && 2 * st.privatePath.leaf < |DraftTree(d)|
  {
    var e, s := EpochOf(st, o, d), st.privatePath.leaf;
    var sealed :- SealForAll(d, s, e.secrets.joiner, if d.applied.kind.MemberCommit? then d.applied.kind.added else []);
    if sealed == [] then Ok(None) else
    Ok(Some(Welcome(
      sealed, e.secrets.welcome,
      GroupInfo(e.context, e.message.tag, s, DraftTree(d), NewSignKey(st, o)))))
  }

  datatype CommitResult = CommitResult(state: ClientState, message: CommitMessage, welcome: Option<Welcome>)

  lemma {:induction false} DraftValid(env: Env, st: ClientState, o: CommitOptions, seed: Secret)
    requires Valid(st.tree) && DraftCommit(env, st, o, seed).Ok?
    ensures Valid(DraftTree(DraftCommit(env, st, o, seed).value))
  {
    hide ApplyProposals, UpdateOrCommitOk, PathTree, NewSenderLeaf, SealPath, SecretsAbove;
    var d := DraftCommit(env, st, o, seed).value;
    ApplyProposalsValid(env, st, d.props, Some(st.privatePath.leaf), true, None, MemberType);
  }

  function CreateCommit(env: Env, st: ClientState, o: CommitOptions, seed: Secret): Result<CommitResult>
    requires Valid(st.tree)
  {
    var err := SendError(st);
    if err.Some? then Err(err.value) else
    var d :- DraftCommit(env, st, o, seed);
    DraftValid(env, st, o, seed);
    if 2 * st.privatePath.leaf >= |DraftTree(d)| then Err(NotLeaf) else
    var welcome :- CreateWelcome(st, o, d);
    Ok(CommitResult(CommitterState(st, o, d), EpochOf(st, o, d).message, welcome))
  }

  // ---- a receiver ----

  /** appliedPendingUpdateKey: the pending key of the first proposal that is one of ours. */
  function AppliedUpdateKey(keys: map<Ref, PendingKey>, props: seq<ProposalOrRef>): Option<PendingKey> {
    if props == [] then None
    else if props[0].ByReference? && props[0].ref in keys then Some(keys[props[0].ref])
    else AppliedUpdateKey(keys, props[1..])
  }

  function OwnPath(st: ClientState, key: Option<PendingKey>): PrivatePath {
    if key.None? then st.privatePath else UpdateLeafKey(st.privatePath, key.value.hpke)
  }

  datatype TreeUpdate = TreeUpdate(keys: Option<PrivatePath>, commitSecret: Secret, tree: Tree, treeHash: Digest)

  function ReceiverExcluded(kind: Kind, t: Tree): seq<nat>
    requires Valid(t)
  {
    if kind.MemberCommit? then AddedNodes(kind.added) else [NewLeafNode(t)]
  }

  /** applyTreeUpdate. */
  function ApplyTreeUpdate(
      path: Option<UpdatePath>, sender: Sender, t: Tree, own: PrivatePath, gc: GroupContext, exclude: seq<nat>):
      Result<TreeUpdate>
    requires Valid(t)
  {
    if path.None? then Ok(TreeUpdate(None, Zero, t, RootHash(t)))
    else if sender.Member? then ApplyPathAs(t, sender.leaf, path.value, false, own, gc, exclude)
    else
      AddLeafAt(t, path.value.leaf);
      var (u, n) := AddLeaf(t, path.value.leaf);
      ApplyPathAs(u, n / 2, path.value, true, own, gc, exclude)
  }

  function ApplyPathAs(
      t: Tree, s: nat, path: UpdatePath, external: bool, own: PrivatePath, gc: GroupContext, exclude: seq<nat>):
      Result<TreeUpdate>
    requires Valid(t)
  {
    var u :- ApplyUpdatePath(t, s, path, external);
    var received :- ReceivePath(u, own, s, NextContext(gc, RootHash(u)), path, exclude);
    Ok(TreeUpdate(Some(received.0), received.1, u, RootHash(u)))
  }

  function SenderLeaf(s: Sender): Option<nat> {
    if s.Member? then Some(s.leaf) else None
  }

  function SenderTypeOf(s: Sender): SenderType {
    match s
    case Member(_) => MemberType
    case External(_) => ExternalType
    case NewMemberProposal => NewMemberProposalType
    case NewMemberCommit => NewMemberCommitType
  }

  function PathLeaf(c: Commit): Option<LeafNode> {
    if c.path.Some? then Some(c.path.value.leaf) else None
  }

  /** The checks on the commit's own path and leaf, after its proposals applied. */
  function PathError(env: Env, st: ClientState, content: CommitContent, applied: Applied): Option<Error> {
    var path := content.commit.path;
    var committer := if content.sender.Member? then Some(content.sender.leaf)
      else if applied.kind.ExternalCommit? then Some(applied.kind.newLeaf) else None;
    if path.None? then (if applied.needsPath then Some(PathRequired) else None)
    else if committer.None? then Some(NoCommitter)
    else
      var prior := if applied.kind.ExternalCommit? && applied.kind.prior.Some? then applied.kind.prior
        else LeafCredential(applied.tree, committer.value);
      if UpdateOrCommitOk(env, path.value.leaf, committer.value, CheckedContext(st, applied.kind), applied.tree, prior)
      then None else Some(LeafRejected)
  }

  function ReceiverState(
      st: ClientState, m: CommitMessage, applied: Applied, key: Option<PendingKey>, update: TreeUpdate,
      context: GroupContext, secrets: EpochSecrets): ClientState {
    var own := OwnPath(st, key);
    st.(
      updateKeys := map[],
      signKey := if key.Some? then OrElse(key.value.signature, st.signKey) else st.signKey,
      secretTree := NewSecretTree(update.tree, secrets.derived.encryption),
      tree := update.tree,
      privatePath := PruneBlanked(
        if update.keys.None? then own else MergePaths(own, update.keys.value), update.tree),
      context := context,
      schedule := secrets.derived.schedule,
      tag := m.tag,
      history := AddHistory(st),
      pending := [],
      active := ActiveAfter(applied.kind))
  }

  function RemovedState(st: ClientState): ClientState {
    st.(updateKeys := map[], pending := [], active := RemovedFromGroup)
  }

  /** processCommit; `accept` is the application's answer to the commit. */
  function ProcessCommit(env: Env, st: ClientState, m: CommitMessage, accept: bool): Result<ClientState>
    requires Valid(st.tree)
  {
    if m.content.epoch != st.context.epoch then Err(WrongEpoch) else
    var c, sender := m.content.commit, m.content.sender;
    var applied :- ApplyProposals(
      env, st, c.proposals, SenderLeaf(sender), false, PathLeaf(c), SenderTypeOf(sender));
    ApplyProposalsValid(env, st, c.proposals, SenderLeaf(sender), false, PathLeaf(c), SenderTypeOf(sender));
    if !accept then Ok(st) else
    var pathError := PathError(env, st, m.content, applied);
    if pathError.Some? then Err(pathError.value)
    else if applied.selfRemoved then Ok(RemovedState(st))
    else AdvanceEpoch(st, m, applied)
  }

  function AdvanceEpoch(st: ClientState, m: CommitMessage, applied: Applied): Result<ClientState>
    requires Valid(applied.tree)
  {
    var key := AppliedUpdateKey(st.updateKeys, m.content.commit.proposals);
    var gc := CheckedContext(st, applied.kind);
    var update :- ApplyTreeUpdate(
      m.content.commit.path, m.content.sender, applied.tree, OwnPath(st, key), gc,
      ReceiverExcluded(applied.kind, applied.tree));
    var context := NextEpochContext(gc, m.content, m.signature, update.treeHash, st.tag);
    var init := if applied.kind.ExternalCommit? then applied.kind.initSecret else st.schedule.init;
    var secrets := InitializeEpoch(init, update.commitSecret, context, applied.pskSecret);
    if m.tag != ConfirmationTag(secrets.derived.schedule, context) then Err(BadConfirmation)
    else Ok(ReceiverState(st, m, applied, key, update, context, secrets))
  }
}

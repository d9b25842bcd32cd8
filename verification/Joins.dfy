/** Joining a group: from a Welcome (joinGroupWithGroupInfo and validateRatchetTree
    in src/client-state.ts) and by an external commit (joinGroupExternal in
    src/create-commit.ts). */
module Joins {
  import opened Options
  import opened Terms
  import opened TreeMath
  import opened RatchetTree
  import opened ParentHashes
  import opened UpdatePaths
  import opened LeafValidation
  import opened ClientStates
  import opened PrivateKeys
  import opened UnmergedLeaves
  import opened Proposals
  import opened Commits
  import ParentHashCheck
  import opened StandardLinks

  // ---- accepting a tree ----

  /** A leaf as a joiner checks it, against the other leaves of the tree it is in. */
  predicate LeafAccepted(env: Env, t: Tree, gc: GroupContext, x: nat, leaf: LeafNode) {
    if leaf.source.FromKeyPackage? then
      && env.usableSignatureKey(leaf.sigKey)
      && leaf.sigKey == Pub(leaf.signature.signer) && leaf.signature.place == None
      && (env.validateLifetimeOnReceive ==> env.lifetimeOk(leaf.source.lifetime))
      && CommonOk(env, leaf, gc, t, Some(x / 2), None)
    else UpdateOrCommitOk(env, leaf, x / 2, gc, t, LeafCredential(t, x / 2))
  }

  predicate LeavesAccepted(env: Env, t: Tree, gc: GroupContext) {
    forall x | 0 <= x < |t| && NodeLeaf(t, x).Some? :: LeafAccepted(env, t, gc, x, NodeLeaf(t, x).value)
  }

  ghost predicate TreeAccepted(env: Env, t: Tree, gc: GroupContext) {
    && Valid(t)
    && ParentHashCheck.ParentHashesVerified(t)
    && RootHash(t) == gc.treeHash
    && UnmergedOk(t)
    && KeysDistinct(t)
    && LeavesAccepted(env, t, gc)
  }

  /** The same with the links of section 7.9.2 of RFC 9420. */
  ghost predicate StandardAccepted(env: Env, t: Tree, gc: GroupContext) {
    && Valid(t)
    && StandardVerified(t)
    && RootHash(t) == gc.treeHash
    && UnmergedOk(t)
    && KeysDistinct(t)
    && LeavesAccepted(env, t, gc)
  }

  /** A joiner accepts nothing the standard refuses. It refuses what the standard
      accepts only over a list that repeats a leaf. */
  lemma {:induction false} AcceptedByStandard(env: Env, t: Tree, gc: GroupContext)
    ensures TreeAccepted(env, t, gc) <==> StandardAccepted(env, t, gc) && SameLengths(t)
    ensures StandardAccepted(env, t, gc) && ListsDistinct(t) ==> TreeAccepted(env, t, gc)
  {
    hide LeavesAccepted, RootHash, KeysDistinct, StandardVerified, ListsDistinct, SameLengths,
      ParentHashCheck.ParentHashesVerified, UnmergedOk;
    if Valid(t) && UnmergedOk(t) { StandardVerifiedIff(t); }
  }

  function NodeKeys(t: Tree): (r: seq<Option<PublicKey>>)
    ensures |r| == |t| && forall x | 0 <= x < |t| :: r[x] == if t[x].Some? then Some(KeyOf(t[x].value)) else None
  {
    seq(|t|, x requires 0 <= x < |t| => if t[x].Some? then Some(KeyOf(t[x].value)) else None)
  }

  lemma {:induction false} DuplicateIff(t: Tree)
    ensures (exists i, j :: 0 <= i < j < |NodeKeys(t)| && NodeKeys(t)[i].Some? && NodeKeys(t)[i] == NodeKeys(t)[j])
      <==> !KeysDistinct(t)
  {
    if !KeysDistinct(t) {
      var x: nat, y: nat :| x < y && At(t, x).Some? && At(t, y).Some? && KeyOf(At(t, x).value) == KeyOf(At(t, y).value);
      assert NodeKeys(t)[x] == NodeKeys(t)[y];
    }
    if i, j :| 0 <= i < j < |NodeKeys(t)| && NodeKeys(t)[i].Some? && NodeKeys(t)[i] == NodeKeys(t)[j] {
      assert At(t, i).Some? && At(t, j).Some? && KeyOf(At(t, i).value) == KeyOf(At(t, j).value);
    }
  }

  /** One leaf's checks, against the summary of the tree it is in. */
  method CheckLeaf(env: Env, t: Tree, gc: GroupContext, leaves: LeafSummary, x: nat, leaf: LeafNode) returns (ok: bool)
    requires Summarizes(leaves, t, |t|)
    ensures ok <==> LeafAccepted(env, t, gc, x, leaf)
  {
    hide CommonOk, Summarizes;
    var byPackage := leaf.source.FromKeyPackage?;
    var common := ValidateLeafNodeCommon(
      env, leaf, gc, t, leaves, Some(x / 2), if byPackage then None else LeafCredential(t, x / 2));
    if !env.usableSignatureKey(leaf.sigKey) { return false; }
    if leaf.sigKey != Pub(leaf.signature.signer) { return false; }
    if leaf.signature.place != (if byPackage then None else Some((gc.groupId, x / 2))) { return false; }
    if byPackage && env.validateLifetimeOnReceive && !env.lifetimeOk(leaf.source.lifetime) { return false; }
    return common;
  }

  /** validateRatchetTree as the source runs it: every rule through its one-pass check. */
  method ValidateRatchetTree(env: Env, t: Tree, gc: GroupContext) returns (ok: bool)
    requires Full(|t|)
    ensures ok <==> TreeAccepted(env, t, gc)
  {
    hide LeafAccepted, Summarizes, ParentHashCheck.ParentHashesVerified, UnmergedOk, KeysDistinct, RootHash;
    if !Sound(t) { return false; }
    var hashes := ParentHashCheck.VerifyParentHashes(t);
    if !hashes { return false; }
    if gc.treeHash != RootHash(t) { return false; }
    var unmerged := ValidateUnmergedLeaves(t);
    if !unmerged { return false; }
    var repeated := HasDuplicate(NodeKeys(t));
    DuplicateIff(t);
    if repeated { return false; }
    var leaves := SummarizeLeaves(t);
    var x := 0;
    while x < |t|
      invariant 0 <= x <= |t|
      invariant forall y | 0 <= y < x && NodeLeaf(t, y).Some? :: LeafAccepted(env, t, gc, y, NodeLeaf(t, y).value)
    {
      if NodeLeaf(t, x).Some? {
        var accepted := CheckLeaf(env, t, gc, leaves, x, NodeLeaf(t, x).value);
        if !accepted { return false; }
      }
      x := x + 1;
    }
    return true;
  }

  // ---- from a Welcome ----

  datatype PrivateKeyPackage = PrivateKeyPackage(initKey: Secret, hpkeKey: Secret, signKey: Secret)

  function FindSealed(secrets: seq<SealedSecrets>, kp: KeyPackage): (r: Option<SealedSecrets>)
    ensures r.Some? ==> r.value in secrets && r.value.newMember == kp
    ensures r.None? ==> forall s | s in secrets :: s.newMember != kp
  {
    if secrets == [] then None
    else if secrets[0].newMember == kp then Some(secrets[0])
    else FindSealed(secrets[1..], kp)
  }

  /** findLeafIndex. */
  function FindLeaf(t: Tree, leaf: LeafNode, x: nat): (r: Option<nat>)
    ensures r.Some? ==> LeafAt(t, r.value) == Some(leaf)
    ensures r.None? ==> forall y | x <= y < |t| && y % 2 == 0 :: NodeLeaf(t, y) != Some(leaf)
    decreases |t| - x
  {
    if x >= |t| then None
    else if x % 2 == 0 && NodeLeaf(t, x) == Some(leaf) then Some(x / 2)
    else FindLeaf(t, leaf, x + 1)
  }

  /** The checks on the GroupInfo's signer and context, in order. */
  function InfoError(env: Env, gi: GroupInfo, kp: KeyPackage): Option<Error> {
    if !ExtensionsSupported(gi.context.extensions, kp.leaf.capabilities) then Some(ExtensionUnsupported)
    else if !env.externalSendersOk(gi.context.extensions) then Some(ExternalSendersRejected)
    else if LeafAt(gi.tree, gi.signer).None? then Some(NoSigner)
    else
      var signer := LeafAt(gi.tree, gi.signer).value;
      if !env.credentialOk(signer.credential, signer.sigKey, None) || signer.sigKey != Pub(gi.signedBy) then
        Some(SignerRejected)
      else if gi.context.suite != kp.suite || gi.context.version != kp.version then Some(SuiteMismatch)
      else None
  }

  /** The new member's keys, from its own leaf key and the path secret it was sent. */
  function JoinKeys(t: Tree, signer: nat, l: nat, key: Secret, pathSecret: Option<Secret>): Result<PrivatePath>
    requires Full(|t|) && 2 * signer < |t|
  {
    var path, own := FilteredPath(t, signer), PrivatePath(l, map[2 * l := key]);
    match FirstMatch(path, l)
    case None => Err(NoCommonAncestor)
    case Some(i) =>
      var n := path[i].node;
      if pathSecret.Some? then WelcomeKeys(t, signer, n, pathSecret.value, own)
      else if At(t, n).Some? && At(t, n).value.Inner? && l !in Unmerged(t, n) then Err(MissingPathSecret)
      else Ok(own)
  }

  ghost function JoinGroup(
      env: Env, w: Welcome, kp: KeyPackage, keys: PrivateKeyPackage, retain: int, maxPending: int): Result<ClientState>
  {
    var sealed := FindSealed(w.secrets, kp);
    if sealed.None? then Err(NoMatchingSecret)
    else if sealed.value.to != Pub(keys.initKey) then Err(DecryptFailed)
    else
      var secrets := sealed.value.secrets;
      var psk :- PskSecret(env, secrets.psks, Zero, 0, |secrets.psks|);
      if w.key != WelcomeSecret(secrets.joiner, psk) then Err(DecryptFailed)
      else if exists p | p in secrets.psks :: p.ResumptionPsk? && !p.usage.ApplicationUsage? then Err(NoPriorState)
      else
        var gi := w.info;
        var infoError := InfoError(env, gi, kp);
        if infoError.Some? then Err(infoError.value)
        else if !TreeAccepted(env, gi.tree, gi.context) then Err(TreeRejected)
        else
          match FindLeaf(gi.tree, kp.leaf, 0)
          case None => Err(NoOwnLeaf)
          case Some(l) =>
            var path :- JoinKeys(gi.tree, gi.signer, l, keys.hpkeKey, secrets.pathSecret);
            var derived := DeriveKeySchedule(secrets.joiner, psk, gi.context);
            if gi.tag != ConfirmationTag(derived.schedule, gi.context) then Err(BadConfirmation)
            else Ok(ClientState(
              gi.context, derived.schedule, NewSecretTree(gi.tree, derived.encryption), gi.tree, path, keys.signKey,
              [], map[], gi.tag, map[], IsActive, retain, maxPending))
  }

  // ---- by an external commit ----

  /** createGroupInfoWithExternalPubAndRatchetTree. */
  datatype ExternalInfo = ExternalInfo(info: GroupInfo, externalPub: PublicKey)

  function PublishInfo(st: ClientState): ExternalInfo {
    ExternalInfo(GroupInfo(st.context, st.tag, st.privatePath.leaf, st.tree, st.signKey), Pub(st.schedule.external))
  }

  /** The first leaf the key package matches. */
  function FindFormer(env: Env, t: Tree, kp: KeyPackage, x: nat): (r: Option<nat>)
    ensures r.Some? ==> LeafAt(t, r.value).Some? && env.matchesLeaf(kp, LeafAt(t, r.value).value)
    decreases |t| - x
  {
    if x >= |t| then None
    else if x % 2 == 0 && NodeLeaf(t, x).Some? && env.matchesLeaf(kp, NodeLeaf(t, x).value) then Some(x / 2)
    else FindFormer(env, t, kp, x + 1)
  }

  datatype ExternalOptions = ExternalOptions(
    resync: bool, authenticatedData: nat, encapsulation: nat, retain: int, maxPending: int)

  /** The removal of the joiner's former leaf, when it resyncs. */
  function Former(env: Env, t: Tree, kp: KeyPackage, resync: bool): Result<seq<nat>> {
    if !resync then Ok([]) else
    var f := FindFormer(env, t, kp, 0);
    if f.None? then Err(NoPriorLeaf) else Ok([f.value])
  }

  datatype ExternalDraft = ExternalDraft(removes: seq<nat>, base: Tree, leaf: nat, created: Created)

  /** The joiner's leaf and its path, over the tree without its former leaf. */
  function DraftExternal(
      env: Env, gi: GroupInfo, kp: KeyPackage, keys: PrivateKeyPackage, resync: bool, seed: Secret):
      Result<ExternalDraft>
    requires Valid(gi.tree)
  {
    var removes :- Former(env, gi.tree, kp, resync);
    var base :- AfterResync(gi.tree, removes);
    AddLeafAt(base, kp.leaf);
    var (t, n) := AddLeaf(base, kp.leaf);
    var created :- CreateUpdatePath(t, n / 2, gi.context, keys.signKey, seed, [], NoPatch);
    Ok(ExternalDraft(removes, base, n / 2, created))
  }

  function ExternalProposals(removes: seq<nat>, kem: KemOutput): seq<Proposal> {
    (if removes == [] then [] else [Remove(removes[0])]) + [ExternalInit(kem)]
  }

  function ExternalContent(gi: GroupInfo, o: ExternalOptions, d: ExternalDraft, kem: KemOutput): CommitContent {
    CommitContent(
      PublicWire, gi.context.groupId, gi.context.epoch, NewMemberCommit, o.authenticatedData,
      Commit(ByValues(ExternalProposals(d.removes, kem)), Some(d.created.path)))
  }

  function ExternalEpoch(
      gi: GroupInfo, keys: PrivateKeyPackage, o: ExternalOptions, d: ExternalDraft, kem: KemOutput): NewEpoch {
    var content := ExternalContent(gi, o, d, kem);
    var signature := CommitSignature(keys.signKey, content, gi.context);
    var context := NextEpochContext(gi.context, content, signature, d.created.treeHash, gi.tag);
    var secrets := InitializeEpoch(
      ExternalInitSecret(kem.to, kem.encapsulation), CommitSecret(Some(d.created)), context, Zero);
    NewEpoch(context, secrets, CommitMessage(content, signature, ConfirmationTag(secrets.derived.schedule, context)))
  }

  function ExternalKeys(d: ExternalDraft): PrivatePath {
    UpdateLeafKey(ToPrivatePath(PathToMap(d.created.secrets), d.leaf, None).value, d.created.leafKey)
  }

  datatype ExternalResult = ExternalResult(state: ClientState, message: CommitMessage)

  ghost function JoinExternal(
      env: Env, e: ExternalInfo, kp: KeyPackage, keys: PrivateKeyPackage, o: ExternalOptions, seed: Secret):
      Result<ExternalResult>
  {
    var gi := e.info;
    if !ExtensionsSupported(gi.context.extensions, kp.leaf.capabilities) then Err(ExtensionUnsupported)
    else if !env.externalSendersOk(gi.context.extensions) then Err(ExternalSendersRejected)
    else if !env.usableKey(e.externalPub) then Err(KeyPackageRejected)
    else if !TreeAccepted(env, gi.tree, gi.context) then Err(TreeRejected)
    else if LeafAt(gi.tree, gi.signer).None? then Err(NoSigner)
    else
      var signer := LeafAt(gi.tree, gi.signer).value;
      if !env.credentialOk(signer.credential, signer.sigKey, None) || signer.sigKey != Pub(gi.signedBy) then
        Err(SignerRejected)
      else
        var d :- DraftExternal(env, gi, kp, keys, o.resync, seed);
        var kem := Encapsulated(e.externalPub, o.encapsulation);
        var epoch := ExternalEpoch(gi, keys, o, d, kem);
        Ok(ExternalResult(
          ClientState(
            epoch.context, epoch.secrets.derived.schedule,
            NewSecretTree(d.created.tree, epoch.secrets.derived.encryption), d.created.tree, ExternalKeys(d),
            keys.signKey,
            [], map[], epoch.message.tag, map[], IsActive, o.retain, o.maxPending),
          epoch.message))
  }
}

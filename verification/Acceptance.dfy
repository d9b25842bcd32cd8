/** Who is let in and what is taken: exactly when a Welcome admits its newcomer, an
    external joiner drafts its commit, and a message changes a client's state. */
module Acceptance {
  import opened Options
  import opened Terms
  import opened TreeMath
  import opened RatchetTree
  import opened ParentHashes
  import opened UpdatePaths
  import opened LeafValidation
  import opened ClientStates
  import opened PrivateKeys
  import opened UnmergedLeaves
  import opened Proposals
  import opened ProposalRules
  import opened FilterPending
  import opened FilterChoices
  import opened Commits
  import opened Joins
  import opened Messages
  import opened EpochContents
  import CommitMade
  import Convergence
  import Groups
  import MemberSteps
  import Membership

  // ---- a tree from outside ----

  /** A leaf as a newcomer must find it at its place: keys usable, signed, credential
      good, what the group requires met, and beside all the others. One that came by a
      key package is signed for no place and, where asked for, alive; any other is
      signed for its group and place, by the holder of the credential it has. */
  ghost predicate LeafStands(env: Env, leaf: LeafNode, l: nat, gc: GroupContext, t: Tree) {
    && env.usableSignatureKey(leaf.sigKey) && env.usableKey(leaf.hpkeKey) && leaf.sigKey == Pub(leaf.signature.signer)
    && Meets(gc.extensions, leaf.capabilities) && Supports(leaf.extensions, leaf.capabilities)
    && Alongside(leaf, t, Some(l))
    && if leaf.source.FromKeyPackage? then
         && leaf.signature.place == None && env.credentialOk(leaf.credential, leaf.sigKey, None)
         && (env.validateLifetimeOnReceive ==> env.lifetimeOk(leaf.source.lifetime))
       else
         && leaf.signature.place == Some((gc.groupId, l))
         && env.credentialOk(leaf.credential, leaf.sigKey, Some(leaf.credential))
  }

  lemma {:induction false} LeafStandsIff(env: Env, t: Tree, gc: GroupContext, l: nat)
    requires Valid(t) && HasLeaf(t, l)
    ensures LeafAccepted(env, t, gc, 2 * l, LeafAt(t, l).value) <==> LeafStands(env, LeafAt(t, l).value, l, gc, t)
  {
    hide CommonOk, Meets, Alongside, Supports;
    CommonIff(env, LeafAt(t, l).value, gc, t, Some(l), None);
    CommonIff(env, LeafAt(t, l).value, gc, t, Some(l), Some(LeafAt(t, l).value.credential));
  }

  /** Which leaves a joiner accepts in a tree, leaf by leaf. */
  lemma {:induction false} LeavesStandIff(env: Env, t: Tree, gc: GroupContext)
    requires Valid(t)
    ensures LeavesAccepted(env, t, gc) <==>
      forall l: nat | HasLeaf(t, l) :: LeafStands(env, LeafAt(t, l).value, l, gc, t)
  {
    hide LeafAccepted, LeafStands;
    forall l: nat | HasLeaf(t, l)
      ensures LeafAccepted(env, t, gc, 2 * l, LeafAt(t, l).value) <==> LeafStands(env, LeafAt(t, l).value, l, gc, t)
      ensures NodeLeaf(t, 2 * l) == LeafAt(t, l) && 2 * l < |t|
    {
      LeafStandsIff(env, t, gc, l);
    }
    forall x | 0 <= x < |t| && NodeLeaf(t, x).Some?
      ensures x % 2 == 0 && HasLeaf(t, x / 2) && LeafAt(t, x / 2) == NodeLeaf(t, x)
    {
      Membership.NodeLeafIs(t, x);
    }
  }

  // ---- from a Welcome ----

  /** The first secrets in the Welcome sealed for this key package. */
  ghost predicate FirstFor(secrets: seq<SealedSecrets>, kp: KeyPackage, i: nat) {
    i < |secrets| && secrets[i].newMember == kp && forall j | 0 <= j < i :: secrets[j].newMember != kp
  }

  /** The first leaf of the tree that is the newcomer's. */
  ghost predicate FirstLeaf(t: Tree, leaf: LeafNode, l: nat) {
    LeafAt(t, l) == Some(leaf) && forall k: nat | k < l :: LeafAt(t, k) != Some(leaf)
  }

  /** The GroupInfo is signed by a member of its tree with a good credential. */
  predicate SignedByMember(env: Env, gi: GroupInfo) {
    && LeafAt(gi.tree, gi.signer).Some?
    && var signer := LeafAt(gi.tree, gi.signer).value;
       env.credentialOk(signer.credential, signer.sigKey, None) && signer.sigKey == Pub(gi.signedBy)
  }

  /** The newcomer can live with the group: extensions, suite and version. */
  predicate GroupSuits(env: Env, gi: GroupInfo, kp: KeyPackage) {
    && Supports(gi.context.extensions, kp.leaf.capabilities) && env.externalSendersOk(gi.context.extensions)
    && gi.context.suite == kp.suite && gi.context.version == kp.version
  }

  /** The newcomer's secrets open the Welcome, and it is confirmed under them. */
  ghost predicate Opens(env: Env, w: Welcome, kp: KeyPackage, keys: PrivateKeyPackage, s: SealedSecrets, psk: Secret) {
    && s.to == Pub(keys.initKey) && PskJoined(env, s.secrets.psks, psk)
    && w.key == WelcomeSecret(s.secrets.joiner, psk)
    && (forall p | p in s.secrets.psks && p.ResumptionPsk? :: p.usage.ApplicationUsage?)
    && w.info.tag == Mac(
         Derived(EpochSecret(s.secrets.joiner, psk, w.info.context), ConfirmLabel), w.info.context.confirmed)
  }

  /** The state of a newcomer: the group as the GroupInfo describes it, keyed by the joiner secret. */
  ghost predicate JoinedAs(
      w: Welcome, keys: PrivateKeyPackage, retain: int, maxPending: int, s: SealedSecrets, psk: Secret, l: nat,
      n: ClientState)
  {
    var gi := w.info;
    && n.context == gi.context && n.tree == gi.tree && n.tag == gi.tag && n.signKey == keys.signKey
    && FromRoot(EpochSecret(s.secrets.joiner, psk, gi.context), n)
    && Full(|gi.tree|) && 2 * gi.signer < |gi.tree|
    && JoinKeys(gi.tree, gi.signer, l, keys.hpkeKey, s.secrets.pathSecret) == Ok(n.privatePath)
    && n.pending == [] && n.updateKeys == map[] && n.history == map[] && n.active == IsActive
    && n.retain == retain && n.maxPending == maxPending
  }

  ghost predicate Admits(
      env: Env, w: Welcome, kp: KeyPackage, keys: PrivateKeyPackage, retain: int, maxPending: int, n: ClientState)
  {
    && SignedByMember(env, w.info) && GroupSuits(env, w.info, kp) && TreeAccepted(env, w.info.tree, w.info.context)
    && exists i: nat, l: nat, psk ::
         && FirstFor(w.secrets, kp, i) && FirstLeaf(w.info.tree, kp.leaf, l)
         && Opens(env, w, kp, keys, w.secrets[i], psk)
         && JoinedAs(w, keys, retain, maxPending, w.secrets[i], psk, l, n)
  }

  lemma {:induction false} FindSealedFirst(secrets: seq<SealedSecrets>, kp: KeyPackage, i: nat)
    requires FirstFor(secrets, kp, i)
    ensures FindSealed(secrets, kp) == Some(secrets[i])
    decreases i
  {
    if i > 0 {
      forall j | 0 <= j < i - 1 ensures secrets[1..][j].newMember != kp { assert secrets[1..][j] == secrets[j + 1]; }
      FindSealedFirst(secrets[1..], kp, i - 1);
    }
  }

  lemma {:induction false} SealedAt(secrets: seq<SealedSecrets>, kp: KeyPackage) returns (i: nat)
    requires FindSealed(secrets, kp).Some?
    ensures FirstFor(secrets, kp, i)
  {
    i := 0;
    if secrets[0].newMember != kp {
      var k := SealedAt(secrets[1..], kp);
      i := k + 1;
      forall j | 0 <= j < i ensures secrets[j].newMember != kp {
        if j > 0 { assert secrets[j] == secrets[1..][j - 1]; }
      }
    }
  }

  lemma {:induction false} FindLeafFirst(t: Tree, leaf: LeafNode, x: nat, l: nat)
    requires Valid(t) && FirstLeaf(t, leaf, l) && x <= 2 * l
    ensures FindLeaf(t, leaf, x) == Some(l)
    decreases |t| - x
  {
    hide Valid;
    if x < 2 * l {
      if x % 2 == 0 {
        assert x / 2 < l;
        assert LeafAt(t, x / 2) != Some(leaf);
      }
      FindLeafFirst(t, leaf, x + 1, l);
    }
  }

  lemma {:induction false} FoundFirst(t: Tree, leaf: LeafNode, l: nat)
    requires Valid(t) && FindLeaf(t, leaf, 0) == Some(l)
    ensures FirstLeaf(t, leaf, l)
  {
    FoundFrom(t, leaf, 0, l);
  }

  lemma {:induction false} FoundFrom(t: Tree, leaf: LeafNode, x: nat, l: nat)
    requires Valid(t) && FindLeaf(t, leaf, x) == Some(l)
    ensures forall k: nat | x <= 2 * k && k < l :: LeafAt(t, k) != Some(leaf)
    decreases |t| - x
  {
    hide Valid;
    if x < |t| && !(x % 2 == 0 && NodeLeaf(t, x) == Some(leaf)) {
      FoundFrom(t, leaf, x + 1, l);
      forall k: nat | x <= 2 * k && k < l ensures LeafAt(t, k) != Some(leaf) {
        if x == 2 * k { assert NodeLeaf(t, x) == LeafAt(t, k) || 2 * k >= |t|; }
      }
    }
  }

  lemma {:induction false} InfoIff(env: Env, gi: GroupInfo, kp: KeyPackage)
    ensures InfoError(env, gi, kp).None? <==> SignedByMember(env, gi) && GroupSuits(env, gi, kp)
  {
    SupportsIff(gi.context.extensions, kp.leaf.capabilities);
  }

  lemma {:induction false} Admitted(
      env: Env, w: Welcome, kp: KeyPackage, keys: PrivateKeyPackage, retain: int, maxPending: int, n: ClientState)
    requires JoinGroup(env, w, kp, keys, retain, maxPending) == Ok(n)
    ensures Admits(env, w, kp, keys, retain, maxPending, n)
  {
    hide InfoError, TreeAccepted, JoinKeys, PskSecret, SignedByMember, GroupSuits, RootHash, PskJoined;
    var i := SealedAt(w.secrets, kp);
    FindSealedFirst(w.secrets, kp, i);
    var s, gi := w.secrets[i], w.info;
    var psk := PskSecret(env, s.secrets.psks, Zero, 0, |s.secrets.psks|).value;
    PskSecretIff(env, s.secrets.psks, psk);
    InfoIff(env, gi, kp);
    AcceptedShape(env, gi.tree, gi.context);
    var l := FindLeaf(gi.tree, kp.leaf, 0).value;
    FoundFirst(gi.tree, kp.leaf, l);
    SignerThere(env, gi);
    assert JoinedAs(w, keys, retain, maxPending, s, psk, l, n);
    assert Opens(env, w, kp, keys, s, psk);
  }

  lemma {:induction false} AcceptedShape(env: Env, t: Tree, gc: GroupContext)
    requires TreeAccepted(env, t, gc)
    ensures Valid(t) && Full(|t|)
  {
    hide LeavesAccepted, RootHash, LeafValidation.KeysDistinct, UnmergedOk;
  }

  lemma {:induction false} SignerThere(env: Env, gi: GroupInfo)
    requires SignedByMember(env, gi)
    ensures 2 * gi.signer < |gi.tree|
  {
  }

  lemma {:induction false} Admittable(
      env: Env, w: Welcome, kp: KeyPackage, keys: PrivateKeyPackage, retain: int, maxPending: int, n: ClientState,
      i: nat, l: nat, psk: Secret)
    requires SignedByMember(env, w.info) && GroupSuits(env, w.info, kp)
    requires TreeAccepted(env, w.info.tree, w.info.context)
    requires FirstFor(w.secrets, kp, i) && FirstLeaf(w.info.tree, kp.leaf, l)
    requires Opens(env, w, kp, keys, w.secrets[i], psk)
    requires JoinedAs(w, keys, retain, maxPending, w.secrets[i], psk, l, n)
    ensures JoinGroup(env, w, kp, keys, retain, maxPending) == Ok(n)
  {
    hide TreeAccepted, PskSecret, SignedByMember, GroupSuits, PskJoined, FindLeaf, Valid, InfoError, RootHash;
    var s := w.secrets[i];
    AcceptedShape(env, w.info.tree, w.info.context);
    FindSealedFirst(w.secrets, kp, i);
    PskSecretIff(env, s.secrets.psks, psk);
    InfoIff(env, w.info, kp);
    FindLeafFirst(w.info.tree, kp.leaf, 0, l);
    hide FirstFor, FirstLeaf, FindSealed, JoinKeys, DeriveEpochKeys;
    assert forall p | p in s.secrets.psks :: p.ResumptionPsk? ==> p.usage.ApplicationUsage?;
    assert w.info.tag == ConfirmationTag(n.schedule, w.info.context) by { ConfirmKey(s, psk, w.info.context, n); }
  }

  lemma {:induction false} ConfirmKey(s: SealedSecrets, psk: Secret, gc: GroupContext, n: ClientState)
    requires FromRoot(EpochSecret(s.secrets.joiner, psk, gc), n)
    ensures n.schedule.confirmation == Derived(EpochSecret(s.secrets.joiner, psk, gc), ConfirmLabel)
  {
  }

  /** joinGroup admits exactly these newcomers, into exactly this state. */
  lemma {:induction false} JoinGroupIff(
      env: Env, w: Welcome, kp: KeyPackage, keys: PrivateKeyPackage, retain: int, maxPending: int, n: ClientState)
    ensures JoinGroup(env, w, kp, keys, retain, maxPending) == Ok(n) <==>
      Admits(env, w, kp, keys, retain, maxPending, n)
  {
    hide JoinGroup, TreeAccepted, SignedByMember, GroupSuits, FirstLeaf, Opens, JoinedAs;
    if JoinGroup(env, w, kp, keys, retain, maxPending) == Ok(n) {
      Admitted(env, w, kp, keys, retain, maxPending, n);
    }
    if Admits(env, w, kp, keys, retain, maxPending, n) {
      var i: nat, l: nat, psk :|
        && FirstFor(w.secrets, kp, i) && FirstLeaf(w.info.tree, kp.leaf, l)
        && Opens(env, w, kp, keys, w.secrets[i], psk)
        && JoinedAs(w, keys, retain, maxPending, w.secrets[i], psk, l, n);
      Admittable(env, w, kp, keys, retain, maxPending, n, i, l, psk);
    }
  }

  /** A group begins with one member, at epoch 0, under the context its creator chose. */
  lemma {:induction false} CreatedAs(
      id: nat, kp: KeyPackage, keys: PrivateKeyPackage, exts: seq<Extension>, secret: Secret, retain: int,
      maxPending: int)
    ensures var n := Groups.CreateGroup(id, kp, keys, exts, secret, retain, maxPending);
      && (forall l: nat :: LeafAt(n.tree, l) == if l == 0 then Some(kp.leaf) else None)
      && n.context == GroupContext(
           kp.version, kp.suite, id, 0, TreeHash(n.tree, Root(|n.tree|)), NoBytes, exts)
      && FromRoot(secret, n) && n.tag == Mac(Derived(secret, ConfirmLabel), NoBytes)
      && n.privatePath == PrivatePath(0, map[0 := keys.hpkeKey]) && n.signKey == keys.signKey
      && n.pending == [] && n.updateKeys == map[] && n.history == map[] && n.active == IsActive
      && n.retain == retain && n.maxPending == maxPending
  {
    hide TreeHash;
    assert forall x: nat :: At([Some(Leaf(kp.leaf))], x) == if x == 0 then Some(Leaf(kp.leaf)) else None;
  }

  // ---- by an external commit ----

  /** What joinGroupExternal checks of the group before it drafts anything. */
  ghost predicate MayJoin(env: Env, e: ExternalInfo, kp: KeyPackage) {
    && Supports(e.info.context.extensions, kp.leaf.capabilities)
    && env.externalSendersOk(e.info.context.extensions) && env.usableKey(e.externalPub)
    && TreeAccepted(env, e.info.tree, e.info.context) && SignedByMember(env, e.info)
  }

  lemma {:induction false} ListsKeptByBlanking(t: Tree, u: Tree, l: nat)
    requires UnmergedOk(t) && forall x: nat :: At(u, x) == BlankedAt(t, l, None, x)
    ensures UnmergedOk(u)
  {
    hide Under;
    forall x: nat, m: nat | m in Unmerged(u, x) ensures ListedRightly(u, x, m) {
      assert At(u, x) == BlankedAt(t, l, None, x);
      assert m in Unmerged(t, x) && ListedRightly(t, x, m);
    }
  }

  lemma {:induction false} ListsKeptByAdd(t: Tree, leaf: LeafNode)
    requires Valid(t) && UnmergedOk(t)
    ensures Valid(AddLeaf(t, leaf).0) && UnmergedOk(AddLeaf(t, leaf).0)
  {
    hide Under, AddLeaf;
    AddLeafAt(t, leaf);
    var (u, n) := AddLeaf(t, leaf);
    var a := n / 2;
    forall x: nat, m: nat | m in Unmerged(u, x) ensures ListedRightly(u, x, m) {
      assert At(u, x) == AddedAt(t, leaf, n, x);
      if m in Unmerged(t, x) {
        assert ListedRightly(t, x, m);
        assert At(u, 2 * m) == AddedAt(t, leaf, n, 2 * m);
        forall w: nat | OnPath(m, w) && Under(w, x) && At(u, w).Some? ensures m in Unmerged(u, w) {
          assert At(u, w) == AddedAt(t, leaf, n, w);
        }
      } else {
        assert m == a && OnPath(a, x);
        forall w: nat | OnPath(a, w) && At(u, w).Some? ensures a in Unmerged(u, w) {
          assert At(u, w) == AddedAt(t, leaf, n, w);
        }
      }
    }
  }

  /** The first leaf the application takes for the joiner's own former one. */
  ghost predicate FirstMatched(env: Env, t: Tree, kp: KeyPackage, l: nat) {
    Matched(env, kp, t, l) && forall k: nat | k < l :: !Matched(env, kp, t, k)
  }

  lemma {:induction false} FormerIff(env: Env, t: Tree, kp: KeyPackage, x: nat)
    requires Valid(t)
    ensures FindFormer(env, t, kp, x).Some? <==> exists l: nat :: x <= 2 * l && Matched(env, kp, t, l)
    ensures FindFormer(env, t, kp, x).Some? ==>
      forall k: nat | x <= 2 * k && k < FindFormer(env, t, kp, x).value :: !Matched(env, kp, t, k)
    decreases |t| - x
  {
    hide Valid;
    if x < |t| {
      FormerIff(env, t, kp, x + 1);
      if x % 2 == 0 {
        assert NodeLeaf(t, x) == LeafAt(t, x / 2);
        if Matched(env, kp, t, x / 2) { assert x <= 2 * (x / 2); }
      }
      if l: nat :| x <= 2 * l && Matched(env, kp, t, l) {
        if x < 2 * l { assert x + 1 <= 2 * l; }
      }
    }
  }

  lemma {:induction false} OneFirst(env: Env, t: Tree, kp: KeyPackage, a: nat, b: nat)
    requires FirstMatched(env, t, kp, a) && FirstMatched(env, t, kp, b)
    ensures a == b
  {
    hide Matched;
  }

  lemma {:induction false} JoinerPathAlways(
      t: Tree, removes: seq<nat>, base: Tree, gi: GroupInfo, kp: KeyPackage, signKey: Secret, seed: Secret)
    requires Valid(t) && UnmergedOk(t) && AfterResync(t, removes) == Ok(base)
    ensures Valid(base)
    ensures var (r, n) := AddLeaf(base, kp.leaf);
      Valid(r) && CreateUpdatePath(r, n / 2, gi.context, signKey, seed, [], NoPatch).Ok?
  {
    hide CreateUpdatePath, AddLeaf, RemoveLeaf, UnmergedOk, OnPath;
    if removes != [] {
      RemoveLeafAt(t, removes[0]);
      ListsKeptByBlanking(t, base, removes[0]);
    }
    ListsKeptByAdd(base, kp.leaf);
    AddLeafAt(base, kp.leaf);
    var (r, n) := AddLeaf(base, kp.leaf);
    assert At(r, n) == AddedAt(base, kp.leaf, n, n);
    CommitMade.PathAlways(r, n / 2, gi.context, signKey, seed, [], NoPatch);
  }

  lemma {:induction false} JoinDraftIff(
      env: Env, gi: GroupInfo, kp: KeyPackage, keys: PrivateKeyPackage, resync: bool, seed: Secret)
    requires Valid(gi.tree) && UnmergedOk(gi.tree)
    ensures DraftExternal(env, gi, kp, keys, resync, seed).Ok? <==>
      (resync ==> exists l: nat :: FirstMatched(env, gi.tree, kp, l) && RemoveLeaf(gi.tree, l).Ok?)
  {
    hide CreateUpdatePath, AddLeaf, RemoveLeaf, UnmergedOk, FindFormer, Valid;
    var t := gi.tree;
    FormerIff(env, t, kp, 0);
    var former := FindFormer(env, t, kp, 0);
    if former.Some? {
      assert FirstMatched(env, t, kp, former.value);
      forall l: nat | FirstMatched(env, t, kp, l) ensures l == former.value { OneFirst(env, t, kp, l, former.value); }
    }
    hide FirstMatched, Matched;
    if Former(env, t, kp, resync).Ok? && AfterResync(t, Former(env, t, kp, resync).value).Ok? {
      var removes := Former(env, t, kp, resync).value;
      JoinerPathAlways(t, removes, AfterResync(t, removes).value, gi, kp, keys.signKey, seed);
    }
  }

  lemma {:induction false} AcceptedLists(env: Env, t: Tree, gc: GroupContext)
    requires TreeAccepted(env, t, gc)
    ensures Valid(t) && UnmergedOk(t)
  {
    hide LeavesAccepted, RootHash, LeafValidation.KeysDistinct, UnmergedOk;
  }

  /** joinGroupExternal succeeds when the group may be joined and, for a resync, a
      former leaf is found that is not the only one. */
  lemma {:induction false} JoinExternalIff(
      env: Env, e: ExternalInfo, kp: KeyPackage, keys: PrivateKeyPackage, o: ExternalOptions, seed: Secret)
    ensures JoinExternal(env, e, kp, keys, o, seed).Ok? <==>
      MayJoin(env, e, kp) && (AcceptedShape(env, e.info.tree, e.info.context);
        o.resync ==>
          exists l: nat :: FirstMatched(env, e.info.tree, kp, l) && RemoveLeaf(e.info.tree, l).Ok?)
  {
    hide TreeAccepted, DraftExternal, ExternalEpoch, ExternalKeys, FirstMatched, RemoveLeaf;
    SupportsIff(e.info.context.extensions, kp.leaf.capabilities);
    if MayJoin(env, e, kp) {
      AcceptedLists(env, e.info.tree, e.info.context);
      JoinDraftIff(env, e.info, kp, keys, o.resync, seed);
    }
  }

  /** An external commit's proposals as members will see them. */
  function NewcomersList(removes: seq<nat>, kem: KemOutput): seq<ProposalWithSender> {
    (if removes == [] then [] else [ProposalWithSender(Remove(removes[0]), None, NewMemberCommitType)])
      + [ProposalWithSender(ExternalInit(kem), None, NewMemberCommitType)]
  }

  /** The message of an external commit: for this group and epoch, signed by the
      newcomer, removing its former leaf if there is one, with an init secret sealed to
      the group's external key. */
  ghost predicate SentByNewcomer(
      e: ExternalInfo, keys: PrivateKeyPackage, o: ExternalOptions, removes: seq<nat>, m: CommitMessage)
  {
    var c, kem := m.content, Encapsulated(e.externalPub, o.encapsulation);
    && c.wireformat == PublicWire && c.groupId == e.info.context.groupId && c.epoch == e.info.context.epoch
    && c.sender == NewMemberCommit && c.authenticatedData == o.authenticatedData && c.commit.path.Some?
    && c.commit.proposals ==
         (if removes == [] then [] else [ByValue(Remove(removes[0]))]) + [ByValue(ExternalInit(kem))]
    && m.signature == CommitSignature(keys.signKey, c, e.info.context)
  }

  /** What an external joiner sends, and the state it goes on in: the epoch after the
      GroupInfo's, keyed by the encapsulated init secret and its own path. */
  lemma {:induction false} ExternalJoinerIs(
      env: Env, e: ExternalInfo, kp: KeyPackage, keys: PrivateKeyPackage, o: ExternalOptions, seed: Secret)
    requires JoinExternal(env, e, kp, keys, o, seed).Ok?
    ensures var n, m := JoinExternal(env, e, kp, keys, o, seed).value.state,
        JoinExternal(env, e, kp, keys, o, seed).value.message;
      && (exists removes ::
            && (if o.resync then |removes| == 1 && FirstMatched(env, e.info.tree, kp, removes[0]) else removes == [])
            && SentByNewcomer(e, keys, o, removes, m)
            && ContextIs(
                 n.(context := e.info.context, tag := e.info.tag),
                 NewcomersList(removes, Encapsulated(e.externalPub, o.encapsulation)), m, n))
      && m.content.commit.path.Some?
      && FromRoot(
           EpochSecret(
             JoinerSecret(
               ExternalInitSecret(e.externalPub, o.encapsulation),
               PathSecretAt(seed, |m.content.commit.path.value.nodes| + 1), n.context),
             Zero, n.context), n)
      && n.signKey == keys.signKey && n.pending == [] && n.updateKeys == map[] && n.history == map[]
      && n.active == IsActive && n.retain == o.retain && n.maxPending == o.maxPending
  {
    AcceptedShape(env, e.info.tree, e.info.context);
    var kem := Encapsulated(e.externalPub, o.encapsulation);
    var d := JoinedState(env, e, kp, keys, o, seed);
    JoinDrafted(env, e.info, kp, keys, o.resync, seed);
    Items(d.removes, kem);
    hide JoinExternal, TreeAccepted, DraftExternal, FirstMatched, ExternalEpoch, PathSecretAt, FromRoot, CommitSecret;
    var n, m :=
      JoinExternal(env, e, kp, keys, o, seed).value.state, JoinExternal(env, e, kp, keys, o, seed).value.message;
    NewcomerSent(e, keys, o, d, kem);
    NewcomerEpoch(e, keys, o, d, kem, n);
  }

  /** The joiner's state and message come from its draft. */
  lemma {:induction false} JoinedState(
      env: Env, e: ExternalInfo, kp: KeyPackage, keys: PrivateKeyPackage, o: ExternalOptions, seed: Secret)
      returns (d: ExternalDraft)
    requires JoinExternal(env, e, kp, keys, o, seed).Ok? && Valid(e.info.tree)
    ensures DraftExternal(env, e.info, kp, keys, o.resync, seed) == Ok(d)
    ensures var n, epoch := JoinExternal(env, e, kp, keys, o, seed).value.state,
        ExternalEpoch(e.info, keys, o, d, Encapsulated(e.externalPub, o.encapsulation));
      && JoinExternal(env, e, kp, keys, o, seed).value.message == epoch.message
      && n.context == epoch.context && n.schedule == epoch.secrets.derived.schedule && n.tree == d.created.tree
      && n.secretTree == NewSecretTree(d.created.tree, epoch.secrets.derived.encryption)
      && n.tag == epoch.message.tag && n.signKey == keys.signKey && n.pending == [] && n.updateKeys == map[]
      && n.history == map[] && n.active == IsActive && n.retain == o.retain && n.maxPending == o.maxPending
  {
    hide TreeAccepted, DraftExternal, ExternalEpoch, ExternalKeys, NewSecretTree;
    d := DraftExternal(env, e.info, kp, keys, o.resync, seed).value;
  }

  lemma {:induction false} NewcomerSent(
      e: ExternalInfo, keys: PrivateKeyPackage, o: ExternalOptions, d: ExternalDraft, kem: KemOutput)
    requires kem == Encapsulated(e.externalPub, o.encapsulation)
    ensures var m := ExternalEpoch(e.info, keys, o, d, kem).message;
      SentByNewcomer(e, keys, o, d.removes, m) && m.content.commit.path == Some(d.created.path)
  {
    hide InitializeEpoch, NextEpochContext, CommitSecret;
    Items(d.removes, kem);
  }

  lemma {:induction false} NewcomerEpoch(
      e: ExternalInfo, keys: PrivateKeyPackage, o: ExternalOptions, d: ExternalDraft, kem: KemOutput, n: ClientState)
    requires kem == Encapsulated(e.externalPub, o.encapsulation)
    requires var epoch := ExternalEpoch(e.info, keys, o, d, kem);
      && n.context == epoch.context && n.schedule == epoch.secrets.derived.schedule && n.tree == d.created.tree
      && n.secretTree == NewSecretTree(d.created.tree, epoch.secrets.derived.encryption)
      && n.tag == epoch.message.tag
    requires d.created.treeHash == TreeHash(d.created.tree, Root(|d.created.tree|))
    ensures ContextIs(
      n.(context := e.info.context, tag := e.info.tag), NewcomersList(d.removes, kem),
      ExternalEpoch(e.info, keys, o, d, kem).message, n)
    ensures FromRoot(
      EpochSecret(
        JoinerSecret(ExternalInitSecret(kem.to, kem.encapsulation), CommitSecret(Some(d.created)), n.context),
        Zero, n.context), n)
  {
    hide CommitSecret, DeriveEpochKeys, TreeHash, ExternalContent;
    Items(d.removes, kem);
    ContentEpoch(e.info, o, d, kem);
    ConfirmOf(EpochSecret(
        JoinerSecret(ExternalInitSecret(kem.to, kem.encapsulation), CommitSecret(Some(d.created)), n.context),
        Zero, n.context));
  }

  lemma {:induction false} ContentEpoch(gi: GroupInfo, o: ExternalOptions, d: ExternalDraft, kem: KemOutput)
    ensures ExternalContent(gi, o, d, kem).epoch == gi.context.epoch
  {
  }

  lemma {:induction false} ConfirmOf(root: Secret)
    ensures DeriveEpochKeys(root).confirmation == Derived(root, ConfirmLabel)
  {
  }

  lemma {:induction false} Items(removes: seq<nat>, kem: KemOutput)
    ensures ByValues(ExternalProposals(removes, kem)) ==
      (if removes == [] then [] else [ByValue(Remove(removes[0]))]) + [ByValue(ExternalInit(kem))]
    ensures forall p | p in NewcomersList(removes, kem) :: !p.proposal.GroupContextExtensions?
  {
  }

  lemma {:induction false} JoinDrafted(
      env: Env, gi: GroupInfo, kp: KeyPackage, keys: PrivateKeyPackage, resync: bool, seed: Secret)
    requires Valid(gi.tree) && DraftExternal(env, gi, kp, keys, resync, seed).Ok?
    ensures var d := DraftExternal(env, gi, kp, keys, resync, seed).value;
      && (if resync then |d.removes| == 1 && FirstMatched(env, gi.tree, kp, d.removes[0]) else d.removes == [])
      && d.created.treeHash == TreeHash(d.created.tree, Root(|d.created.tree|))
      && CommitSecret(Some(d.created)) == PathSecretAt(seed, |d.created.path.nodes| + 1)
  {
    hide CreateUpdatePath, AddLeaf, RemoveLeaf, FindFormer, CommitSecret, PathSecretAt, RootHash;
    FormerIff(env, gi.tree, kp, 0);
    var d := DraftExternal(env, gi, kp, keys, resync, seed).value;
    AddLeafAt(d.base, kp.leaf);
    var (r, x) := AddLeaf(d.base, kp.leaf);
    hide AddedAt, Matched, FilteredFrom;
    CreatedWhere(r, x / 2, gi.context, keys.signKey, seed, [], NoPatch);
    Convergence.CommitSecretIs(r, x / 2, gi.context, keys.signKey, seed, [], NoPatch);
    CreatedKeys(r, x / 2, gi.context, keys.signKey, seed, [], NoPatch);
    PathLonger(seed, |FilteredPath(r, x / 2)|);
    assert RootHash(d.created.tree) == TreeHash(d.created.tree, Root(|d.created.tree|)) by { HashIs(d.created.tree); }
  }

  lemma {:induction false} HashIs(t: Tree)
    ensures RootHash(t) == TreeHash(t, Root(|t|))
  {
  }

  // ---- messages ----

  /** There is room for one more pending proposal. */
  predicate Room(st: ClientState) {
    |st.pending| < st.maxPending
  }

  /** Addressed to this client in a state to read it: of this group and authentic; from
      an earlier epoch only as application data in private and only if that epoch is
      retained; ahead of the client only as a commit in public, whose own epoch decides;
      and, once a reinit is committed, only application data of an earlier epoch. */
  predicate Readable(st: ClientState, m: Incoming) {
    && !st.active.RemovedFromGroup? && m.groupId == st.context.groupId && m.authentic
    && (st.active.SuspendedPendingReinit? ==> m.body.Application? && m.epoch != st.context.epoch)
    && (m.wireformat.PrivateWire? ==>
          && m.epoch <= st.context.epoch
          && (m.epoch < st.context.epoch ==> m.body.Application? && m.epoch in st.history))
    && (m.wireformat.PublicWire? ==>
          && m.epoch >= st.context.epoch && !m.body.Application?
          && (m.body.Proposed? ==> m.epoch == st.context.epoch))
  }

  function AfterReading(st: ClientState, m: Incoming): ClientState {
    if m.wireformat.PublicWire? then st else st.(secretTree := Stepped(st.secretTree))
  }

  lemma {:induction false} StoredIff(env: Env, st: ClientState, item: ProposalWithSender, id: nat)
    requires TreeOk(st.tree) && SomeMember(st.tree)
    ensures ProcessProposal(env, st, item, id).Ok? <==>
      Room(st) && Receivable(env, st.context, st.tree, item.proposal, item.leaf, false)
    ensures ProcessProposal(env, st, item, id).Ok? ==>
      ProcessProposal(env, st, item, id).value == WithPending(st, Ref(st.context.epoch, id), item)
  {
    hide OnReceipt, Receivable, TreeOk, SomeMember;
    ReceivableIff(env, st.context, st.tree, item.proposal, item.leaf, false);
  }

  /** What a client takes in, message by message. */
  lemma {:induction false} ReceiveIff(env: Env, st: ClientState, m: Incoming, accept: bool)
    requires TreeOk(st.tree) && SomeMember(st.tree)
    ensures Receive(env, st, m, accept).Ok? <==>
      && Readable(st, m)
      && (m.epoch >= st.context.epoch ==>
            && (m.body.Proposed? && accept ==>
                  Room(st)
                  && Receivable(env, st.context, st.tree, m.body.item.proposal, m.body.item.leaf, false))
            && (m.body.Committed? ==> ProcessCommit(env, AfterReading(st, m), m.body.message, accept).Ok?))
  {
    hide OnReceipt, Receivable, ProcessCommit, UnmergedOk, BothSides, ListsOrdered, SomeMember, ProcessProposal;
    if m.body.Proposed? { StoredIff(env, AfterReading(st, m), m.body.item, m.body.id); }
  }

  lemma {:induction false} AddedLast(ps: seq<Pending>, p: Pending)
    requires forall q | q in ps :: q.ref != p.ref
    ensures AddPending(ps, p) == ps + [p]
  {
    if ps != [] {
      assert ps[0] in ps;
      forall q | q in ps[1..] ensures q.ref != p.ref { assert q in ps; }
      AddedLast(ps[1..], p);
      assert ps == [ps[0]] + ps[1..];
    }
  }

  /** A proposal takes the place of the first pending under its reference; with none it goes to the end. */
  lemma {:induction false} AddedAtPlace(ps: seq<Pending>, p: Pending, i: nat)
    requires i < |ps| && ps[i].ref == p.ref && forall j | 0 <= j < i :: ps[j].ref != p.ref
    ensures AddPending(ps, p) == ps[i := p]
    decreases i
  {
    if i > 0 {
      forall j | 0 <= j < i - 1 ensures ps[1..][j].ref != p.ref { assert ps[1..][j] == ps[j + 1]; }
      AddedAtPlace(ps[1..], p, i - 1);
      assert ps[i := p] == [ps[0]] + ps[1..][i - 1 := p];
    }
  }

  lemma {:induction false} WithoutNothing(ref: Ref)
    ensures Messages.Without([], ref) == []
  {}

  lemma {:induction false} DiscardedOne(p: Pending, ref: Ref)
    ensures Messages.Without([p], ref) == if p.ref == ref then [] else [p]
  {
    assert [p][1..] == [];
  }

  lemma {:induction false} DiscardedFirst(p: Pending, rest: seq<Pending>, ref: Ref)
    ensures Messages.Without([p] + rest, ref) == Messages.Without([p], ref) + Messages.Without(rest, ref)
  {
    var ps := [p] + rest;
    assert ps != [] && ps[0] == p && ps[1..] == rest;
    DiscardedOne(p, ref);
  }

  lemma {:induction false} Associative<T>(a: seq<T>, b: seq<T>, c: seq<T>)
    ensures a + (b + c) == (a + b) + c
  {}

  /** Discarding goes through the list part by part, so the rest keeps its order. */
  lemma {:induction false} DiscardedFrom(a: seq<Pending>, b: seq<Pending>, ref: Ref)
    ensures Messages.Without(a + b, ref) == Messages.Without(a, ref) + Messages.Without(b, ref)
  {
    hide Messages.Without;
    if a == [] {
      WithoutNothing(ref);
      assert a + b == b;
    } else {
      var p, rest := a[0], a[1..];
      assert a == [p] + rest;
      Associative([p], rest, b);
      calc {
        Messages.Without(a + b, ref);
        Messages.Without([p] + (rest + b), ref);
        { DiscardedFirst(p, rest + b, ref); }
        Messages.Without([p], ref) + Messages.Without(rest + b, ref);
        { DiscardedFrom(rest, b, ref); }
        Messages.Without([p], ref) + (Messages.Without(rest, ref) + Messages.Without(b, ref));
        { Associative(Messages.Without([p], ref), Messages.Without(rest, ref), Messages.Without(b, ref)); }
        (Messages.Without([p], ref) + Messages.Without(rest, ref)) + Messages.Without(b, ref);
        { DiscardedFirst(p, rest, ref); }
        Messages.Without(a, ref) + Messages.Without(b, ref);
      }
    }
  }

  /** What a message taken in changes: a proposal is pending under its reference, and
      under no other reference is anything else. */
  lemma {:induction false} ReceivedIs(env: Env, st: ClientState, m: Incoming, accept: bool, r: Ref)
    requires Valid(st.tree) && Receive(env, st, m, accept).Ok?
    ensures var n := Receive(env, st, m, accept).value;
      && (m.epoch < st.context.epoch ==>
            m.epoch in st.history && n == st.(history := st.history[m.epoch :=
              st.history[m.epoch].(secretTree := Stepped(st.history[m.epoch].secretTree))]))
      && (m.epoch >= st.context.epoch && (m.body.Application? || (m.body.Proposed? && !accept)) ==>
            n == AfterReading(st, m))
      && (m.epoch >= st.context.epoch && m.body.Proposed? && accept ==>
            && n == AfterReading(st, m).(pending := n.pending)
            && FindPending(n.pending, r) ==
                 if r == Ref(st.context.epoch, m.body.id) then Some(m.body.item) else FindPending(st.pending, r))
      && (m.epoch >= st.context.epoch && m.body.Committed? ==>
            ProcessCommit(env, AfterReading(st, m), m.body.message, accept) == Ok(n))
  {
    hide OnReceipt, ProcessCommit, FindPending, AddPending;
    if m.body.Proposed? {
      MemberSteps.FindAdded(st.pending, Pending(Ref(st.context.epoch, m.body.id), m.body.item), r);
    }
  }

  // ---- sending ----

  /** A proposal goes out when its sender would take it in; application data when
      nothing is pending, and it only steps the ratchet. */
  lemma {:induction false} SendIff(env: Env, st: ClientState, wire: bool, p: Proposal, id: nat)
    requires TreeOk(st.tree) && SomeMember(st.tree)
    ensures SendProposal(env, st, wire, p, id).Ok? <==>
      && st.active == IsActive && Room(st)
      && Receivable(env, st.context, st.tree, p, Some(st.privatePath.leaf), true)
    ensures SendApplication(st).Ok? <==> st.active == IsActive && st.pending == []
    ensures SendApplication(st).Ok? ==> SendApplication(st).value == st.(secretTree := Stepped(st.secretTree))
  {
    hide OnReceipt, Receivable, TreeOk, SomeMember;
    ReceivableIff(env, st.context, st.tree, p, Some(st.privatePath.leaf), true);
  }

  /** A member's new leaf: the patch over its old one with the new key, signed for its place. */
  ghost predicate PatchedLeaf(st: ClientState, prior: LeafNode, hpke: Secret, patch: LeafPatch, leaf: LeafNode) {
    && leaf.hpkeKey == Pub(hpke) && leaf.source == FromUpdate
    && leaf.credential == OrElse(patch.credential, prior.credential)
    && leaf.capabilities == OrElse(patch.capabilities, prior.capabilities)
    && leaf.extensions == OrElse(patch.extensions, prior.extensions)
    && leaf.sigKey == (if patch.signature.Some? then Pub(patch.signature.value) else prior.sigKey)
    && leaf.signature == LeafSignature(
         OrElse(patch.signature, st.signKey), Some((st.context.groupId, st.privatePath.leaf)))
  }

  lemma {:induction false} UpdateIff(
      env: Env, st: ClientState, wire: bool, hpke: Secret, patch: LeafPatch, id: nat)
    requires TreeOk(st.tree) && SomeMember(st.tree)
    ensures CreateUpdate(env, st, wire, hpke, patch, id).Ok? <==>
      && st.active == IsActive && Room(st) && HasLeaf(st.tree, st.privatePath.leaf)
      && exists leaf :: PatchedLeaf(st, LeafAt(st.tree, st.privatePath.leaf).value, hpke, patch, leaf)
           && Receivable(env, st.context, st.tree, Update(leaf), Some(st.privatePath.leaf), true)
  {
    hide OnReceipt, Receivable, TreeOk, SomeMember, SendProposal;
    if HasLeaf(st.tree, st.privatePath.leaf) {
      var prior := LeafAt(st.tree, st.privatePath.leaf).value;
      var leaf := UpdatedLeaf(st, prior, hpke, patch);
      assert PatchedLeaf(st, prior, hpke, patch, leaf);
      SendIff(env, st, wire, Update(leaf), id);
    }
  }

  /** What a proposal of one's own changes, and an Update's new leaf and stored key. */
  lemma {:induction false} UpdateSent(
      env: Env, st: ClientState, wire: bool, hpke: Secret, patch: LeafPatch, id: nat)
    requires Valid(st.tree) && CreateUpdate(env, st, wire, hpke, patch, id).Ok?
    ensures HasLeaf(st.tree, st.privatePath.leaf)
    ensures var n, prior, ref := CreateUpdate(env, st, wire, hpke, patch, id).value,
        LeafAt(st.tree, st.privatePath.leaf).value, Ref(st.context.epoch, id);
      && n.updateKeys == st.updateKeys[ref := PendingKey(hpke, patch.signature)]
      && n.secretTree == (if wire then st.secretTree else Stepped(st.secretTree))
      && n == st.(pending := n.pending, secretTree := n.secretTree, updateKeys := n.updateKeys)
      && (forall r | r != ref :: FindPending(n.pending, r) == FindPending(st.pending, r))
      && FindPending(n.pending, ref).Some?
      && var item := FindPending(n.pending, ref).value;
         && item.leaf == Some(st.privatePath.leaf) && item.sender == MemberType && item.proposal.Update?
         && PatchedLeaf(st, prior, hpke, patch, item.proposal.leaf)
  {
    hide OnReceipt, FindPending, AddPending;
    var ref := Ref(st.context.epoch, id);
    var leaf := UpdatedLeaf(st, LeafAt(st.tree, st.privatePath.leaf).value, hpke, patch);
    forall r {
      MemberSteps.FindAdded(st.pending, Pending(ref, OwnItemOf(st, Update(leaf))), r);
    }
  }
}

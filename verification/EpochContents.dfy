/** What a commit makes of a group, said of the list of its proposals and the
    state before it: context, key schedule, transcript and when a path is due
    (section 12.4 of RFC 9420, createCommit and processCommit). */
module EpochContents {
  import opened Options
  import opened Terms
  import opened TreeMath
  import opened RatchetTree
  import opened ParentHashes
  import opened UpdatePaths
  import opened LeafValidation
  import opened ClientStates
  import opened PrivateKeys
  import opened Proposals
  import opened ProposalRules
  import opened Commits
  import opened Convergence
  import opened AcceptedCommits
  import opened FilterPending
  import EpochTags

  // ---- pre-shared keys ----

  /** The secrets accumulated: each key joins the one before it, with its own place. */
  ghost predicate PskRun(env: Env, ids: seq<PskId>, accs: seq<Secret>) {
    && |accs| == |ids| + 1 && accs[0] == Zero
    && forall i | 0 <= i < |ids| ::
         && ids[i].nonceFits && env.psk(ids[i]).Some?
         && accs[i + 1] == PskStep(accs[i], ids[i], env.psk(ids[i]).value, i, |ids|)
  }

  ghost predicate PskJoined(env: Env, ids: seq<PskId>, x: Secret) {
    exists accs :: PskRun(env, ids, accs) && accs[|ids|] == x
  }

  lemma {:induction false} PskFrom(env: Env, ids: seq<PskId>, i: nat, acc: Secret) returns (accs: seq<Secret>)
    requires i <= |ids|
    ensures PskSecret(env, ids[i..], acc, i, |ids|).Ok? ==>
      && |accs| == |ids| - i + 1 && accs[0] == acc && accs[|ids| - i] == PskSecret(env, ids[i..], acc, i, |ids|).value
      && forall j | i <= j < |ids| ::
           && ids[j].nonceFits && env.psk(ids[j]).Some?
           && accs[j - i + 1] == PskStep(accs[j - i], ids[j], env.psk(ids[j]).value, j, |ids|)
    ensures PskSecret(env, ids[i..], acc, i, |ids|).Err? ==>
      exists j :: i <= j < |ids| && !(ids[j].nonceFits && env.psk(ids[j]).Some?)
    decreases |ids| - i
  {
    accs := [acc];
    if i < |ids| {
      assert ids[i..][1..] == ids[i + 1..];
      if ids[i].nonceFits && env.psk(ids[i]).Some? {
        var rest := PskFrom(env, ids, i + 1, PskStep(acc, ids[i], env.psk(ids[i]).value, i, |ids|));
        accs := [acc] + rest;
      }
    }
  }

  lemma {:induction false} RunUnique(env: Env, ids: seq<PskId>, a: seq<Secret>, b: seq<Secret>, n: nat)
    requires PskRun(env, ids, a) && PskRun(env, ids, b) && n <= |ids|
    ensures a[n] == b[n]
  {
    if n > 0 { RunUnique(env, ids, a, b, n - 1); }
  }

  /** accumulatePskSecret joins all the keys, in order, or throws. */
  lemma {:induction false} PskSecretIff(env: Env, ids: seq<PskId>, x: Secret)
    ensures PskSecret(env, ids, Zero, 0, |ids|) == Ok(x) <==> PskJoined(env, ids, x)
  {
    assert ids[0..] == ids;
    var accs := PskFrom(env, ids, 0, Zero);
    if PskSecret(env, ids, Zero, 0, |ids|).Ok? {
      assert PskRun(env, ids, accs);
    }
    if PskJoined(env, ids, x) {
      var other :| PskRun(env, ids, other) && other[|ids|] == x;
      if PskSecret(env, ids, Zero, 0, |ids|).Ok? { RunUnique(env, ids, accs, other, |ids|); }
    }
  }

  lemma {:induction false} RunTells(
      env: Env, ids: seq<PskId>, a: seq<Secret>, other: Env, ids': seq<PskId>, b: seq<Secret>, n: nat)
    requires PskRun(env, ids, a) && PskRun(other, ids', b) && |ids| == |ids'| && n <= |ids| && a[n] == b[n]
    ensures forall i | 0 <= i < n :: ids[i] == ids'[i] && env.psk(ids[i]) == other.psk(ids'[i])
  {
    if n > 0 {
      assert a[n] == PskStep(a[n - 1], ids[n - 1], env.psk(ids[n - 1]).value, n - 1, |ids|);
      assert b[n] == PskStep(b[n - 1], ids'[n - 1], other.psk(ids'[n - 1]).value, n - 1, |ids|);
      RunTells(env, ids, a, other, ids', b, n - 1);
    }
  }

  lemma {:induction false} RunCount(
      env: Env, ids: seq<PskId>, a: seq<Secret>, other: Env, ids': seq<PskId>, b: seq<Secret>)
    requires PskRun(env, ids, a) && PskRun(other, ids', b) && a[|ids|] == b[|ids'|]
    ensures |ids| == |ids'|
  {
    var n, m := |ids|, |ids'|;
    if n > 0 { assert a[n] == PskStep(a[n - 1], ids[n - 1], env.psk(ids[n - 1]).value, n - 1, n); }
    if m > 0 { assert b[m] == PskStep(b[m - 1], ids'[m - 1], other.psk(ids'[m - 1]).value, m - 1, m); }
  }

  /** Two lists give one secret only if they are one list, of the same keys. */
  lemma {:induction false} SameSecretSamePsks(env: Env, ids: seq<PskId>, other: Env, ids': seq<PskId>, x: Secret)
    requires PskJoined(env, ids, x) && PskJoined(other, ids', x)
    ensures ids == ids' && forall i | 0 <= i < |ids| :: env.psk(ids[i]) == other.psk(ids[i])
  {
    var a :| PskRun(env, ids, a) && a[|ids|] == x;
    var b :| PskRun(other, ids', b) && b[|ids'|] == x;
    RunCount(env, ids, a, other, ids', b);
    RunTells(env, ids, a, other, ids', b, |ids|);
  }

  // ---- the proposals applied ----

  /** Anything but an Add, a pre-shared key or a reinit. */
  predicate Rotates(p: Proposal) {
    !p.Add? && !p.Psk? && !p.ReinitProposal?
  }

  /** A commit of these must bring a path. */
  ghost predicate PathDue(all: seq<ProposalWithSender>) {
    all == [] || exists p :: p in all && Rotates(p.proposal)
  }

  ghost predicate Has(all: seq<ProposalWithSender>, p: Proposal) {
    exists q :: q in all && q.proposal == p
  }

  /** The kind a list of proposals makes of its commit. */
  ghost predicate KindIs(st: ClientState, all: seq<ProposalWithSender>, sender: SenderType, kind: Kind) {
    match kind
    case ReinitCommit(r) => |all| == 1 && all[0].proposal == ReinitProposal(r) && r.version >= st.context.version
    case ExternalCommit(init, _, _) =>
      && sender == NewMemberCommitType
      && exists kem :: Has(all, ExternalInit(kem)) && ImportSecret(st.schedule.external, kem) == Some(init)
    case MemberCommit(_, _) =>
      && sender != NewMemberCommitType
      && forall p | p in all :: !p.proposal.ReinitProposal? && !p.proposal.ExternalInit?
  }

  lemma {:induction false} DueIff(all: seq<ProposalWithSender>)
    requires forall p | p in all :: !p.proposal.ExternalInit? && !p.proposal.ReinitProposal?
    ensures var g := Group(all);
      PathDue(all) <==> all == [] || g.updates != [] || g.removes != [] || g.gces != [] || g.customs != []
  {
    hide Picked;
    GroupPicks(all);
    PickedNone(all, UpdateOf);
    PickedNone(all, RemoveOf);
    PickedNone(all, ContextExtensionsOf);
    PickedNone(all, CustomOf);
  }

  /** What applying the list gives the commit, apart from the tree. */
  ghost predicate Yields(env: Env, st: ClientState, all: seq<ProposalWithSender>, sender: SenderType, a: Applied) {
    var gc := CheckedContext(st, a.kind);
    && a.all == all && (a.needsPath <==> PathDue(all)) && KindIs(st, all, sender, a.kind)
    && a.pskIds == Picked(all, PskOf) && PskJoined(env, a.pskIds, a.pskSecret)
    && gc == st.context.(extensions := gc.extensions) && ExtensionsBecome(all, st.context.extensions, gc.extensions)
  }

  lemma {:induction false} ReinitYields(
      env: Env, st: ClientState, all: seq<ProposalWithSender>, sender: SenderType, a: Applied)
    requires |all| == 1 && Group(all).reinits != [] && Group(all).reinits[0].version >= st.context.version
    requires a == Applied(st.tree, Zero, [], false, ReinitCommit(Group(all).reinits[0]), false, all)
    ensures Yields(env, st, all, sender, a)
  {
    hide Group;
    var r := Group(all).reinits[0];
    GroupPicks(all);
    PickedIff(all, ReinitOf, r);
    var p :| p in all && ReinitOf(p) == Some(r);
    assert all[0] == p;
    PickedNone(all, PskOf);
    PskSecretIff(env, [], Zero);
  }

  lemma {:induction false} MemberYields(
      env: Env, st: ClientState, all: seq<ProposalWithSender>, committer: Option<nat>, sent: bool, sender: SenderType)
    requires Valid(st.tree) && ApplyMemberProposals(env, st, all, Group(all), committer, sent).Ok?
    requires Group(all).externalInits == [] && Group(all).reinits == [] && sender != NewMemberCommitType
    ensures Yields(env, st, all, sender, ApplyMemberProposals(env, st, all, Group(all), committer, sent).value)
  {
    hide Group, ApplyMutations, ProposalsOk, Picked, ContextAfter, Rotates;
    GroupPicks(all);
    PickedNone(all, ExternalInitOf);
    PickedNone(all, ReinitOf);
    DueIff(all);
    OneChange(env, all, committer, st.context, st.tree);
    BecomeIs(all, st.context);
    PskSecretIff(
      env, Group(all).psks, ApplyMemberProposals(env, st, all, Group(all), committer, sent).value.pskSecret);
  }

  lemma {:induction false} OneChange(
      env: Env, all: seq<ProposalWithSender>, committer: Option<nat>, gc: GroupContext, t: Tree)
    requires ProposalsOk(env, Group(all), committer, gc, t)
    ensures OneContextChange(all)
  {
    hide Group;
    ContextChangesIff(all);
  }

  lemma {:induction false} ExternalYields(
      env: Env, st: ClientState, props: seq<ProposalOrRef>, all: seq<ProposalWithSender>, newLeaf: Option<LeafNode>,
      sender: SenderType)
    requires Valid(st.tree) && |Group(all).externalInits| > 0 && sender == NewMemberCommitType
    requires ApplyExternalProposals(env, st, props, all, Group(all), newLeaf).Ok?
    ensures Yields(
      env, st, all, sender, ApplyExternalProposals(env, st, props, all, Group(all), newLeaf).value)
  {
    hide Group, AfterResync, Picked;
    GroupPicks(all);
    var kem := Group(all).externalInits[0];
    PickedIff(all, ExternalInitOf, kem);
    var p :| p in all && ExternalInitOf(p) == Some(kem);
    assert Rotates(p.proposal) && Has(all, ExternalInit(kem));
    ContextChangesIff(all);
    PskSecretIff(
      env, Group(all).psks, ApplyExternalProposals(env, st, props, all, Group(all), newLeaf).value.pskSecret);
  }

  /** applyProposals, of any list that passes. */
  lemma {:induction false} AppliedYields(
      env: Env, st: ClientState, props: seq<ProposalOrRef>, committer: Option<nat>, sent: bool,
      newLeaf: Option<LeafNode>, sender: SenderType)
    requires Valid(st.tree) && ApplyProposals(env, st, props, committer, sent, newLeaf, sender).Ok?
    ensures var a := ApplyProposals(env, st, props, committer, sent, newLeaf, sender).value;
      Resolve(props, st.pending, committer, sender) == Ok(a.all) && Yields(env, st, a.all, sender, a)
  {
    hide Group, Resolve, ApplyMemberProposals, ApplyExternalProposals, Yields;
    var all := Resolve(props, st.pending, committer, sender).value;
    var g, a := Group(all), ApplyProposals(env, st, props, committer, sent, newLeaf, sender).value;
    if g.externalInits != [] {
      ExternalYields(env, st, props, all, newLeaf, sender);
      AllIs(a, all, env, st, sender);
    } else if g.reinits != [] {
      ReinitYields(env, st, all, sender, a);
    } else {
      MemberYields(env, st, all, committer, sent, sender);
      AllIs(a, all, env, st, sender);
    }
  }

  lemma {:induction false} AllIs(
      a: Applied, all: seq<ProposalWithSender>, env: Env, st: ClientState, sender: SenderType)
    requires Yields(env, st, all, sender, a)
    ensures a.all == all
  {
  }

  // ---- the epoch after ----

  /** The init secret is the old epoch's, or what an external commit's encapsulation holds. */
  ghost predicate InitIs(st: ClientState, all: seq<ProposalWithSender>, init: Secret) {
    if forall p | p in all :: !p.proposal.ExternalInit? then init == st.schedule.init
    else exists kem :: Has(all, ExternalInit(kem)) && ImportSecret(st.schedule.external, kem) == Some(init)
  }

  /** The whole schedule comes of the init secret, the commit secret, the committed
      pre-shared keys and the new context; so does the new secret tree. */
  ghost predicate KeyedBy(env: Env, st: ClientState, all: seq<ProposalWithSender>, commit: Secret, n: ClientState) {
    exists init, psk ::
      && InitIs(st, all, init) && PskJoined(env, Picked(all, PskOf), psk)
      && FromRoot(EpochSecret(JoinerSecret(init, commit, n.context), psk, n.context), n)
  }

  predicate FromRoot(root: Secret, n: ClientState) {
    && n.schedule == DeriveEpochKeys(root)
    && n.secretTree == SecretTree(|n.tree| / 2 + 1, Derived(root, EncryptionLabel), 0)
  }

  /** The context says the epoch, the tree, the extensions and the transcript, which
      chains on the one before and on its tag. */
  ghost predicate ContextIs(st: ClientState, all: seq<ProposalWithSender>, m: CommitMessage, n: ClientState) {
    var gc, was := n.context, st.context;
    && gc.version == was.version && gc.suite == was.suite && gc.groupId == was.groupId
    && gc.epoch == was.epoch + 1 && m.content.epoch == was.epoch
    && ExtensionsBecome(all, was.extensions, gc.extensions)
    && gc.treeHash == TreeHash(n.tree, Root(|n.tree|))
    && gc.confirmed == ConfirmedHash(
         if was.epoch == 0 then NoBytes else InterimHash(was.confirmed, st.tag), m.content, m.signature)
    && n.tag == m.tag && m.tag == Mac(n.schedule.confirmation, gc.confirmed)
  }

  function ActiveOf(all: seq<ProposalWithSender>): Active {
    if |all| == 1 && all[0].proposal.ReinitProposal? then SuspendedPendingReinit(all[0].proposal.reinit) else IsActive
  }

  /** The epoch left is retained as it was, and nothing else is new. */
  ghost predicate HistoryIs(st: ClientState, history: map<nat, EpochData>) {
    forall e | e in history ::
      if e == st.context.epoch
      then history[e] == EpochData(st.schedule.resumption, st.secretTree, st.tree, st.schedule.senderData, st.context)
      else e in st.history && history[e] == st.history[e]
  }

  ghost predicate NextIs(
      env: Env, st: ClientState, all: seq<ProposalWithSender>, m: CommitMessage, commit: Secret, n: ClientState) {
    && ContextIs(st, all, m, n) && KeyedBy(env, st, all, commit, n) && HistoryIs(st, n.history)
    && (m.content.commit.path.None? ==> commit == Zero && !PathDue(all))
    && n.pending == [] && n.updateKeys == map[] && n.retain == st.retain && n.maxPending == st.maxPending
  }

  lemma {:induction false} NewestKept(m: map<nat, EpochData>, max: nat)
    ensures forall e | e in KeepNewest(m, max) :: e in m && KeepNewest(m, max)[e] == m[e]
    decreases |m.Keys|
  {
    if |m.Keys| > max {
      var k := Smallest(m.Keys);
      assert (m - {k}).Keys == m.Keys - {k};
      NewestKept(m - {k}, max);
    }
  }

  lemma {:induction false} HistoryKept(st: ClientState)
    ensures HistoryIs(st, AddHistory(st))
  {
    var added := st.history[st.context.epoch :=
      EpochData(st.schedule.resumption, st.secretTree, st.tree, st.schedule.senderData, st.context)];
    if st.retain > 0 { NewestKept(added, st.retain); }
  }

  // ---- the committer ----

  lemma {:induction false} DraftKeyed(
      env: Env, st: ClientState, o: CommitOptions, d: Draft, sender: SenderType)
    requires Valid(DraftTree(d)) && Yields(env, st, d.applied.all, sender, d.applied) && !d.applied.kind.ExternalCommit?
    requires d.context == CheckedContext(st, d.applied.kind)
    ensures KeyedBy(env, st, d.applied.all, CommitSecret(d.created), CommitterState(st, o, d))
    ensures ContextIs(st, d.applied.all, EpochOf(st, o, d).message, CommitterState(st, o, d))
    ensures !d.applied.selfRemoved ==> CommitterState(st, o, d).active == ActiveOf(d.applied.all)
  {
    hide CommitSecret, DeriveEpochKeys, AddHistory, CommitterPath, ExtensionsBecome, PskJoined, TreeHash,
      CheckedContext, PathDue, DraftTree, Picked;
    var n, all := CommitterState(st, o, d), d.applied.all;
    assert InitIs(st, all, st.schedule.init);
    assert FromRoot(
        EpochSecret(JoinerSecret(st.schedule.init, CommitSecret(d.created), n.context), d.applied.pskSecret, n.context),
        n);
  }

  /** The commit's message: signed by the committer over the old context, naming what
      the filter kept and then what was added by value. */
  ghost predicate SentAs(env: Env, st: ClientState, o: CommitOptions, m: CommitMessage) {
    var c := m.content;
    && c.groupId == st.context.groupId && c.epoch == st.context.epoch && c.sender == Member(st.privatePath.leaf)
    && c.authenticatedData == o.authenticatedData && c.wireformat == (if o.publicWire then PublicWire else PrivateWire)
    && m.signature == CommitSignature(st.signKey, c, st.context)
    && Valid(st.tree) && FilterPendingProposals(env, st, o.extra).Ok?
    && var refs := FilterPendingProposals(env, st, o.extra).value;
       && |c.commit.proposals| == |refs| + |o.extra|
       && (forall i | 0 <= i < |refs| :: c.commit.proposals[i] == ByReference(refs[i]))
       && (forall i | 0 <= i < |o.extra| :: c.commit.proposals[|refs| + i] == ByValue(o.extra[i]))
  }

  /** The path a commit brings: every ciphertext is sealed in the context of the epoch
      it leads to, but for the transcript, and the leaf is the patch over the old one. */
  ghost predicate PathSent(st: ClientState, o: CommitOptions, seed: Secret, n: ClientState, path: UpdatePath) {
    && (forall i, j | 0 <= i < |path.nodes| && 0 <= j < |path.nodes[i].sealed| ::
          path.nodes[i].sealed[j].context == n.context.(confirmed := st.context.confirmed))
    && LeafAt(n.tree, st.privatePath.leaf) == Some(path.leaf)
    && path.leaf.hpkeKey == PathKey(seed, 0)
    && path.leaf.signature == LeafSignature(n.signKey, Some((st.context.groupId, st.privatePath.leaf)))
    && n.signKey == (if o.patch.Some? then OrElse(o.patch.value.signature, st.signKey) else st.signKey)
  }

  /** A leaf of a path is the leaf before with what the patch changes. */
  predicate Patched(prior: LeafNode, o: CommitOptions, leaf: LeafNode) {
    && leaf.source.FromCommit?
    && (o.patch.None? ==>
          && leaf.credential == prior.credential && leaf.sigKey == prior.sigKey
          && leaf.capabilities == prior.capabilities && leaf.extensions == prior.extensions)
    && (o.patch.Some? ==>
          && leaf.credential == OrElse(o.patch.value.credential, prior.credential)
          && leaf.capabilities == OrElse(o.patch.value.capabilities, prior.capabilities)
          && leaf.extensions == OrElse(o.patch.value.extensions, prior.extensions)
          && leaf.sigKey ==
               if o.patch.value.signature.Some? then Pub(o.patch.value.signature.value) else prior.sigKey)
  }

  lemma {:induction false} DraftSent(env: Env, st: ClientState, o: CommitOptions, seed: Secret, d: Draft)
    requires Drafted(env, st, o, seed, d)
    ensures SentAs(env, st, o, CreateCommit(env, st, o, seed).value.message)
    ensures CreateCommit(env, st, o, seed).value.message.content.commit ==
      Commit(d.props, if d.created.Some? then Some(d.created.value.path) else None)
  {
    hide FilterPendingProposals, ApplyProposals, DraftPath, CommitterState, CreateWelcome, NextEpochContext,
      InitializeEpoch, RootHash;
    DraftFacts(env, st, o, seed, d);
  }

  lemma {:induction false} DraftPathDue(env: Env, st: ClientState, o: CommitOptions, applied: Applied, seed: Secret)
    requires Valid(applied.tree) && DraftPath(env, st, o, applied, seed).Ok?
    ensures DraftPath(env, st, o, applied, seed).value.Some? <==> applied.needsPath || o.patch.Some?
  {
    hide CreateUpdatePath, UpdateOrCommitOk;
  }

  /** What the committer's next state, message and path are, for every commit it can make. */
  lemma {:induction false} CommitterNext(env: Env, st: ClientState, o: CommitOptions, seed: Secret)
    requires Valid(st.tree) && CreateCommit(env, st, o, seed).Ok?
    ensures var r := CreateCommit(env, st, o, seed).value;
      var path, resolved := r.message.content.commit.path,
        Resolve(r.message.content.commit.proposals, st.pending, Some(st.privatePath.leaf), MemberType);
      && SentAs(env, st, o, r.message) && resolved.Ok?
      && (path.Some? <==> o.patch.Some? || PathDue(resolved.value))
      && NextIs(
           env, st, resolved.value, r.message, if path.None? then Zero else PathSecretAt(seed, |path.value.nodes| + 1),
           r.state)
      && (MemberOk(st) ==> r.state.active == ActiveOf(resolved.value))
  {
    hide CreateCommit, DraftCommit, ApplyProposals, DraftPath, CommitterState, EpochOf, ContextIs, KeyedBy, HistoryIs,
      SentAs, MemberOk, PathDue, ActiveOf, Yields, Resolve, CommitSecret, CheckedContext, PathSecretAt;
    var d := DraftOf(env, st, o, seed);
    var leaf := st.privatePath.leaf;
    DraftSent(env, st, o, seed, d);
    DraftFacts(env, st, o, seed, d);
    AppliedYields(env, st, d.props, Some(leaf), true, None, MemberType);
    DraftPathDue(env, st, o, d.applied, seed);
    CommitKey(env, st, o, seed, d);
    DraftKeyed(env, st, o, d, MemberType);
    HistoryKept(st);
    if MemberOk(st) { NotFlagged(env, st, d.props, d.applied); }
    CommitterRest(st, o, d);
    YieldsDue(env, st, d.applied.all, MemberType, d.applied);
  }

  lemma {:induction false} DraftOf(env: Env, st: ClientState, o: CommitOptions, seed: Secret) returns (d: Draft)
    requires Valid(st.tree) && CreateCommit(env, st, o, seed).Ok?
    ensures Drafted(env, st, o, seed, d) && Valid(DraftTree(d))
  {
    hide DraftCommit, CreateWelcome, CommitterState, EpochOf, DraftTree;
    d := DraftCommit(env, st, o, seed).value;
    DraftValid(env, st, o, seed);
  }

  lemma {:induction false} CommitterRest(st: ClientState, o: CommitOptions, d: Draft)
    requires Valid(DraftTree(d))
    ensures var n := CommitterState(st, o, d);
      && n.history == AddHistory(st) && n.pending == [] && n.updateKeys == map[]
      && n.retain == st.retain && n.maxPending == st.maxPending
  {
    hide EpochOf, AddHistory, CommitterPath, NewSecretTree;
  }

  lemma {:induction false} YieldsDue(
      env: Env, st: ClientState, all: seq<ProposalWithSender>, sender: SenderType, a: Applied)
    requires Yields(env, st, all, sender, a)
    ensures a.needsPath <==> PathDue(all)
  {
  }

  lemma {:induction false} CommitKey(env: Env, st: ClientState, o: CommitOptions, seed: Secret, d: Draft)
    requires Drafted(env, st, o, seed, d)
    ensures d.created.None? ==> CommitSecret(d.created) == Zero
    ensures d.created.Some? ==> CommitSecret(d.created) == PathSecretAt(seed, |d.created.value.path.nodes| + 1)
  {
    hide ApplyProposals, CreateCommit, DraftCommit, UpdateOrCommitOk, CreateUpdatePath, CommitterState, EpochOf;
    DraftFacts(env, st, o, seed, d);
    if d.created.Some? {
      var t, s, exclude := d.applied.tree, st.privatePath.leaf, ExcludedNodes(d.applied.kind);
      var gc, patch := CheckedContext(st, d.applied.kind), OrElse(o.patch, NoPatch);
      CreatedWhere(t, s, gc, st.signKey, seed, exclude, patch);
      Convergence.CommitSecretIs(t, s, gc, st.signKey, seed, exclude, patch);
      CreatedKeys(t, s, gc, st.signKey, seed, exclude, patch);
      PathLonger(seed, |FilteredPath(t, s)|);
    }
  }

  lemma {:induction false} PathLonger(seed: Secret, n: nat)
    ensures Derived(PathSecretAt(seed, n), PathLabel) == PathSecretAt(seed, n + 1)
  {
  }

  lemma {:induction false} CreatedWhere(
      t: Tree, s: nat, gc: GroupContext, signKey: Secret, seed: Secret, exclude: seq<nat>, patch: LeafPatch)
    requires Valid(t) && CreateUpdatePath(t, s, gc, signKey, seed, exclude, patch).Ok?
    ensures HasLeaf(t, s)
    ensures var c := CreateUpdatePath(t, s, gc, signKey, seed, exclude, patch).value;
      && |c.tree| == |t| && c.treeHash == RootHash(c.tree) && LeafAt(c.tree, s) == Some(c.path.leaf)
      && c.path.leaf.source.FromCommit?
      && c.path.leaf == NewLeaf(
           LeafAt(t, s).value, PathKey(seed, 0), c.path.leaf.source.parentHash, (gc.groupId, s), signKey, patch)
      && SealPath(t, SecretsAbove(FilteredPath(t, s), seed, exclude), NextContext(gc, c.treeHash)) == Ok(c.path.nodes)
  {
    hide FilteredFrom, SecretsAbove, SealPath, PathTree, CalculateParentHash;
  }

  lemma {:induction false} SealedIn(t: Tree, secrets: seq<PathSecret>, context: GroupContext, i: nat, j: nat)
    requires SealPath(t, secrets, context).Ok? && i < |SealPath(t, secrets, context).value|
    requires j < |SealPath(t, secrets, context).value[i].sealed|
    ensures SealPath(t, secrets, context).value[i].sealed[j].context == context
  {
    SealPathLength(t, secrets, context);
    SealPathAt(t, secrets, context, i);
    SealAllAt(t, secrets[i].sendTo, context, secrets[i].secret);
  }

  lemma {:induction false} CreatedSent(
      st: ClientState, o: CommitOptions, seed: Secret, t: Tree, gc: GroupContext, exclude: seq<nat>, n: ClientState)
    requires Valid(t) && gc.groupId == st.context.groupId && gc.confirmed == st.context.confirmed
    requires var s := st.privatePath.leaf;
      var created := CreateUpdatePath(t, s, gc, st.signKey, seed, exclude, OrElse(o.patch, NoPatch));
      && created.Ok? && n.tree == created.value.tree && n.signKey == NewSignKey(st, o)
      && n.context == NextContext(gc, created.value.treeHash).(confirmed := n.context.confirmed)
    ensures var s := st.privatePath.leaf;
      var path := CreateUpdatePath(t, s, gc, st.signKey, seed, exclude, OrElse(o.patch, NoPatch)).value.path;
      PathSent(st, o, seed, n, path) && HasLeaf(t, s) && Patched(LeafAt(t, s).value, o, path.leaf)
  {
    hide CreateUpdatePath, FilteredFrom, SecretsAbove, SealPath, RootHash;
    var s, patch := st.privatePath.leaf, OrElse(o.patch, NoPatch);
    var c := CreateUpdatePath(t, s, gc, st.signKey, seed, exclude, patch).value;
    CreatedWhere(t, s, gc, st.signKey, seed, exclude, patch);
    var secrets, context := SecretsAbove(FilteredPath(t, s), seed, exclude), NextContext(gc, c.treeHash);
    forall i, j | 0 <= i < |c.path.nodes| && 0 <= j < |c.path.nodes[i].sealed|
      ensures c.path.nodes[i].sealed[j].context == n.context.(confirmed := st.context.confirmed)
    {
      SealedIn(t, secrets, context, i, j);
    }
  }

  lemma {:induction false} DraftedPath(env: Env, st: ClientState, o: CommitOptions, d: Draft, seed: Secret)
    requires Valid(d.applied.tree) && DraftPath(env, st, o, d.applied, seed) == Ok(d.created) && d.created.Some?
    requires d.context == CheckedContext(st, d.applied.kind)
    requires d.context == st.context.(extensions := d.context.extensions)
    ensures var n := CommitterState(st, o, d);
      var created := CreateUpdatePath(
        d.applied.tree, st.privatePath.leaf, d.context, st.signKey, seed, ExcludedNodes(d.applied.kind),
        OrElse(o.patch, NoPatch));
      && created == Ok(d.created.value) && n.tree == created.value.tree && n.signKey == NewSignKey(st, o)
      && n.context == NextContext(d.context, RootHash(n.tree)).(confirmed := n.context.confirmed)
  {
    hide CreateUpdatePath, UpdateOrCommitOk, RootHash, InitializeEpoch, AddHistory, CommitterPath, NewSecretTree,
      DraftContent, CommitSecret, ConfirmationTag;
  }

  lemma {:induction false} YieldsContext(
      env: Env, st: ClientState, all: seq<ProposalWithSender>, sender: SenderType, a: Applied)
    requires Yields(env, st, all, sender, a)
    ensures var gc := CheckedContext(st, a.kind); gc == st.context.(extensions := gc.extensions)
  {
    hide PskJoined, PathDue, KindIs, ExtensionsBecome, Picked;
  }

  /** And its path, when it brings one. */
  lemma {:induction false} CommitterPathIs(env: Env, st: ClientState, o: CommitOptions, seed: Secret)
    requires MemberOk(st) && CreateCommit(env, st, o, seed).Ok?
    requires CreateCommit(env, st, o, seed).value.message.content.commit.path.Some?
    ensures var r := CreateCommit(env, st, o, seed).value;
      var path := r.message.content.commit.path.value;
      PathSent(st, o, seed, r.state, path) && Patched(LeafAt(st.tree, st.privatePath.leaf).value, o, path.leaf)
  {
    MemberHasLeaf(st);
    hide CreateCommit, DraftCommit, ApplyProposals, DraftPath, CommitterState, EpochOf, MemberOk, Yields, CommitApplied,
      CreateUpdatePath, CheckedContext, PathSent, Patched, NewSignKey, RootHash;
    var d := DraftOf(env, st, o, seed);
    var s := st.privatePath.leaf;
    DraftSent(env, st, o, seed, d);
    DraftFacts(env, st, o, seed, d);
    AppliedYields(env, st, d.props, Some(s), true, None, MemberType);
    YieldsContext(env, st, d.applied.all, MemberType, d.applied);
    DraftedPath(env, st, o, d, seed);
    CommitterStays(env, st, d.props, s, d.applied);
    var patch, exclude := OrElse(o.patch, NoPatch), ExcludedNodes(d.applied.kind);
    CreatedWhere(d.applied.tree, s, d.context, st.signKey, seed, exclude, patch);
    CreatedSent(st, o, seed, d.applied.tree, d.context, exclude, CommitterState(st, o, d));
  }

  // ---- a receiver ----

  lemma {:induction false} AdvanceKeyed(
      env: Env, st: ClientState, m: CommitMessage, applied: Applied, sender: SenderType)
    requires Valid(applied.tree) && Yields(env, st, applied.all, sender, applied) && AdvanceEpoch(st, m, applied).Ok?
    requires m.content.epoch == st.context.epoch
    requires m.content.commit.path.None? ==> !applied.needsPath
    ensures var n := AdvanceEpoch(st, m, applied).value;
      && n.active == ActiveOf(applied.all)
      && exists commit :: NextIs(env, st, applied.all, m, commit, n)
  {
    hide DeriveEpochKeys, AddHistory, ExtensionsBecome, PskJoined, TreeHash, CheckedContext, PathDue, Picked,
      ApplyPathAs, AddLeaf, AppliedUpdateKey, OwnPath, MergePaths, PruneBlanked, ReceiverExcluded, HistoryIs;
    HistoryKept(st);
    var n, all := AdvanceEpoch(st, m, applied).value, applied.all;
    var key, gc := AppliedUpdateKey(st.updateKeys, m.content.commit.proposals), CheckedContext(st, applied.kind);
    var own, exclude := OwnPath(st, key), ReceiverExcluded(applied.kind, applied.tree);
    EpochTags.UpdateHash(m.content.commit.path, m.content.sender, applied.tree, own, gc, exclude);
    var update := ApplyTreeUpdate(m.content.commit.path, m.content.sender, applied.tree, own, gc, exclude).value;
    var init := if applied.kind.ExternalCommit? then applied.kind.initSecret else st.schedule.init;
    assert InitIs(st, all, init);
    assert FromRoot(
        EpochSecret(JoinerSecret(init, update.commitSecret, n.context), applied.pskSecret, n.context), n);
    assert NextIs(env, st, all, m, update.commitSecret, n);
  }

  lemma {:induction false} PathWasThere(env: Env, st: ClientState, m: CommitMessage, applied: Applied)
    requires PathError(env, st, m.content, applied).None?
    ensures m.content.commit.path.None? ==> !applied.needsPath
  {
    hide UpdateOrCommitOk;
  }

  /** What the next state of a member is that accepts a commit, whoever made it. */
  lemma {:induction false} ReceiverNext(env: Env, st: ClientState, m: CommitMessage)
    requires Valid(st.tree) && ProcessCommit(env, st, m, true).Ok?
    requires ProcessCommit(env, st, m, true).value != RemovedState(st)
    ensures var n, resolved := ProcessCommit(env, st, m, true).value,
        Resolve(m.content.commit.proposals, st.pending, SenderLeaf(m.content.sender), SenderTypeOf(m.content.sender));
      && resolved.Ok? && n.active == ActiveOf(resolved.value)
      && exists commit :: NextIs(env, st, resolved.value, m, commit, n)
  {
    assert m.content.epoch == st.context.epoch;
    hide ProcessCommit, ApplyProposals, AdvanceEpoch, PathError, NextIs, ActiveOf, Yields, Resolve, RemovedState;
    var sender := m.content.sender;
    var applied := AcceptedIs(env, st, m);
    AppliedYields(
      env, st, m.content.commit.proposals, SenderLeaf(sender), false, PathLeaf(m.content.commit),
      SenderTypeOf(sender));
    PathWasThere(env, st, m, applied);
    AdvanceKeyed(env, st, m, applied, SenderTypeOf(sender));
  }

  lemma {:induction false} NeverDueLater(st: ClientState, m: CommitMessage, applied: Applied)
    requires Valid(applied.tree) && m.content.commit.path.None?
    ensures AdvanceEpoch(st, m, applied) != Err(PathRequired)
  {
    hide InitializeEpoch, ConfirmationTag, RootHash, AddHistory, PruneBlanked, MergePaths;
  }

  /** A commit without a path is refused for that exactly when its proposals call for one. */
  lemma {:induction false} PathRequiredIff(env: Env, st: ClientState, m: CommitMessage)
    requires Valid(st.tree) && m.content.epoch == st.context.epoch && m.content.commit.path.None?
    requires var sender := m.content.sender;
      ApplyProposals(
        env, st, m.content.commit.proposals, SenderLeaf(sender), false, None, SenderTypeOf(sender)).Ok?
    ensures ProcessCommit(env, st, m, true) == Err(PathRequired) <==>
      PathDue(Resolve(
        m.content.commit.proposals, st.pending, SenderLeaf(m.content.sender), SenderTypeOf(m.content.sender)).value)
  {
    var c, sender := m.content.commit, m.content.sender;
    assert PathLeaf(c) == None;
    hide ApplyProposals, AdvanceEpoch, Yields, Resolve;
    AppliedYields(env, st, c.proposals, SenderLeaf(sender), false, None, SenderTypeOf(sender));
    ApplyProposalsValid(env, st, c.proposals, SenderLeaf(sender), false, None, SenderTypeOf(sender));
    var applied := ApplyProposals(env, st, c.proposals, SenderLeaf(sender), false, None, SenderTypeOf(sender)).value;
    YieldsDue(env, st, applied.all, SenderTypeOf(sender), applied);
    NeverDueLater(st, m, applied);
  }

  // ---- one transcript ----

  /** Some commit's proposals lead from `st` to `n`. */
  ghost predicate LeadsTo(st: ClientState, m: CommitMessage, n: ClientState) {
    exists all :: ContextIs(st, all, m, n)
  }

  /** The states of a client from one epoch to the next, and the commits between. */
  ghost predicate Trail(states: seq<ClientState>, commits: seq<CommitMessage>) {
    && |states| == |commits| + 1
    && forall i | 0 <= i < |commits| :: LeadsTo(states[i], commits[i], states[i + 1])
  }

  lemma {:induction false} StepTells(
      a: ClientState, m: CommitMessage, n: ClientState, a': ClientState, m': CommitMessage, n': ClientState)
    requires LeadsTo(a, m, n) && LeadsTo(a', m', n')
    requires n.context.confirmed == n'.context.confirmed && n.tag == n'.tag
    ensures m == m' && a.context.epoch == a'.context.epoch
    ensures a.context.epoch > 0 ==> a.context.confirmed == a'.context.confirmed && a.tag == a'.tag
  {
    hide ExtensionsBecome, TreeHash;
    var all :| ContextIs(a, all, m, n);
    var all' :| ContextIs(a', all', m', n');
  }

  lemma {:induction false} LaterEpoch(st: ClientState, m: CommitMessage, n: ClientState)
    requires LeadsTo(st, m, n)
    ensures n.context.epoch > 0 && n.tag == Mac(n.schedule.confirmation, n.context.confirmed)
  {
    hide ExtensionsBecome, TreeHash;
    var all :| ContextIs(st, all, m, n);
  }

  /** Two clients with one tag have come by the same commits, as far back as both
      have been in the group: contents, signatures and tags. */
  lemma {:induction false} OneTranscript(
      states: seq<ClientState>, commits: seq<CommitMessage>, states': seq<ClientState>, commits': seq<CommitMessage>,
      k: nat)
    requires Trail(states, commits) && Trail(states', commits')
    requires states[|commits|].tag == states'[|commits'|].tag
    requires k < |commits| && k < |commits'|
    ensures var i, j := |commits| - 1 - k, |commits'| - 1 - k;
      && commits[i] == commits'[j] && states[i].context.epoch == states'[j].context.epoch
      && (states[i].context.epoch > 0 ==>
            states[i].context.confirmed == states'[j].context.confirmed && states[i].tag == states'[j].tag)
  {
    hide LeadsTo;
    var i, j := |commits| - 1 - k, |commits'| - 1 - k;
    if k == 0 {
      LaterEpoch(states[i], commits[i], states[i + 1]);
      LaterEpoch(states'[j], commits'[j], states'[j + 1]);
    } else {
      OneTranscript(states, commits, states', commits', k - 1);
      LaterEpoch(states[i], commits[i], states[i + 1]);
    }
    StepTells(states[i], commits[i], states[i + 1], states'[j], commits'[j], states'[j + 1]);
  }

  // ---- one tag, one set of keys ----

  lemma {:induction false} RootTells(a: Secret, b: Secret, x: ClientState, y: ClientState)
    requires FromRoot(a, x) && FromRoot(b, y) && x.schedule.confirmation == y.schedule.confirmation
    ensures a == b
  {
  }

  /** Clients whose commits led them to one tag used one commit secret and the same
      pre-shared keys, in the same order: each of them is in the epoch's secret. */
  lemma {:induction false} SameTagSamePsks(
      env: Env, st: ClientState, all: seq<ProposalWithSender>, commit: Secret, n: ClientState,
      other: Env, st': ClientState, all': seq<ProposalWithSender>, commit': Secret, n': ClientState)
    requires KeyedBy(env, st, all, commit, n) && KeyedBy(other, st', all', commit', n')
    requires n.tag == Mac(n.schedule.confirmation, n.context.confirmed) && n.tag == n'.tag
    requires n'.tag == Mac(n'.schedule.confirmation, n'.context.confirmed)
    ensures commit == commit' && Picked(all, PskOf) == Picked(all', PskOf)
    ensures forall id | id in Picked(all, PskOf) :: env.psk(id) == other.psk(id)
  {
    hide FromRoot, PskJoined, InitIs, Picked;
    var init, psk :|
      && InitIs(st, all, init) && PskJoined(env, Picked(all, PskOf), psk)
      && FromRoot(EpochSecret(JoinerSecret(init, commit, n.context), psk, n.context), n);
    var init', psk' :|
      && InitIs(st', all', init') && PskJoined(other, Picked(all', PskOf), psk')
      && FromRoot(EpochSecret(JoinerSecret(init', commit', n'.context), psk', n'.context), n');
    RootTells(
      EpochSecret(JoinerSecret(init, commit, n.context), psk, n.context),
      EpochSecret(JoinerSecret(init', commit', n'.context), psk', n'.context), n, n');
    SameSecretSamePsks(env, Picked(all, PskOf), other, Picked(all', PskOf), psk);
  }
}

/** What a group's extensions ask of its members' leaves, and which commits keep it
    (validateProposals and validateLeafNodeCommon in src/client-state.ts). */
module GroupExtensions {
  import opened Options
  import opened Terms
  import opened TreeMath
  import opened RatchetTree
  import opened UpdatePaths
  import opened LeafValidation
  import opened ClientStates
  import opened PrivateKeys
  import opened UnmergedLeaves
  import opened Membership
  import opened Proposals
  import opened ProposalRules
  import opened Commits
  import opened Convergence
  import opened AcceptedCommits
  import opened EpochContents
  import opened KeyOwnership
  import opened ParentHashes
  import opened ParentHashKept
  import opened Receivers

  /** Every member has what the extensions require. */
  ghost predicate AllMeet(t: Tree, exts: seq<Extension>) {
    forall l: nat | HasLeaf(t, l) :: Meets(exts, LeafAt(t, l).value.capabilities)
  }

  /** Every member lists the extensions themselves. */
  ghost predicate AllSupport(t: Tree, exts: seq<Extension>) {
    forall l: nat | HasLeaf(t, l) :: Supports(exts, LeafAt(t, l).value.capabilities)
  }

  /** The commit changes no extensions, and one of its Updates is leaf `l`'s own. */
  ghost predicate LooseUpdate(all: seq<ProposalWithSender>, l: nat) {
    && (forall p | p in all :: !p.proposal.GroupContextExtensions?)
    && exists p :: p in all && p.proposal.Update? && p.leaf == Some(l)
  }

  // ---- what the folds check ----

  lemma {:induction false} UpdatesMeet(env: Env, orig: Tree, t: Tree, updates: seq<UpdateBy>, gc: GroupContext)
    requires Valid(t) && FoldUpdates(env, orig, t, updates, gc).Ok?
    ensures forall u | u in updates :: u.sender.Some? && Meets(gc.extensions, u.leaf.capabilities)
    decreases |updates|
  {
    hide Meets, SupportedByEvery, SupportsOthers, KeysUnlikeOthers, KeyUnlikeParents, ExtensionsSupported,
      MeetsRequired, UpdateLeaf;
    if updates != [] {
      var u := updates[0];
      MeetsIff(gc.extensions, u.leaf.capabilities);
      UpdateLeafAt(t, u.leaf, u.sender.value);
      UpdatesMeet(env, orig, UpdateLeaf(t, u.leaf, u.sender.value), updates[1..], gc);
      forall v | v in updates ensures v == u || v in updates[1..] {}
    }
  }

  lemma {:induction false} AddsMeet(env: Env, t: Tree, adds: seq<KeyPackage>, gc: GroupContext, sent: bool)
    requires Valid(t) && FoldAdds(env, t, adds, gc, sent).Ok?
    ensures forall kp | kp in adds :: Meets(gc.extensions, kp.leaf.capabilities)
    decreases |adds|
  {
    hide Meets, SupportedByEvery, SupportsOthers, KeysUnlikeOthers, KeyUnlikeParents, ExtensionsSupported,
      MeetsRequired, AddLeaf;
    if adds != [] {
      MeetsIff(gc.extensions, adds[0].leaf.capabilities);
      AddLeafAt(t, adds[0].leaf);
      AddsMeet(env, AddLeaf(t, adds[0].leaf).0, adds[1..], gc, sent);
      forall v | v in adds ensures v == adds[0] || v in adds[1..] {}
    }
  }

  /** What one leaf of the tree the proposals leave comes to. */
  ghost predicate LeafFits(
      t: Tree, all: seq<ProposalWithSender>, was: seq<Extension>, u: Tree, exts: seq<Extension>, l: nat)
    requires HasLeaf(u, l)
  {
    var caps := LeafAt(u, l).value.capabilities;
    && (AllMeet(t, was) ==> Meets(exts, caps))
    && (AllSupport(t, was) && !LooseUpdate(all, l) ==> Supports(exts, caps))
  }

  lemma {:induction false} RemainingFits(
      t: Tree, all: seq<ProposalWithSender>, env: Env, committer: Option<nat>, gc: GroupContext, l: nat)
    requires Valid(t) && ProposalsOk(env, Group(all), committer, gc, t) && Group(all).gces != []
    requires HasLeaf(t, l) && l !in Group(all).removes
    ensures var u, exts := UpdateFor(Group(all).updates, l), ContextAfter(gc, Group(all)).extensions;
      var caps := if u.Some? then u.value.capabilities else LeafAt(t, l).value.capabilities;
      Meets(exts, caps) && Supports(exts, caps)
  {
    hide Group, Meets, Supports, MeetsRequired, ExtensionsSupported, NewClients, PsksOk, RemainingCapabilities;
    var g, exts := Group(all), ContextAfter(gc, Group(all)).extensions;
    var u := UpdateFor(g.updates, l);
    var caps := if u.Some? then u.value.capabilities else LeafAt(t, l).value.capabilities;
    assert (2 * l) / 2 == l && NodeLeaf(t, 2 * l) == LeafAt(t, l);
    assert CapabilitiesAt(t, 2 * l, g) == Some(caps);
    RemainingFrom(t, 0, g, caps);
    assert caps in RemainingCapabilities(t, 0, g);
    MeetsIff(exts, caps);
    SupportsIff(exts, caps);
  }

  lemma {:induction false} LooseIff(all: seq<ProposalWithSender>, l: nat)
    ensures LooseUpdate(all, l) <==> Group(all).gces == [] && UpdateFor(Group(all).updates, l).Some?
  {
    hide Picked;
    GroupPicks(all);
    ContextChangesIff(all);
    var updates := Group(all).updates;
    var u := UpdateFor(updates, l);
    if u.Some? {
      PickedIff(all, UpdateOf, UpdateBy(Some(l), u.value));
      var p :| p in all && UpdateOf(p) == Some(UpdateBy(Some(l), u.value));
      assert p.proposal.Update? && p.leaf == Some(l);
    }
    if p :| p in all && p.proposal.Update? && p.leaf == Some(l) {
      assert UpdateOf(p) == Some(UpdateBy(Some(l), p.proposal.leaf));
      PickedIff(all, UpdateOf, UpdateBy(Some(l), p.proposal.leaf));
    }
  }

  /** A member that stays: as it was, or by its own Update. */
  lemma {:induction false} StayingFits(
      env: Env, t: Tree, all: seq<ProposalWithSender>, committer: Option<nat>, gc: GroupContext, m: Mutated, sent: bool,
      l: nat)
    requires Valid(t) && ProposalsOk(env, Group(all), committer, gc, t)
    requires ApplyMutations(env, t, Group(all), ContextAfter(gc, Group(all)), sent) == Ok(m)
    requires HasLeaf(t, l) && l !in Group(all).removes && HasLeaf(m.tree, l)
    requires UpdatedBy(t, m.tree, Group(all).updates, l)
    ensures LeafFits(t, all, gc.extensions, m.tree, ContextAfter(gc, Group(all)).extensions, l)
  {
    hide Group, Meets, Supports, ProposalsOk, FoldRemoves, FoldAdds, FoldUpdates, LooseUpdate;
    var g, after := Group(all), ContextAfter(gc, Group(all));
    LooseIff(all, l);
    if g.gces != [] {
      RemainingFits(t, all, env, committer, gc, l);
    } else if UpdateFor(g.updates, l).Some? {
      UpdatesMeet(env, t, t, g.updates, after);
    }
  }

  lemma {:induction false} JoinedFits(
      env: Env, t: Tree, all: seq<ProposalWithSender>, committer: Option<nat>, gc: GroupContext, m: Mutated, sent: bool,
      l: nat)
    requires Valid(t) && ProposalsOk(env, Group(all), committer, gc, t)
    requires ApplyMutations(env, t, Group(all), ContextAfter(gc, Group(all)), sent) == Ok(m)
    requires AddedInOrder(m, Group(all).adds) && Joined(m, l) && HasLeaf(m.tree, l)
    ensures var exts, caps := ContextAfter(gc, Group(all)).extensions, LeafAt(m.tree, l).value.capabilities;
      Meets(exts, caps) && Supports(exts, caps)
  {
    hide Group, Meets, Supports, FoldRemoves, FoldAdds, FoldUpdates, CommitterUntouched, OneChangePerLeaf, NewClients,
      PsksOk, ExtensionsAccepted, ContextAfter, ExtensionsSupported;
    var g, after := Group(all), ContextAfter(gc, Group(all));
    var u := FoldUpdates(env, t, t, g.updates, after).value;
    FoldUpdatesValid(env, t, t, g.updates, after);
    FoldRemovesValid(t, u, g.removes);
    AddsMeet(env, FoldRemoves(t, u, g.removes).value, g.adds, after, sent);
    var i :| 0 <= i < |m.added| && m.added[i].leaf == l;
    var kp := g.adds[i];
    assert kp in g.adds;
    SupportsIff(after.extensions, kp.leaf.capabilities);
  }

  lemma {:induction false} MemberKind(
      env: Env, st: ClientState, props: seq<ProposalOrRef>, s: nat, sent: bool, newLeaf: Option<LeafNode>,
      applied: Applied)
    requires Valid(st.tree)
    requires ApplyProposals(env, st, props, Some(s), sent, newLeaf, MemberType) == Ok(applied)
    ensures applied.kind.ReinitCommit? ==> applied.tree == st.tree
    ensures applied.kind.MemberCommit? ==>
      var g := Group(applied.all);
      && ProposalsOk(env, g, Some(s), st.context, st.tree) && applied.kind.context == ContextAfter(st.context, g)
      && ApplyMutations(env, st.tree, g, ContextAfter(st.context, g), sent)
         == Ok(Mutated(applied.tree, applied.kind.added))
  {
    hide Resolve, FoldUpdates, FoldRemoves, FoldAdds, PskSecret, ProposalsOk, Group, ContextAfter, ApplyMutations;
  }

  lemma {:induction false} LeafChange(st: ClientState, s: nat, applied: Applied, l: nat)
    requires CommitApplied(st.tree, s, applied) && HasLeaf(applied.tree, l)
    ensures var g, m := Group(applied.all), Mutated(applied.tree, AddedOf(applied.kind));
      && AddedInOrder(m, g.adds)
      && (Joined(m, l) ||
          (HasLeaf(st.tree, l) && l !in g.removes && UpdatedBy(st.tree, applied.tree, g.updates, l)))
  {
    hide Group, Joined, AddedInOrder, UpdateFor;
  }

  lemma {:induction false} ReinitFits(st: ClientState, s: nat, applied: Applied, l: nat)
    requires CommitApplied(st.tree, s, applied) && applied.kind.ReinitCommit? && applied.tree == st.tree
    requires HasLeaf(st.tree, l)
    ensures LeafFits(st.tree, applied.all, st.context.extensions, applied.tree, st.context.extensions, l)
  {
    hide Group, Meets, Supports, LooseUpdate, Joined, AddedInOrder, UpdateFor;
  }

  /** Every leaf of the tree a member's proposals leave. */
  lemma {:induction false} ProposalsFit(
      env: Env, st: ClientState, props: seq<ProposalOrRef>, s: nat, sent: bool, newLeaf: Option<LeafNode>,
      applied: Applied, l: nat)
    requires Valid(st.tree) && SendersKnown(st) && HasLeaf(st.tree, s) && HasLeaf(applied.tree, l)
    requires ApplyProposals(env, st, props, Some(s), sent, newLeaf, MemberType) == Ok(applied)
    ensures !applied.kind.ExternalCommit? && LeafFits(
        st.tree, applied.all, st.context.extensions, applied.tree, CheckedContext(st, applied.kind).extensions, l)
  {
    MemberCommitApplied(env, st, props, s, sent, newLeaf, applied);
    assert !applied.kind.ExternalCommit?;
    LeafChange(st, s, applied, l);
    MemberKind(env, st, props, s, sent, newLeaf, applied);
    hide ApplyProposals, Group, LeafFits, ContextAfter, SendersKnown, Joined, AddedInOrder, CommitApplied, UpdatedBy,
      ApplyMutations, ProposalsOk;
    var all := applied.all;
    if applied.kind.MemberCommit? {
      var g, m := Group(all), Mutated(applied.tree, applied.kind.added);
      if Joined(m, l) {
        JoinedFits(env, st.tree, all, Some(s), st.context, m, sent, l);
        FitsIfBoth(st.tree, all, st.context.extensions, applied.tree, ContextAfter(st.context, g).extensions, l);
      } else {
        StayingFits(env, st.tree, all, Some(s), st.context, m, sent, l);
      }
    } else {
      ReinitFits(st, s, applied, l);
    }
  }

  lemma {:induction false} FitsIfBoth(
      t: Tree, all: seq<ProposalWithSender>, was: seq<Extension>, u: Tree, exts: seq<Extension>, l: nat)
    requires HasLeaf(u, l) && Meets(exts, LeafAt(u, l).value.capabilities)
    requires Supports(exts, LeafAt(u, l).value.capabilities)
    ensures LeafFits(t, all, was, u, exts, l)
  {
    hide Meets, Supports;
  }

  // ---- and the path over it ----

  /** A path changes one leaf. */
  lemma {:induction false} OneLeafChanges(t: Tree, u: Tree, s: nat, l: nat)
    requires Valid(t) && HasLeaf(t, s) && PathReplaced(t, u, s) && l != s
    ensures LeafAt(u, l) == LeafAt(t, l)
  {
    hide FilteredFrom;
    LeafOffPath(t, s, l);
    assert At(u, 2 * l) == At(t, 2 * l);
  }

  lemma {:induction false} PathLeafMeets(env: Env, b: ClientState, content: CommitContent, applied: Applied)
    requires PathError(env, b, content, applied).None? && content.commit.path.Some?
    ensures Meets(CheckedContext(b, applied.kind).extensions, content.commit.path.value.leaf.capabilities)
  {
    hide Meets, MeetsRequired, SupportedByEvery, SupportsOthers, KeysUnlikeOthers, KeyUnlikeParents,
      ExtensionsSupported;
    MeetsIff(CheckedContext(b, applied.kind).extensions, content.commit.path.value.leaf.capabilities);
  }

  lemma {:induction false} UpdateOfStays(t: Tree, s: nat, applied: Applied, p: ProposalWithSender)
    requires CommitApplied(t, s, applied) && SendersPresent(t, Group(applied.all).updates)
    requires CommitterUntouched(Group(applied.all), Some(s))
    requires p in applied.all && p.proposal.Update? && p.leaf.Some?
    ensures p.leaf.value != s && LeafAt(applied.tree, p.leaf.value) == Some(p.proposal.leaf)
  {
    hide Group, Joined, AddedInOrder, Picked;
    var g, l, u := Group(applied.all), p.leaf.value, UpdateBy(p.leaf, p.proposal.leaf);
    GroupPicks(applied.all);
    assert UpdateOf(p) == Some(u);
    PickedIff(applied.all, UpdateOf, u);
    assert UpdateFor(g.updates, l).Some?;
    OneUpdate(applied.all, g.updates, p, l, UpdateFor(g.updates, l).value);
    assert HasLeaf(t, l) && l !in g.removes;
  }

  /** An Update committed stands in the tree the proposals leave, and is not the committer's. */
  lemma {:induction false} UpdateStands(
      env: Env, st: ClientState, props: seq<ProposalOrRef>, s: nat, sent: bool, newLeaf: Option<LeafNode>,
      applied: Applied, p: ProposalWithSender)
    requires Valid(st.tree) && SendersKnown(st) && HasLeaf(st.tree, s)
    requires ApplyProposals(env, st, props, Some(s), sent, newLeaf, MemberType) == Ok(applied)
    requires p in applied.all && p.proposal.Update?
    ensures p.leaf.Some? && p.leaf.value != s && LeafAt(applied.tree, p.leaf.value) == Some(p.proposal.leaf)
  {
    MemberCommitApplied(env, st, props, s, sent, newLeaf, applied);
    MemberKind(env, st, props, s, sent, newLeaf, applied);
    SendersArePresent(st, props, s, MemberType);
    AppliedYields(env, st, props, Some(s), sent, newLeaf, MemberType);
    KindOfUpdates(env, st, applied, p);
    hide ApplyProposals, Group, ContextAfter, SendersKnown, CommitApplied, FoldAdds, FoldRemoves, FoldUpdates,
      CommitterUntouched, OneChangePerLeaf, NewClients, PsksOk, ExtensionsAccepted, Picked, Yields, SendersPresent;
    UpdatesMeet(env, st.tree, st.tree, Group(applied.all).updates, ContextAfter(st.context, Group(applied.all)));
    IsUpdate(applied.all, p);
    UpdateOfStays(st.tree, s, applied, p);
  }

  lemma {:induction false} IsUpdate(all: seq<ProposalWithSender>, p: ProposalWithSender)
    requires p in all && p.proposal.Update?
    ensures UpdateBy(p.leaf, p.proposal.leaf) in Group(all).updates
  {
    hide Picked;
    GroupPicks(all);
    assert UpdateOf(p) == Some(UpdateBy(p.leaf, p.proposal.leaf));
    PickedIff(all, UpdateOf, UpdateBy(p.leaf, p.proposal.leaf));
  }

  lemma {:induction false} KindOfUpdates(env: Env, st: ClientState, applied: Applied, p: ProposalWithSender)
    requires Yields(env, st, applied.all, MemberType, applied) && p in applied.all && p.proposal.Update?
    ensures applied.kind.MemberCommit?
  {
    hide PskJoined, PathDue, ExtensionsBecome, Picked;
  }

  /** What the commit brings in past the check on extensions supports them: the
      path's leaf, and the Updates unless the commit changes the extensions itself. */
  ghost predicate NewSupport(all: seq<ProposalWithSender>, pathLeaf: Option<LeafNode>, exts: seq<Extension>) {
    && (pathLeaf.Some? ==> Supports(exts, pathLeaf.value.capabilities))
    && ((forall p | p in all :: !p.proposal.GroupContextExtensions?) ==>
          forall p | p in all && p.proposal.Update? :: Supports(exts, p.proposal.leaf.capabilities))
  }

  /** `v` is the tree the proposals leave, with the path's leaf at `s` if there is one. */
  ghost predicate WithPathLeaf(t: Tree, s: nat, pathLeaf: Option<LeafNode>, v: Tree) {
    && (pathLeaf.Some? ==> HasLeaf(t, s))
    && forall l: nat :: LeafAt(v, l) == if l == s && pathLeaf.Some? then pathLeaf else LeafAt(t, l)
  }

  lemma {:induction false} NextFits(
      env: Env, st: ClientState, props: seq<ProposalOrRef>, s: nat, sent: bool, newLeaf: Option<LeafNode>,
      applied: Applied, v: Tree, pathLeaf: Option<LeafNode>)
    requires Valid(st.tree) && SendersKnown(st) && HasLeaf(st.tree, s)
    requires ApplyProposals(env, st, props, Some(s), sent, newLeaf, MemberType) == Ok(applied)
    requires WithPathLeaf(applied.tree, s, pathLeaf, v)
    requires pathLeaf.Some? && AllMeet(st.tree, st.context.extensions) ==>
      Meets(CheckedContext(st, applied.kind).extensions, pathLeaf.value.capabilities)
    ensures var was, exts := st.context.extensions, CheckedContext(st, applied.kind).extensions;
      && (AllMeet(st.tree, was) ==> AllMeet(v, exts))
      && (AllSupport(st.tree, was) ==> (AllSupport(v, exts) <==> NewSupport(applied.all, pathLeaf, exts)))
  {
    hide ApplyProposals, Meets, Supports, CheckedContext, SendersKnown, Valid;
    var was, exts, t, all :=
      st.context.extensions, CheckedContext(st, applied.kind).extensions, applied.tree, applied.all;
    forall l: nat | HasLeaf(t, l) ensures LeafFits(st.tree, all, was, t, exts, l) {
      ProposalsFit(env, st, props, s, sent, newLeaf, applied, l);
    }
    forall p | p in all && p.proposal.Update?
      ensures p.leaf.Some? && p.leaf.value != s && LeafAt(v, p.leaf.value) == Some(p.proposal.leaf)
    {
      UpdateStands(env, st, props, s, sent, newLeaf, applied, p);
    }
    if AllSupport(st.tree, was) && NewSupport(all, pathLeaf, exts) {
      forall l: nat | HasLeaf(v, l) ensures Supports(exts, LeafAt(v, l).value.capabilities) {
        if LooseUpdate(all, l) {
          var p :| p in all && p.proposal.Update? && p.leaf == Some(l);
        } else if l != s || pathLeaf.None? {
          assert LeafAt(v, l) == LeafAt(t, l);
        }
      }
    }
    if AllSupport(v, exts) {
      if pathLeaf.Some? { assert HasLeaf(v, s); }
      forall p | p in all && p.proposal.Update? ensures Supports(exts, p.proposal.leaf.capabilities) {
        assert HasLeaf(v, p.leaf.value);
      }
    }
  }

  // ---- the committer, and those who receive ----

  lemma {:induction false} CreatedLeaves(
      t: Tree, s: nat, gc: GroupContext, signKey: Secret, seed: Secret, exclude: seq<nat>, patch: LeafPatch)
    requires Valid(t) && CreateUpdatePath(t, s, gc, signKey, seed, exclude, patch).Ok?
    ensures var c := CreateUpdatePath(t, s, gc, signKey, seed, exclude, patch).value;
      && WithPathLeaf(t, s, Some(c.path.leaf), c.tree)
      && (patch == NoPatch ==> c.path.leaf.capabilities == LeafAt(t, s).value.capabilities)
  {
    hide CreateUpdatePath, PathReplaced, SealPath, SecretsAbove;
    CreatedWhere(t, s, gc, signKey, seed, exclude, patch);
    CreatedTree(t, s, gc, signKey, seed, exclude, patch);
    var u := CreateUpdatePath(t, s, gc, signKey, seed, exclude, patch).value.tree;
    forall l: nat | l != s ensures LeafAt(u, l) == LeafAt(t, l) { OneLeafChanges(t, u, s, l); }
  }

  /** The path the draft made, if it made one. */
  lemma {:induction false} DraftLeaves(
      env: Env, st: ClientState, o: CommitOptions, seed: Secret, applied: Applied, c: Created)
    requires Valid(applied.tree) && DraftPath(env, st, o, applied, seed) == Ok(Some(c))
    ensures WithPathLeaf(applied.tree, st.privatePath.leaf, Some(c.path.leaf), c.tree)
    ensures o.patch.None? ==> c.path.leaf.capabilities == LeafAt(applied.tree, st.privatePath.leaf).value.capabilities
  {
    hide UpdateOrCommitOk, CreateUpdatePath, WithPathLeaf;
    var patch := OrElse(o.patch, NoPatch);
    CreatedLeaves(
      applied.tree, st.privatePath.leaf, CheckedContext(st, applied.kind), st.signKey, seed,
      ExcludedNodes(applied.kind), patch);
    assert HasLeaf(applied.tree, st.privatePath.leaf) by {
      HasIt(applied.tree, st.privatePath.leaf, Some(c.path.leaf), c.tree);
    }
  }

  lemma {:induction false} HasIt(t: Tree, s: nat, pathLeaf: Option<LeafNode>, v: Tree)
    requires WithPathLeaf(t, s, pathLeaf, v) && pathLeaf.Some?
    ensures HasLeaf(t, s)
  {
  }

  lemma {:induction false} MemberSenders(st: ClientState)
    requires MemberOk(st)
    ensures SendersKnown(st)
  {
  }

  lemma {:induction false} CommitterLeaves(env: Env, st: ClientState, o: CommitOptions, seed: Secret, d: Draft)
    requires MemberOk(st) && Drafted(env, st, o, seed, d)
    ensures var s, path := st.privatePath.leaf, if d.created.Some? then Some(d.created.value.path.leaf) else None;
      && WithPathLeaf(d.applied.tree, s, path, DraftTree(d))
      && (path.Some? && AllMeet(st.tree, st.context.extensions) ==>
            Meets(CheckedContext(st, d.applied.kind).extensions, path.value.capabilities))
  {
    MemberHasLeaf(st);
    MemberSenders(st);
    DraftFacts(env, st, o, seed, d);
    hide CreateCommit, DraftCommit, ApplyProposals, MemberOk, DraftPath, CommitterState, EpochOf, Meets, CheckedContext,
      SendersKnown, Drafted, AllMeet, AllSupport, LooseUpdate;
    var s, t := st.privatePath.leaf, d.applied.tree;
    if d.created.Some? {
      DraftLeaves(env, st, o, seed, d.applied, d.created.value);
      HasIt(t, s, Some(d.created.value.path.leaf), d.created.value.tree);
      if o.patch.Some? {
        PatchedMeets(env, st, o, d.applied, seed, d.created.value);
      } else {
        ProposalsFit(env, st, d.props, s, true, None, d.applied, s);
      }
    }
  }

  lemma {:induction false} PatchedMeets(
      env: Env, st: ClientState, o: CommitOptions, applied: Applied, seed: Secret, c: Created)
    requires Valid(applied.tree) && DraftPath(env, st, o, applied, seed) == Ok(Some(c)) && o.patch.Some?
    ensures Meets(CheckedContext(st, applied.kind).extensions, c.path.leaf.capabilities)
  {
    hide Meets, MeetsRequired, SupportedByEvery, SupportsOthers, KeysUnlikeOthers, KeyUnlikeParents,
      ExtensionsSupported, CreateUpdatePath;
    MeetsIff(CheckedContext(st, applied.kind).extensions, c.path.leaf.capabilities);
  }

  lemma {:induction false} CreatedTree(
      t: Tree, s: nat, gc: GroupContext, signKey: Secret, seed: Secret, exclude: seq<nat>, patch: LeafPatch)
    requires Valid(t) && CreateUpdatePath(t, s, gc, signKey, seed, exclude, patch).Ok?
    ensures PathReplaced(t, CreateUpdatePath(t, s, gc, signKey, seed, exclude, patch).value.tree, s)
  {
    hide FilteredFrom, SecretsAbove, SealPath, NewTree, NewSenderLeaf;
    NewTreeWritten(t, s, gc, signKey, seed, patch);
  }

  /** A commit keeps what its extensions require of all; it keeps their support by all
      exactly when what it brings in unchecked supports them. */
  ghost predicate KeepsFit(st: ClientState, all: seq<ProposalWithSender>, pathLeaf: Option<LeafNode>, n: ClientState) {
    var was, exts := st.context.extensions, n.context.extensions;
    && (AllMeet(st.tree, was) ==> AllMeet(n.tree, exts))
    && (AllSupport(st.tree, was) ==> (AllSupport(n.tree, exts) <==> NewSupport(all, pathLeaf, exts)))
  }

  lemma {:induction false} CommitterExtensions(st: ClientState, o: CommitOptions, d: Draft)
    requires Valid(DraftTree(d))
    ensures CommitterState(st, o, d).context.extensions == d.context.extensions
    ensures CommitterState(st, o, d).tree == DraftTree(d)
  {
    hide InitializeEpoch, AddHistory, CommitterPath, NewSecretTree, DraftContent, CommitSecret, ConfirmationTag,
      RootHash, DraftTree;
  }

  lemma {:induction false} CommitterFits(env: Env, st: ClientState, o: CommitOptions, seed: Secret)
    requires MemberOk(st) && CreateCommit(env, st, o, seed).Ok?
    ensures var r := CreateCommit(env, st, o, seed).value;
      var resolved :=
        Resolve(r.message.content.commit.proposals, st.pending, Some(st.privatePath.leaf), MemberType);
      resolved.Ok? && KeepsFit(st, resolved.value, PathLeaf(r.message.content.commit), r.state)
  {
    MemberHasLeaf(st);
    MemberSenders(st);
    var s := st.privatePath.leaf;
    var d := DraftOf(env, st, o, seed);
    DraftFacts(env, st, o, seed, d);
    DraftSent(env, st, o, seed, d);
    CommitterLeaves(env, st, o, seed, d);
    CommitterExtensions(st, o, d);
    hide CreateCommit, DraftCommit, ApplyProposals, MemberOk, DraftPath, CommitterState, EpochOf, CheckedContext,
      SendersKnown, Drafted, AllMeet, AllSupport, NewSupport, WithPathLeaf, Resolve, Yields;
    var path := if d.created.Some? then Some(d.created.value.path.leaf) else None;
    NextFits(env, st, d.props, s, true, None, d.applied, DraftTree(d), path);
    AppliedYields(env, st, d.props, Some(s), true, None, MemberType);
  }

  lemma {:induction false} AdvancedIs(st: ClientState, m: CommitMessage, applied: Applied)
    requires Valid(applied.tree) && AdvanceEpoch(st, m, applied).Ok?
    ensures AdvanceEpoch(st, m, applied).value.context.extensions == CheckedContext(st, applied.kind).extensions
  {
    hide ApplyTreeUpdate, InitializeEpoch, AddHistory, NewSecretTree, ConfirmationTag, PruneBlanked, MergePaths,
      AppliedUpdateKey, OwnPath, ReceiverExcluded, CheckedContext;
  }

  lemma {:induction false} AcceptedLeaves(t: Tree, s: nat, path: UpdatePath, external: bool)
    requires Valid(t) && HasLeaf(t, s) && ApplyUpdatePath(t, s, path, external).Ok?
    ensures WithPathLeaf(t, s, Some(path.leaf), ApplyUpdatePath(t, s, path, external).value)
  {
    hide ApplyUpdatePath, PathReplaced, Hashed, FilteredFrom;
    AcceptedPath(t, s, path, external);
    var u := ApplyUpdatePath(t, s, path, external).value;
    forall l: nat | l != s ensures LeafAt(u, l) == LeafAt(t, l) { OneLeafChanges(t, u, s, l); }
  }

  lemma {:induction false} NoPathLeaf(t: Tree, s: nat)
    ensures WithPathLeaf(t, s, None, t)
  {
  }

  lemma {:induction false} MemberReceiverLeaves(
      env: Env, b: ClientState, m: CommitMessage, s: nat, applied: Applied)
    requires MemberOk(b) && HasLeaf(b.tree, s) && s != b.privatePath.leaf && Stays(applied, b.privatePath.leaf)
    requires m.content.sender == Member(s) && ApplyProposals(
      env, b, m.content.commit.proposals, Some(s), false, PathLeaf(m.content.commit), MemberType) == Ok(applied)
    requires Valid(applied.tree) && AdvanceEpoch(b, m, applied).Ok?
    ensures WithPathLeaf(
      applied.tree, s, PathLeaf(m.content.commit), AdvanceEpoch(b, m, applied).value.tree)
  {
    hide ApplyProposals, AdvanceEpoch, MemberOk, ApplyUpdatePath, WithPathLeaf, Stays;
    MemberAdvances(env, b, m, s, applied);
    if m.content.commit.path.Some? {
      AcceptedLeaves(applied.tree, s, m.content.commit.path.value, false);
    } else {
      NoPathLeaf(applied.tree, s);
    }
  }

  /** `v` is `t` with one new leaf, in place of another or beside them. */
  ghost predicate OneNewLeaf(t: Tree, leaf: LeafNode, v: Tree) {
    exists x: nat :: IsNewLeaf(t, leaf, v, x)
  }

  ghost predicate IsNewLeaf(t: Tree, leaf: LeafNode, v: Tree, x: nat) {
    && LeafAt(v, x) == Some(leaf)
    && forall l: nat | l != x && HasLeaf(v, l) :: LeafAt(v, l) == LeafAt(t, l)
  }

  lemma {:induction false} NewcomerLeaf(t: Tree, removes: seq<nat>, base: Tree, path: UpdatePath, v: Tree)
    requires Valid(t) && Valid(base) && AfterResync(t, removes) == Ok(base)
    requires var (r, x) := AddLeaf(base, path.leaf);
      Valid(r) && x % 2 == 0 && HasLeaf(r, x / 2) && ApplyUpdatePath(r, x / 2, path, true) == Ok(v)
    ensures OneNewLeaf(t, path.leaf, v)
  {
    hide ApplyUpdatePath, AddLeaf, RemoveLeaf, OnPath;
    var (r, y) := AddLeaf(base, path.leaf);
    AddLeafAt(base, path.leaf);
    AcceptedLeaves(r, y / 2, path, true);
    forall l: nat | l != y / 2 && HasLeaf(v, l) ensures LeafAt(v, l) == LeafAt(t, l) {
      assert LeafAt(v, l) == LeafAt(r, l);
      assert At(r, 2 * l) == AddedAt(base, path.leaf, y, 2 * l);
      if removes != [] {
        RemoveLeafAt(t, removes[0]);
        assert At(base, 2 * l) == BlankedAt(t, removes[0], None, 2 * l);
      }
    }
    assert IsNewLeaf(t, path.leaf, v, y / 2);
  }

  lemma {:induction false} ExternalLeaves(env: Env, b: ClientState, m: CommitMessage, applied: Applied)
    requires MemberOk(b) && ListsBelow(b.tree) && m.content.sender == NewMemberCommit && m.content.commit.path.Some?
    requires ApplyProposals(
      env, b, m.content.commit.proposals, None, false, PathLeaf(m.content.commit), NewMemberCommitType) == Ok(applied)
    requires Valid(applied.tree) && AdvanceEpoch(b, m, applied).Ok?
    ensures OneNewLeaf(b.tree, m.content.commit.path.value.leaf, AdvanceEpoch(b, m, applied).value.tree)
  {
    MemberHasLeaf(b);
    hide ApplyProposals, AdvanceEpoch, MemberOk, ApplyUpdatePath, AddLeaf, RemoveLeaf, OneNewLeaf, ListsBelow;
    ExternalAdvances(env, b, m, applied);
    ExternalApplied(env, b, m.content.commit.proposals, PathLeaf(m.content.commit), applied);
    NewLeafIs(applied.tree, m.content.commit.path.value.leaf);
    NewcomerLeaf(
      b.tree, Group(applied.all).removes, applied.tree, m.content.commit.path.value,
      AdvanceEpoch(b, m, applied).value.tree);
  }

  lemma {:induction false} MemberCommitFits(env: Env, b: ClientState, m: CommitMessage, s: nat, applied: Applied)
    requires MemberOk(b) && HasLeaf(b.tree, s) && s != b.privatePath.leaf && Stays(applied, b.privatePath.leaf)
    requires m.content.sender == Member(s) && ApplyProposals(
      env, b, m.content.commit.proposals, Some(s), false, PathLeaf(m.content.commit), MemberType) == Ok(applied)
    requires Valid(applied.tree) && AdvanceEpoch(b, m, applied).Ok? && PathError(env, b, m.content, applied).None?
    ensures KeepsFit(b, applied.all, PathLeaf(m.content.commit), AdvanceEpoch(b, m, applied).value)
  {
    MemberHasLeaf(b);
    MemberSenders(b);
    hide ApplyProposals, AdvanceEpoch, MemberOk, PathError, WithPathLeaf, Stays, SendersKnown, AllMeet, AllSupport,
      NewSupport, CheckedContext;
    MemberReceiverLeaves(env, b, m, s, applied);
    AdvancedIs(b, m, applied);
    if m.content.commit.path.Some? { PathLeafMeets(env, b, m.content, applied); }
    NextFits(
      env, b, m.content.commit.proposals, s, false, PathLeaf(m.content.commit), applied,
      AdvanceEpoch(b, m, applied).value.tree, PathLeaf(m.content.commit));
  }

  lemma {:induction false} OnlyNewcomer(
      env: Env, b: ClientState, props: seq<ProposalOrRef>, newLeaf: Option<LeafNode>, applied: Applied)
    requires Valid(b.tree) && ApplyProposals(env, b, props, None, false, newLeaf, NewMemberCommitType) == Ok(applied)
    ensures CheckedContext(b, applied.kind) == b.context
    ensures forall p | p in applied.all :: !p.proposal.Update? && !p.proposal.GroupContextExtensions?
  {
    hide Group, AfterResync, ResyncPrior, PskSecret, ApplyMemberProposals, Resolve;
    var all := Resolve(props, b.pending, None, NewMemberCommitType).value;
    assert Group(all).externalInits != [];
    assert Group(all).updates == [] && Group(all).gces == [];
    NoneSuch(all);
  }

  lemma {:induction false} NoneSuch(all: seq<ProposalWithSender>)
    requires Group(all).updates == [] && Group(all).gces == []
    ensures forall p | p in all :: !p.proposal.Update? && !p.proposal.GroupContextExtensions?
  {
    hide Picked;
    GroupPicks(all);
    PickedNone(all, UpdateOf);
    PickedNone(all, ContextExtensionsOf);
  }

  lemma {:induction false} NewLeafFits(
      b: ClientState, all: seq<ProposalWithSender>, leaf: LeafNode, n: ClientState)
    requires OneNewLeaf(b.tree, leaf, n.tree) && n.context.extensions == b.context.extensions
    requires Meets(b.context.extensions, leaf.capabilities)
    requires forall p | p in all :: !p.proposal.Update? && !p.proposal.GroupContextExtensions?
    ensures KeepsFit(b, all, Some(leaf), n)
  {
    hide Meets, Supports;
    var x: nat :| IsNewLeaf(b.tree, leaf, n.tree, x);
    forall l: nat | l != x && HasLeaf(n.tree, l) ensures HasLeaf(b.tree, l) && LeafAt(n.tree, l) == LeafAt(b.tree, l) {
      assert LeafAt(n.tree, l) == LeafAt(b.tree, l);
    }
    if AllSupport(n.tree, n.context.extensions) { assert HasLeaf(n.tree, x); }
  }

  lemma {:induction false} ExternalCommitFits(env: Env, b: ClientState, m: CommitMessage, applied: Applied)
    requires MemberOk(b) && ListsBelow(b.tree) && m.content.sender == NewMemberCommit && m.content.commit.path.Some?
    requires ApplyProposals(
      env, b, m.content.commit.proposals, None, false, PathLeaf(m.content.commit), NewMemberCommitType) == Ok(applied)
    requires Valid(applied.tree) && AdvanceEpoch(b, m, applied).Ok? && PathError(env, b, m.content, applied).None?
    ensures KeepsFit(b, applied.all, PathLeaf(m.content.commit), AdvanceEpoch(b, m, applied).value)
  {
    MemberHasLeaf(b);
    hide ApplyProposals, AdvanceEpoch, MemberOk, PathError, OneNewLeaf, ListsBelow, KeepsFit, CheckedContext;
    ExternalLeaves(env, b, m, applied);
    OnlyNewcomer(env, b, m.content.commit.proposals, PathLeaf(m.content.commit), applied);
    AdvancedIs(b, m, applied);
    PathLeafMeets(env, b, m.content, applied);
    NewLeafFits(b, applied.all, m.content.commit.path.value.leaf, AdvanceEpoch(b, m, applied).value);
  }

  /** Any commit a member accepts, whoever made it: whoever is in the group after it
      meets what the extensions it sets require. That all list those extensions
      stays so exactly when the path's leaf does, and the Updates' leaves do where
      the commit sets no extensions itself: these are not checked against them. */
  lemma {:induction false} AcceptedFits(env: Env, b: ClientState, m: CommitMessage)
    requires MemberOk(b) && ListsBelow(b.tree) && SentByOther(b, m.content) && ProcessCommit(env, b, m, true).Ok?
    requires ProcessCommit(env, b, m, true).value != RemovedState(b)
    ensures var resolved := Resolve(
        m.content.commit.proposals, b.pending, SenderLeaf(m.content.sender), SenderTypeOf(m.content.sender));
      resolved.Ok?
      && KeepsFit(b, resolved.value, PathLeaf(m.content.commit), ProcessCommit(env, b, m, true).value)
  {
    hide ProcessCommit, ApplyProposals, AdvanceEpoch, PathError, MemberOk, ListsBelow, Stays, KeepsFit, Resolve, Yields,
      RemovedState;
    assert Valid(b.tree) by { MemberHasLeaf(b); }
    var applied := AcceptedIs(env, b, m);
    AppliedYields(
      env, b, m.content.commit.proposals, SenderLeaf(m.content.sender), false, PathLeaf(m.content.commit),
      SenderTypeOf(m.content.sender));
    if m.content.sender.Member? {
      var s := m.content.sender.leaf;
      if Stays(applied, b.privatePath.leaf) {
        MemberCommitFits(env, b, m, s, applied);
      } else {
        RemovedCannotAdvance(env, b, m, s, applied);
      }
    } else {
      ExternalCommitFits(env, b, m, applied);
    }
  }
}

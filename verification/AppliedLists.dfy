/** Exactly which lists of proposals applyProposals in src/client-state.ts takes,
    and the tree it makes of them, step by step. */
module AppliedLists {
  import opened Options
  import opened Terms
  import opened TreeMath
  import opened RatchetTree
  import opened UpdatePaths
  import opened LeafValidation
  import opened ClientStates
  import opened Proposals
  import opened ProposalRules
  import opened FilterChoices
  import opened Agreement
  import opened EpochContents

  // ---- the steps on the tree ----

  /** An Update may take effect: its leaf is fit to stand where the old one stands now,
      and its key is not the one that leaf had before the commit. */
  ghost predicate UpdateFits(env: Env, orig: Tree, t: Tree, u: UpdateBy, gc: GroupContext) {
    && u.sender.Some? && 2 * u.sender.value < |t| && u.leaf.source.FromUpdate?
    && (HasLeaf(orig, u.sender.value) ==> LeafAt(orig, u.sender.value).value.hpkeKey != u.leaf.hpkeKey)
    && ReplacementSound(env, u.leaf, u.sender.value, gc, t) && Meets(gc.extensions, u.leaf.capabilities)
  }

  /** Each Update on the tree the ones before it left. */
  ghost predicate UpdateSteps(env: Env, orig: Tree, us: seq<UpdateBy>, gc: GroupContext, ts: seq<Tree>) {
    |ts| == |us| + 1 && forall i | 0 <= i < |us| :: UpdateStep(env, orig, ts[i], us[i], gc, ts[i + 1])
  }

  ghost predicate UpdateStep(env: Env, orig: Tree, t: Tree, u: UpdateBy, gc: GroupContext, n: Tree) {
    Valid(t) && UpdateFits(env, orig, t, u, gc) && n == UpdateLeaf(t, u.leaf, u.sender.value)
  }

  /** Each Remove, of a leaf there before the commit. */
  ghost predicate RemoveSteps(orig: Tree, rs: seq<nat>, ts: seq<Tree>) {
    && |ts| == |rs| + 1
    && forall i | 0 <= i < |rs| ::
         Valid(ts[i]) && At(orig, 2 * rs[i]).Some? && 2 * rs[i] < |ts[i]| && RemoveLeaf(ts[i], rs[i]) == Ok(ts[i + 1])
  }

  /** Each Add, of a client that can stand beside those there. */
  ghost predicate AddSteps(env: Env, kps: seq<KeyPackage>, gc: GroupContext, sent: bool, ts: seq<Tree>) {
    && |ts| == |kps| + 1
    && forall i | 0 <= i < |kps| ::
         && Valid(ts[i]) && PackageSound(env, kps[i], gc, sent) && Meets(gc.extensions, kps[i].leaf.capabilities)
         && Alongside(kps[i].leaf, ts[i], None) && ts[i + 1] == AddLeaf(ts[i], kps[i].leaf).0
  }

  lemma {:induction false} UpdateFitsIff(env: Env, orig: Tree, t: Tree, u: UpdateBy, gc: GroupContext)
    requires Valid(t)
    ensures UpdateFits(env, orig, t, u, gc) <==>
      && u.sender.Some?
      && !(LeafAt(orig, u.sender.value).Some? && LeafAt(orig, u.sender.value).value.hpkeKey == u.leaf.hpkeKey)
      && u.leaf.source.FromUpdate?
      && UpdateOrCommitOk(env, u.leaf, u.sender.value, gc, t, LeafCredential(t, u.sender.value))
      && 2 * u.sender.value < |t|
  {
    hide ReplacementSound, Meets, UpdateOrCommitOk;
    if u.sender.Some? { ReplacementIff(env, u.leaf, u.sender.value, gc, t); }
  }

  lemma {:induction false} UpdatesDone(
      env: Env, orig: Tree, t: Tree, us: seq<UpdateBy>, gc: GroupContext) returns (ts: seq<Tree>)
    requires Valid(t) && FoldUpdates(env, orig, t, us, gc).Ok?
    ensures UpdateSteps(env, orig, us, gc, ts) && ts[0] == t && ts[|us|] == FoldUpdates(env, orig, t, us, gc).value
    decreases |us|
  {
    hide UpdateOrCommitOk, UpdateLeaf, UpdateFits;
    ts := [t];
    if us != [] {
      UpdateFitsIff(env, orig, t, us[0], gc);
      UpdateLeafAt(t, us[0].leaf, us[0].sender.value);
      var rest := UpdatesDone(env, orig, UpdateLeaf(t, us[0].leaf, us[0].sender.value), us[1..], gc);
      ts := [t] + rest;
    }
  }

  lemma {:induction false} UpdatesFrom(env: Env, orig: Tree, us: seq<UpdateBy>, gc: GroupContext, ts: seq<Tree>)
    requires UpdateSteps(env, orig, us, gc, ts) && Valid(ts[0])
    ensures FoldUpdates(env, orig, ts[0], us, gc) == Ok(ts[|us|])
    decreases |us|
  {
    hide UpdateOrCommitOk, UpdateLeaf, UpdateFits;
    if us != [] {
      assert UpdateStep(env, orig, ts[0], us[0], gc, ts[1]);
      UpdateFitsIff(env, orig, ts[0], us[0], gc);
      UpdateLeafAt(ts[0], us[0].leaf, us[0].sender.value);
      forall i | 0 <= i < |us[1..]|
        ensures UpdateStep(env, orig, ts[1..][i], us[1..][i], gc, ts[1..][i + 1])
      {
        assert ts[1..][i] == ts[i + 1] && us[1..][i] == us[i + 1];
      }
      UpdatesFrom(env, orig, us[1..], gc, ts[1..]);
    }
  }

  lemma {:induction false} RemovesDone(orig: Tree, t: Tree, rs: seq<nat>) returns (ts: seq<Tree>)
    requires Valid(t) && FoldRemoves(orig, t, rs).Ok?
    ensures RemoveSteps(orig, rs, ts) && ts[0] == t && ts[|rs|] == FoldRemoves(orig, t, rs).value
    decreases |rs|
  {
    hide RemoveLeaf;
    ts := [t];
    if rs != [] {
      RemoveLeafAt(t, rs[0]);
      var rest := RemovesDone(orig, RemoveLeaf(t, rs[0]).value, rs[1..]);
      ts := [t] + rest;
    }
  }

  lemma {:induction false} RemovesFrom(orig: Tree, rs: seq<nat>, ts: seq<Tree>)
    requires RemoveSteps(orig, rs, ts) && Valid(ts[0])
    ensures FoldRemoves(orig, ts[0], rs) == Ok(ts[|rs|])
    decreases |rs|
  {
    hide RemoveLeaf;
    if rs != [] {
      RemoveLeafAt(ts[0], rs[0]);
      forall i | 0 <= i < |rs[1..]| ensures RemoveLeaf(ts[1..][i], rs[1..][i]) == Ok(ts[1..][i + 1]) {
        assert ts[1..][i] == ts[i + 1] && rs[1..][i] == rs[i + 1];
      }
      RemovesFrom(orig, rs[1..], ts[1..]);
    }
  }

  lemma {:induction false} AddsDone(
      env: Env, t: Tree, kps: seq<KeyPackage>, gc: GroupContext, sent: bool) returns (ts: seq<Tree>)
    requires Valid(t) && FoldAdds(env, t, kps, gc, sent).Ok?
    ensures AddSteps(env, kps, gc, sent, ts) && ts[0] == t
    ensures ts[|kps|] == FoldAdds(env, t, kps, gc, sent).value.tree
    decreases |kps|
  {
    hide KeyPackageOk, AddLeaf, PackageSound, Meets, Alongside;
    ts := [t];
    if kps != [] {
      PackageIff(env, kps[0], gc, t, sent);
      AddLeafAt(t, kps[0].leaf);
      var rest := AddsDone(env, AddLeaf(t, kps[0].leaf).0, kps[1..], gc, sent);
      ts := [t] + rest;
    }
  }

  lemma {:induction false} AddsFrom(
      env: Env, kps: seq<KeyPackage>, gc: GroupContext, sent: bool, ts: seq<Tree>)
    requires AddSteps(env, kps, gc, sent, ts) && Valid(ts[0])
    ensures FoldAdds(env, ts[0], kps, gc, sent).Ok? && FoldAdds(env, ts[0], kps, gc, sent).value.tree == ts[|kps|]
    decreases |kps|
  {
    hide KeyPackageOk, AddLeaf, PackageSound, Meets, Alongside;
    if kps != [] {
      PackageIff(env, kps[0], gc, ts[0], sent);
      AddLeafAt(ts[0], kps[0].leaf);
      forall i | 0 <= i < |kps[1..]|
        ensures Valid(ts[1..][i]) && PackageSound(env, kps[1..][i], gc, sent)
        ensures Meets(gc.extensions, kps[1..][i].leaf.capabilities) && Alongside(kps[1..][i].leaf, ts[1..][i], None)
        ensures ts[1..][i + 1] == AddLeaf(ts[1..][i], kps[1..][i].leaf).0
      {
        assert ts[1..][i] == ts[i + 1] && kps[1..][i] == kps[i + 1];
      }
      AddsFrom(env, kps[1..], gc, sent, ts[1..]);
    }
  }

  ghost predicate UpdatesTo(env: Env, orig: Tree, us: seq<UpdateBy>, gc: GroupContext, t: Tree, u: Tree) {
    exists ts :: UpdateSteps(env, orig, us, gc, ts) && ts[0] == t && ts[|us|] == u
  }

  ghost predicate RemovesTo(orig: Tree, rs: seq<nat>, t: Tree, u: Tree) {
    exists ts :: RemoveSteps(orig, rs, ts) && ts[0] == t && ts[|rs|] == u
  }

  ghost predicate AddsTo(env: Env, kps: seq<KeyPackage>, gc: GroupContext, sent: bool, t: Tree, u: Tree) {
    exists ts :: AddSteps(env, kps, gc, sent, ts) && ts[0] == t && ts[|kps|] == u
  }

  /** The list takes the tree `t` to `u`: first its Updates, then its Removes, then its
      Adds, each kind in the order of the list. */
  ghost predicate TreeBecomes(
      env: Env, t: Tree, all: seq<ProposalWithSender>, gc: GroupContext, sent: bool, u: Tree) {
    exists v, w ::
      && UpdatesTo(env, t, Picked(all, UpdateOf), gc, t, v)
      && RemovesTo(t, Picked(all, RemoveOf), v, w)
      && AddsTo(env, Picked(all, AddOf), gc, sent, w, u)
  }

  lemma {:induction false} UpdatesToIff(env: Env, t: Tree, us: seq<UpdateBy>, gc: GroupContext, u: Tree)
    requires Valid(t)
    ensures UpdatesTo(env, t, us, gc, t, u) <==> FoldUpdates(env, t, t, us, gc) == Ok(u)
  {
    hide FoldUpdates, UpdateStep;
    if FoldUpdates(env, t, t, us, gc).Ok? { var ts := UpdatesDone(env, t, t, us, gc); }
    if UpdatesTo(env, t, us, gc, t, u) {
      var ts :| UpdateSteps(env, t, us, gc, ts) && ts[0] == t && ts[|us|] == u;
      UpdatesFrom(env, t, us, gc, ts);
    }
  }

  lemma {:induction false} RemovesToIff(orig: Tree, rs: seq<nat>, t: Tree, u: Tree)
    requires Valid(t)
    ensures RemovesTo(orig, rs, t, u) <==> FoldRemoves(orig, t, rs) == Ok(u)
  {
    hide FoldRemoves, RemoveLeaf;
    if FoldRemoves(orig, t, rs).Ok? { var ts := RemovesDone(orig, t, rs); }
    if RemovesTo(orig, rs, t, u) {
      var ts :| RemoveSteps(orig, rs, ts) && ts[0] == t && ts[|rs|] == u;
      RemovesFrom(orig, rs, ts);
    }
  }

  lemma {:induction false} AddsToIff(env: Env, kps: seq<KeyPackage>, gc: GroupContext, sent: bool, t: Tree, u: Tree)
    requires Valid(t)
    ensures AddsTo(env, kps, gc, sent, t, u) <==>
      FoldAdds(env, t, kps, gc, sent).Ok? && FoldAdds(env, t, kps, gc, sent).value.tree == u
  {
    hide FoldAdds, AddLeaf, PackageSound, Meets, Alongside;
    if FoldAdds(env, t, kps, gc, sent).Ok? { var ts := AddsDone(env, t, kps, gc, sent); }
    if AddsTo(env, kps, gc, sent, t, u) {
      var ts :| AddSteps(env, kps, gc, sent, ts) && ts[0] == t && ts[|kps|] == u;
      AddsFrom(env, kps, gc, sent, ts);
    }
  }

  /** applyTreeMutations takes just the lists all of whose steps can be taken. */
  lemma {:induction false} MutationsIff(
      env: Env, t: Tree, all: seq<ProposalWithSender>, gc: GroupContext, sent: bool, u: Tree)
    requires Valid(t)
    ensures TreeBecomes(env, t, all, gc, sent, u) <==>
      ApplyMutations(env, t, Group(all), gc, sent).Ok? && ApplyMutations(env, t, Group(all), gc, sent).value.tree == u
  {
    hide Picked, FoldUpdates, FoldRemoves, FoldAdds, UpdatesTo, RemovesTo, AddsTo, Group;
    GroupPicks(all);
    var g := Group(all);
    if FoldUpdates(env, t, t, g.updates, gc).Ok? {
      var v := FoldUpdates(env, t, t, g.updates, gc).value;
      FoldUpdatesValid(env, t, t, g.updates, gc);
      UpdatesToIff(env, t, g.updates, gc, v);
      if FoldRemoves(t, v, g.removes).Ok? {
        var w := FoldRemoves(t, v, g.removes).value;
        FoldRemovesValid(t, v, g.removes);
        RemovesToIff(t, g.removes, v, w);
        AddsToIff(env, g.adds, gc, sent, w, u);
      }
    }
    if TreeBecomes(env, t, all, gc, sent, u) {
      var v, w :|
        && UpdatesTo(env, t, g.updates, gc, t, v) && RemovesTo(t, g.removes, v, w)
        && AddsTo(env, g.adds, gc, sent, w, u);
      UpdatesToIff(env, t, g.updates, gc, v);
      FoldUpdatesValid(env, t, t, g.updates, gc);
      RemovesToIff(t, g.removes, v, w);
      FoldRemovesValid(t, v, g.removes);
      AddsToIff(env, g.adds, gc, sent, w, u);
    }
  }

  // ---- the lists taken ----

  /** Every pre-shared key named is one this client has, with a nonce of the right length. */
  predicate PsksKnown(env: Env, all: seq<ProposalWithSender>) {
    forall p | p in all && p.proposal.Psk? :: p.proposal.id.nonceFits && env.psk(p.proposal.id).Some?
  }

  lemma {:induction false} PsksKnownIff(env: Env, all: seq<ProposalWithSender>)
    ensures var ids := Group(all).psks; PskSecret(env, ids, Zero, 0, |ids|).Ok? <==> PsksKnown(env, all)
  {
    hide Picked, PskSecret;
    GroupPicks(all);
    var ids := Group(all).psks;
    assert ids[0..] == ids;
    var accs := PskFrom(env, ids, 0, Zero);
    forall p | p in all && p.proposal.Psk? ensures p.proposal.id in ids {
      assert PskOf(p) == Some(p.proposal.id);
      PickedIff(all, PskOf, p.proposal.id);
    }
    forall x | x in ids ensures exists p :: p in all && p.proposal == Psk(x) {
      PickedIff(all, PskOf, x);
      var p :| p in all && PskOf(p) == Some(x);
      assert p.proposal == Psk(x);
    }
    if PskSecret(env, ids, Zero, 0, |ids|).Ok? {
      forall x | x in ids ensures x.nonceFits && env.psk(x).Some? { var j :| 0 <= j < |ids| && ids[j] == x; }
    } else {
      var j :| 0 <= j < |ids| && !(ids[j].nonceFits && env.psk(ids[j]).Some?);
      assert ids[j] in ids;
    }
  }

  /** A member's list: valid as a list, every step on the tree can be taken under the
      extensions it sets, and its pre-shared keys are known. */
  ghost predicate MemberTakes(
      env: Env, st: ClientState, all: seq<ProposalWithSender>, committer: Option<nat>, sent: bool) {
    && ListValid(env, all, committer, st.context, st.tree) && PsksKnown(env, all)
    && exists exts, u ::
         && ExtensionsBecome(all, st.context.extensions, exts)
         && TreeBecomes(env, st.tree, all, st.context.(extensions := exts), sent, u)
  }

  lemma {:induction false} MemberTakesIff(
      env: Env, st: ClientState, all: seq<ProposalWithSender>, committer: Option<nat>, sent: bool)
    requires Valid(st.tree) && env.externalSendersOk([])
    ensures ApplyMemberProposals(env, st, all, Group(all), committer, sent).Ok? <==>
      MemberTakes(env, st, all, committer, sent)
  {
    hide Group, ProposalsOk, ListValid, ApplyMutations, ContextAfter, TreeBecomes, ExtensionsBecome, PskSecret,
      PsksKnown;
    ListValidIff(env, all, committer, st.context, st.tree);
    PsksKnownIff(env, all);
    if ProposalsOk(env, Group(all), committer, st.context, st.tree) {
      OneChange(env, all, committer, st.context, st.tree);
      BecomeIs(all, st.context);
      var after := ContextAfter(st.context, Group(all));
      if ApplyMutations(env, st.tree, Group(all), after, sent).Ok? {
        MutationsIff(
          env, st.tree, all, after, sent, ApplyMutations(env, st.tree, Group(all), after, sent).value.tree);
      }
      if exts, u :|
        && ExtensionsBecome(all, st.context.extensions, exts)
        && TreeBecomes(env, st.tree, all, st.context.(extensions := exts), sent, u)
      {
        MutationsIff(env, st.tree, all, after, sent, u);
      }
    }
  }

  ghost predicate AtMostOne(all: seq<ProposalWithSender>, which: ProposalWithSender -> bool) {
    forall i, j | 0 <= i < j < |all| :: !(which(all[i]) && which(all[j]))
  }

  predicate IsExternalInit(p: ProposalWithSender) { p.proposal.ExternalInit? }

  predicate IsRemove(p: ProposalWithSender) { p.proposal.Remove? }

  /** A newcomer's list, all by value: one external init, for this group's external
      key; at most one Remove, of the leaf that has the newcomer's signature key and
      is not the only one; and pre-shared keys, known and each once. */
  ghost predicate NewcomerTakes(
      env: Env, st: ClientState, props: seq<ProposalOrRef>, all: seq<ProposalWithSender>, newLeaf: Option<LeafNode>)
    requires Valid(st.tree)
  {
    && (forall p | p in props :: p.ByValue?)
    && AtMostOne(all, IsExternalInit) && AtMostOne(all, IsRemove) && PsksKnown(env, all)
    && (forall p | p in all :: ForNewcomer(st, p.proposal, newLeaf))
    && forall i, j | 0 <= i < j < |all| && all[i].proposal.Psk? :: all[i].proposal != all[j].proposal
  }

  /** The leaf a newcomer may take the place of: one with its signature key, not the only one. */
  predicate MayReplace(t: Tree, r: nat, newLeaf: Option<LeafNode>)
    requires Valid(t)
  {
    && newLeaf.Some? && HasLeaf(t, r) && LeafAt(t, r).value.sigKey == newLeaf.value.sigKey && RemoveLeaf(t, r).Ok?
  }

  predicate ForNewcomer(st: ClientState, p: Proposal, newLeaf: Option<LeafNode>)
    requires Valid(st.tree)
  {
    match p
    case ExternalInit(kem) => kem.to == Pub(st.schedule.external)
    case Remove(r) => MayReplace(st.tree, r, newLeaf)
    case Psk(id) => id.ResumptionPsk? ==> id.usage.ApplicationUsage? || st.context.epoch == 0
    case Custom(_, _) => true
    case _ => false
  }

  lemma {:induction false} AtMostOneIff<T(!new)>(
      all: seq<ProposalWithSender>, pick: Pick<T>, which: ProposalWithSender -> bool)
    requires forall p :: which(p) <==> pick(p).Some?
    ensures |Picked(all, pick)| <= 1 <==> AtMostOne(all, which)
  {
    hide Picked;
    PickedOne(all, pick);
    var never := (x: T, y: T) => false;
    if AllPairs(all, pick, never) {
      forall i, j | 0 <= i < j < |all| ensures !(which(all[i]) && which(all[j])) {
        assert PairOk(all, pick, never, i, j);
      }
    }
    PickedPairs(all, pick, never);
    if AtMostOne(all, which) {
      forall i, j | 0 <= i < j < |all| ensures PairOk(all, pick, never, i, j) {}
    }
  }

  /** The kinds a newcomer's list has none of, and those it has at most once. */
  lemma {:induction false} NewcomerKinds(all: seq<ProposalWithSender>)
    ensures var g := Group(all);
      && (|g.externalInits| <= 1 <==> AtMostOne(all, IsExternalInit))
      && (|g.removes| <= 1 <==> AtMostOne(all, IsRemove))
      && (g.adds == [] && g.gces == [] && g.reinits == [] && g.updates == [] <==>
            forall p | p in all :: !p.proposal.Add? && !p.proposal.GroupContextExtensions?
              && !p.proposal.ReinitProposal? && !p.proposal.Update?)
  {
    hide Picked;
    GroupPicks(all);
    AtMostOneIff(all, ExternalInitOf, IsExternalInit);
    AtMostOneIff(all, RemoveOf, IsRemove);
    PickedNone(all, AddOf);
    PickedNone(all, ContextExtensionsOf);
    PickedNone(all, ReinitOf);
    PickedNone(all, UpdateOf);
  }

  lemma {:induction false} ReplacesIff(t: Tree, all: seq<ProposalWithSender>, newLeaf: Option<LeafNode>)
    requires Valid(t) && |Group(all).removes| <= 1
    ensures ResyncPrior(t, Group(all).removes, newLeaf).Ok? && AfterResync(t, Group(all).removes).Ok? <==>
      forall p | p in all && p.proposal.Remove? :: MayReplace(t, p.proposal.removed, newLeaf)
  {
    hide Picked, RemoveLeaf;
    GroupPicks(all);
    var rs := Group(all).removes;
    forall p | p in all && p.proposal.Remove? ensures rs == [p.proposal.removed] {
      assert RemoveOf(p) == Some(p.proposal.removed);
      PickedIff(all, RemoveOf, p.proposal.removed);
      assert rs == [rs[0]];
    }
    if rs != [] {
      PickedIff(all, RemoveOf, rs[0]);
      var p :| p in all && RemoveOf(p) == Some(rs[0]);
      assert p.proposal.Remove? && p.proposal.removed == rs[0];
    }
  }

  lemma {:induction false} ImportsIff(st: ClientState, all: seq<ProposalWithSender>)
    requires |Group(all).externalInits| == 1
    ensures ImportSecret(st.schedule.external, Group(all).externalInits[0]).Some? <==>
      forall p | p in all && p.proposal.ExternalInit? :: p.proposal.kem.to == Pub(st.schedule.external)
  {
    hide Picked;
    GroupPicks(all);
    var kems := Group(all).externalInits;
    forall p | p in all && p.proposal.ExternalInit? ensures p.proposal.kem == kems[0] {
      assert ExternalInitOf(p) == Some(p.proposal.kem);
      PickedIff(all, ExternalInitOf, p.proposal.kem);
      assert kems == [kems[0]];
    }
    PickedIff(all, ExternalInitOf, kems[0]);
    var p :| p in all && ExternalInitOf(p) == Some(kems[0]);
    assert p.proposal.ExternalInit?;
  }

  lemma {:induction false} NewcomerTakesIff(
      env: Env, st: ClientState, props: seq<ProposalOrRef>, all: seq<ProposalWithSender>, newLeaf: Option<LeafNode>)
    requires Valid(st.tree) && |Group(all).externalInits| > 0
    ensures ApplyExternalProposals(env, st, props, all, Group(all), newLeaf).Ok? <==>
      NewcomerTakes(env, st, props, all, newLeaf)
  {
    hide Group, ResyncPrior, AfterResync, PskSecret, PsksOk, AtMostOne, RemoveLeaf, ImportSecret, PsksKnown;
    NewcomerKinds(all);
    PsksIff(all, st.context);
    PsksKnownIff(env, all);
    if |Group(all).removes| <= 1 { ReplacesIff(st.tree, all, newLeaf); }
    if |Group(all).externalInits| == 1 { ImportsIff(st, all); }
    assert (forall i, j | 0 <= i < j < |all| ::
        !(all[i].proposal.Psk? && all[j].proposal.Psk? && all[i].proposal.id == all[j].proposal.id)) <==>
      forall i, j | 0 <= i < j < |all| && all[i].proposal.Psk? :: all[i].proposal != all[j].proposal;
  }

  /** What applyProposals takes: a newcomer's list, one reinit and nothing else, or a member's list. */
  ghost predicate Takes(
      env: Env, st: ClientState, props: seq<ProposalOrRef>, all: seq<ProposalWithSender>, committer: Option<nat>,
      sent: bool, newLeaf: Option<LeafNode>, sender: SenderType)
    requires Valid(st.tree)
  {
    && (forall p | p in all && p.proposal.Custom? :: p.proposal.ptype in env.supportedCustom)
    && (sender == NewMemberCommitType <==> exists p :: p in all && p.proposal.ExternalInit?)
    && if sender == NewMemberCommitType then NewcomerTakes(env, st, props, all, newLeaf)
       else if exists p :: p in all && p.proposal.ReinitProposal? then
         |all| == 1 && all[0].proposal.ReinitProposal? && all[0].proposal.reinit.version >= st.context.version
       else MemberTakes(env, st, all, committer, sent)
  }

  lemma {:induction false} CustomIff(env: Env, all: seq<ProposalWithSender>)
    ensures (exists c | c in Group(all).customs :: c !in env.supportedCustom) <==>
      exists p | p in all && p.proposal.Custom? :: p.proposal.ptype !in env.supportedCustom
  {
    hide Picked;
    GroupPicks(all);
    if c :| c in Group(all).customs && c !in env.supportedCustom {
      PickedIff(all, CustomOf, c);
      var p :| p in all && CustomOf(p) == Some(c);
    }
    if p :| p in all && p.proposal.Custom? && p.proposal.ptype !in env.supportedCustom {
      assert CustomOf(p) == Some(p.proposal.ptype);
      PickedIff(all, CustomOf, p.proposal.ptype);
    }
  }

  lemma {:induction false} ReinitIff(st: ClientState, all: seq<ProposalWithSender>)
    ensures Group(all).reinits != [] <==> exists p :: p in all && p.proposal.ReinitProposal?
    ensures Group(all).reinits != [] ==>
      (|all| == 1 && Group(all).reinits[0].version >= st.context.version <==>
       |all| == 1 && all[0].proposal.ReinitProposal? && all[0].proposal.reinit.version >= st.context.version)
  {
    hide Picked;
    GroupPicks(all);
    PickedNone(all, ReinitOf);
    var rs := Group(all).reinits;
    if rs != [] {
      PickedIff(all, ReinitOf, rs[0]);
      var p :| p in all && ReinitOf(p) == Some(rs[0]);
      assert p.proposal.ReinitProposal?;
      if |all| == 1 { assert all[0] == p; }
    } else {
      forall p | p in all ensures !p.proposal.ReinitProposal? { assert ReinitOf(p).None?; }
    }
  }

  lemma {:induction false} InitsIff(all: seq<ProposalWithSender>)
    ensures Group(all).externalInits != [] <==> exists p :: p in all && p.proposal.ExternalInit?
    ensures |Group(all).externalInits| <= 1 <==> AtMostOne(all, IsExternalInit)
  {
    hide Picked;
    GroupPicks(all);
    PickedNone(all, ExternalInitOf);
    AtMostOneIff(all, ExternalInitOf, IsExternalInit);
    if Group(all).externalInits == [] {
      forall p | p in all ensures !p.proposal.ExternalInit? { assert ExternalInitOf(p).None?; }
    }
  }

  /** applyProposals succeeds on these lists, the references resolved, and no others. */
  lemma {:induction false} TakesIff(
      env: Env, st: ClientState, props: seq<ProposalOrRef>, committer: Option<nat>, sent: bool,
      newLeaf: Option<LeafNode>, sender: SenderType)
    requires Valid(st.tree) && env.externalSendersOk([])
    ensures var resolved := Resolve(props, st.pending, committer, sender);
      ApplyProposals(env, st, props, committer, sent, newLeaf, sender).Ok? <==>
        resolved.Ok? && Takes(env, st, props, resolved.value, committer, sent, newLeaf, sender)
  {
    hide Resolve, Group, ApplyMemberProposals, ApplyExternalProposals, MemberTakes, NewcomerTakes, AtMostOne;
    var resolved := Resolve(props, st.pending, committer, sender);
    if resolved.Ok? {
      var all := resolved.value;
      CustomIff(env, all);
      InitsIff(all);
      ReinitIff(st, all);
      MemberTakesIff(env, st, all, committer, sent);
      if Group(all).externalInits != [] { NewcomerTakesIff(env, st, props, all, newLeaf); }
      NewcomerOne(env, st, props, all, newLeaf);
    }
  }

  lemma {:induction false} NewcomerOne(
      env: Env, st: ClientState, props: seq<ProposalOrRef>, all: seq<ProposalWithSender>, newLeaf: Option<LeafNode>)
    requires Valid(st.tree)
    ensures NewcomerTakes(env, st, props, all, newLeaf) ==> AtMostOne(all, IsExternalInit)
  {
    hide AtMostOne, PsksKnown;
  }
}

/** Resolving, checking and applying a commit's proposals (src/client-state.ts). */
module Proposals {
  import opened Options
  import opened Terms
  import opened TreeMath
  import opened RatchetTree
  import opened UpdatePaths
  import opened LeafValidation
  import opened ClientStates

  // ---- by reference or by value ----

  function Resolve(
      props: seq<ProposalOrRef>, pending: seq<Pending>, committer: Option<nat>, sender: SenderType):
      Result<seq<ProposalWithSender>> {
    if props == [] then Ok([]) else
    var first :- match props[0]
      case ByValue(p) => Ok(ProposalWithSender(p, committer, sender))
      case ByReference(r) =>
        var f := FindPending(pending, r);
        if f.Some? then Ok(f.value) else Err(UnknownReference);
    var rest :- Resolve(props[1..], pending, committer, sender);
    Ok([first] + rest)
  }

  // ---- grouped by type ----

  datatype UpdateBy = UpdateBy(sender: Option<nat>, leaf: LeafNode)

  datatype Grouped = Grouped(
    updates: seq<UpdateBy>,
    removes: seq<nat>,
    adds: seq<KeyPackage>,
    psks: seq<PskId>,
    reinits: seq<Reinit>,
    externalInits: seq<KemOutput>,
    gces: seq<seq<Extension>>,
    customs: seq<nat>)

  function Group(all: seq<ProposalWithSender>): Grouped {
    if all == [] then Grouped([], [], [], [], [], [], [], []) else
    var g, p := Group(all[..|all| - 1]), all[|all| - 1];
    match p.proposal
    case Add(kp) => g.(adds := g.adds + [kp])
    case Update(leaf) => g.(updates := g.updates + [UpdateBy(p.leaf, leaf)])
    case Remove(r) => g.(removes := g.removes + [r])
    case Psk(id) => g.(psks := g.psks + [id])
    case ReinitProposal(r) => g.(reinits := g.reinits + [r])
    case ExternalInit(k) => g.(externalInits := g.externalInits + [k])
    case GroupContextExtensions(e) => g.(gces := g.gces + [e])
    case Custom(ptype, _) => g.(customs := g.customs + [ptype])
  }

  function Flatten(gces: seq<seq<Extension>>): seq<Extension> {
    if gces == [] then [] else gces[0] + Flatten(gces[1..])
  }

  function ContextAfter(gc: GroupContext, g: Grouped): GroupContext {
    if g.gces == [] then gc else gc.(extensions := Flatten(g.gces))
  }

  // ---- the checks over the whole list ----

  /** The Update naming leaf `l`, if there is one. */
  function UpdateFor(updates: seq<UpdateBy>, l: nat): (r: Option<LeafNode>)
    ensures r.Some? ==> UpdateBy(Some(l), r.value) in updates
    ensures r.None? ==> forall u | u in updates :: u.sender != Some(l)
  {
    if updates == [] then None
    else if updates[0].sender == Some(l) then Some(updates[0].leaf)
    else UpdateFor(updates[1..], l)
  }

  /** postMutationLeafCapabilities: in node order, from node `x` on. */
  function RemainingCapabilities(t: Tree, x: nat, g: Grouped): seq<Capabilities>
    decreases |t| - x
  {
    if x >= |t| then [] else
    var rest := RemainingCapabilities(t, x + 1, g);
    if NodeLeaf(t, x).None? || x / 2 in g.removes then rest else
    var u := UpdateFor(g.updates, x / 2);
    [if u.Some? then u.value.capabilities else NodeLeaf(t, x).value.capabilities] + rest
  }

  /** No leaf is named by two Updates, two Removes, or one of each. */
  predicate OneChangePerLeaf(g: Grouped) {
    && (forall i, j | 0 <= i < j < |g.updates| :: g.updates[i].sender != g.updates[j].sender)
    && (forall u, r | u in g.updates && r in g.removes :: u.sender != Some(r))
    && (forall i, j | 0 <= i < j < |g.removes| :: g.removes[i] != g.removes[j])
  }

  predicate CommitterUntouched(g: Grouped, committer: Option<nat>) {
    && (forall u | u in g.updates :: u.sender.None? || u.sender != committer)
    && (forall r | r in g.removes :: Some(r) != committer)
  }

  predicate NewClients(env: Env, g: Grouped, t: Tree) {
    && (forall i, j | 0 <= i < |g.adds| && 0 <= j < |g.adds| && i != j :: !env.sameClient(g.adds[i], g.adds[j]))
    && (forall kp, x | kp in g.adds && 0 <= x < |t| && NodeLeaf(t, x).Some? &&
      env.matchesLeaf(kp, NodeLeaf(t, x).value) ::
          x / 2 in g.removes)
  }

  predicate PsksOk(psks: seq<PskId>, gc: GroupContext) {
    && (forall i, j | 0 <= i < j < |psks| :: psks[i] != psks[j])
    && (forall p | p in psks :: p.ResumptionPsk? ==> p.usage.ApplicationUsage? || gc.epoch == 0)
  }

  predicate ExtensionsAccepted(env: Env, g: Grouped, t: Tree) {
    var exts, remaining := Flatten(g.gces), RemainingCapabilities(t, 0, g);
    && |g.gces| <= 1
    && (forall c | c in remaining :: ExtensionsSupported(exts, c) && MeetsRequired(c, exts))
    && (forall kp | kp in g.adds :: MeetsRequired(kp.leaf.capabilities, exts))
    && (FirstRequired(exts).Some? ==>
      FirstRequired(exts).value.RequiredCapabilities? && FirstRequired(exts).value.required.Some?)
    && env.externalSendersOk(exts)
  }

  /** validateProposals. */
  predicate ProposalsOk(env: Env, g: Grouped, committer: Option<nat>, gc: GroupContext, t: Tree) {
    && CommitterUntouched(g, committer)
    && OneChangePerLeaf(g)
    && NewClients(env, g, t)
    && (forall kp | kp in g.adds :: ExtensionsSupported(ContextAfter(gc, g).extensions, kp.leaf.capabilities))
    && PsksOk(g.psks, gc)
    && ExtensionsAccepted(env, g, t)
  }

  // ---- applyTreeMutations ----

  /** Each Update is checked against the tree the earlier ones left, and must
      change the key its leaf had before the commit. */
  function FoldUpdates(env: Env, orig: Tree, t: Tree, updates: seq<UpdateBy>, gc: GroupContext): Result<Tree>
    requires Valid(t)
    decreases |updates|
  {
    if updates == [] then Ok(t) else
    var u := updates[0];
    if u.sender.None? then Err(NoUpdateSender) else
    var l := u.sender.value;
    if LeafAt(orig, l).Some? && LeafAt(orig, l).value.hpkeKey == u.leaf.hpkeKey then Err(NotRotated)
    else if !u.leaf.source.FromUpdate? || !UpdateOrCommitOk(env, u.leaf, l, gc, t, LeafCredential(t, l)) then
      Err(LeafRejected)
    else if 2 * l >= |t| then Err(EmptyLeaf)
    else
      UpdateLeafAt(t, u.leaf, l);
      FoldUpdates(env, orig, UpdateLeaf(t, u.leaf, l), updates[1..], gc)
  }

  function LeafCredential(t: Tree, l: nat): Option<Credential> {
    if LeafAt(t, l).Some? then Some(LeafAt(t, l).value.credential) else None
  }

  function FoldRemoves(orig: Tree, t: Tree, removes: seq<nat>): Result<Tree>
    requires Valid(t)
    decreases |removes|
  {
    if removes == [] then Ok(t)
    else if At(orig, 2 * removes[0]).None? || 2 * removes[0] >= |t| then Err(EmptyLeaf)
    else
      RemoveLeafAt(t, removes[0]);
      var u :- RemoveLeaf(t, removes[0]);
      FoldRemoves(orig, u, removes[1..])
  }

  datatype Added = Added(leaf: nat, keyPackage: KeyPackage)

  datatype Mutated = Mutated(tree: Tree, added: seq<Added>)

  function FoldAdds(env: Env, t: Tree, adds: seq<KeyPackage>, gc: GroupContext, sentByClient: bool): Result<Mutated>
    requires Valid(t)
    decreases |adds|
  {
    if adds == [] then Ok(Mutated(t, []))
    else if !KeyPackageOk(env, adds[0], gc, t, sentByClient) then Err(KeyPackageRejected)
    else
      AddLeafAt(t, adds[0].leaf);
      var (u, n) := AddLeaf(t, adds[0].leaf);
      var rest :- FoldAdds(env, u, adds[1..], gc, sentByClient);
      Ok(Mutated(rest.tree, [Added(n / 2, adds[0])] + rest.added))
  }

  lemma {:induction false} FoldUpdatesValid(env: Env, orig: Tree, t: Tree, updates: seq<UpdateBy>, gc: GroupContext)
    requires Valid(t)
    ensures FoldUpdates(env, orig, t, updates, gc).Ok? ==> Valid(FoldUpdates(env, orig, t, updates, gc).value)
    decreases |updates|
  {
    if updates != [] && updates[0].sender.Some? && 2 * updates[0].sender.value < |t| {
      var l := updates[0].sender.value;
      UpdateLeafAt(t, updates[0].leaf, l);
      FoldUpdatesValid(env, orig, UpdateLeaf(t, updates[0].leaf, l), updates[1..], gc);
    }
  }

  lemma {:induction false} FoldRemovesValid(orig: Tree, t: Tree, removes: seq<nat>)
    requires Valid(t)
    ensures FoldRemoves(orig, t, removes).Ok? ==> Valid(FoldRemoves(orig, t, removes).value)
    decreases |removes|
  {
    if removes != [] {
      RemoveLeafAt(t, removes[0]);
      if RemoveLeaf(t, removes[0]).Ok? { FoldRemovesValid(orig, RemoveLeaf(t, removes[0]).value, removes[1..]); }
    }
  }

  lemma {:induction false} FoldAddsValid(env: Env, t: Tree, adds: seq<KeyPackage>, gc: GroupContext, sentByClient: bool)
    requires Valid(t)
    ensures FoldAdds(env, t, adds, gc, sentByClient).Ok? ==> Valid(FoldAdds(env, t, adds, gc, sentByClient).value.tree)
    decreases |adds|
  {
    if adds != [] {
      AddLeafAt(t, adds[0].leaf);
      FoldAddsValid(env, AddLeaf(t, adds[0].leaf).0, adds[1..], gc, sentByClient);
    }
  }

  function ApplyMutations(env: Env, t: Tree, g: Grouped, gc: GroupContext, sentByClient: bool): (r: Result<Mutated>)
    requires Valid(t)
    ensures r.Ok? ==> Valid(r.value.tree)
  {
    FoldUpdatesValid(env, t, t, g.updates, gc);
    var afterUpdate :- FoldUpdates(env, t, t, g.updates, gc);
    FoldRemovesValid(t, afterUpdate, g.removes);
    var afterRemove :- FoldRemoves(t, afterUpdate, g.removes);
    FoldAddsValid(env, afterRemove, g.adds, gc, sentByClient);
    FoldAdds(env, afterRemove, g.adds, gc, sentByClient)
  }

  // ---- applyProposals ----

  function PskSecret(env: Env, psks: seq<PskId>, acc: Secret, index: nat, count: nat): Result<Secret>
    decreases |psks|
  {
    if psks == [] then Ok(acc)
    else if !psks[0].nonceFits || env.psk(psks[0]).None? then Err(MissingPsk)
    else PskSecret(env, psks[1..], PskStep(acc, psks[0], env.psk(psks[0]).value, index, count), index + 1, count)
  }

  datatype Kind =
    | MemberCommit(added: seq<Added>, context: GroupContext)
    | ExternalCommit(initSecret: Secret, newLeaf: nat, prior: Option<Credential>)
    | ReinitCommit(reinit: Reinit)

  datatype Applied = Applied(
    tree: Tree, pskSecret: Secret, pskIds: seq<PskId>, needsPath: bool, kind: Kind, selfRemoved: bool,
    all: seq<ProposalWithSender>)

  function ExternalInitError(sender: SenderType, count: nat): bool {
    (count > 0 && sender != NewMemberCommitType) || (sender == NewMemberCommitType && count != 1)
  }

  function ApplyMemberProposals(
      env: Env, st: ClientState, all: seq<ProposalWithSender>, g: Grouped, committer: Option<nat>, sentByClient: bool):
      Result<Applied>
    requires Valid(st.tree)
  {
    if !ProposalsOk(env, g, committer, st.context, st.tree) then Err(InvalidProposals) else
    var after := ContextAfter(st.context, g);
    var m :- ApplyMutations(env, st.tree, g, after, sentByClient);
    var psk :- PskSecret(env, g.psks, Zero, 0, |g.psks|);
    Ok(Applied(
      m.tree, psk, g.psks,
      all == [] || g.updates != [] || g.removes != [] || g.gces != [] || g.customs != [],
      MemberCommit(m.added, after),
      At(m.tree, 2 * st.privatePath.leaf).None?,
      all))
  }

  /** The Remove of an external commit must name the joiner's own former leaf. */
  function ResyncPrior(t: Tree, removes: seq<nat>, newLeaf: Option<LeafNode>): Result<Option<Credential>> {
    if removes == [] then Ok(None)
    else if At(t, 2 * removes[0]).None? then Err(EmptyLeaf)
    else if newLeaf.None? || LeafAt(t, removes[0]).None? ||
      LeafAt(t, removes[0]).value.sigKey != newLeaf.value.sigKey then Err(BadResync)
    else Ok(Some(LeafAt(t, removes[0]).value.credential))
  }

  function AfterResync(t: Tree, removes: seq<nat>): (r: Result<Tree>)
    requires Valid(t)
    ensures r.Ok? ==> Valid(r.value)
  {
    if removes == [] then Ok(t) else
    RemoveLeafAt(t, removes[0]);
    RemoveLeaf(t, removes[0])
  }

  function ApplyExternalProposals(
      env: Env, st: ClientState, props: seq<ProposalOrRef>, all: seq<ProposalWithSender>, g: Grouped,
      newLeaf: Option<LeafNode>): Result<Applied>
    requires Valid(st.tree) && |g.externalInits| > 0
  {
    if exists p | p in props :: p.ByReference? then Err(ReferenceInExternal)
    else if |g.externalInits| > 1 || |g.removes| > 1 || g.adds != [] || g.gces != [] || g.reinits != [] ||
      g.updates != [] then Err(BadExternalInit)
    else if !PsksOk(g.psks, st.context) then Err(InvalidProposals)
    else
      var prior :- ResyncPrior(st.tree, g.removes, newLeaf);
      var t :- AfterResync(st.tree, g.removes);
      var psk :- PskSecret(env, g.psks, Zero, 0, |g.psks|);
      match ImportSecret(st.schedule.external, g.externalInits[0])
      case None => Err(DecryptFailed)
      case Some(init) =>
        Ok(Applied(t, psk, g.psks, true, ExternalCommit(init, NewLeafNode(t) / 2, prior), false, all))
  }

  function ApplyProposals(
      env: Env, st: ClientState, props: seq<ProposalOrRef>, committer: Option<nat>, sentByClient: bool,
      newLeaf: Option<LeafNode>, sender: SenderType): Result<Applied>
    requires Valid(st.tree)
  {
    var all :- Resolve(props, st.pending, committer, sender);
    var g := Group(all);
    if exists c | c in g.customs :: c !in env.supportedCustom then Err(UnsupportedCustom)
    else if ExternalInitError(sender, |g.externalInits|) then Err(BadExternalInit)
    else if g.externalInits != [] then ApplyExternalProposals(env, st, props, all, g, newLeaf)
    else if g.reinits != [] then
      if |all| != 1 || g.reinits[0].version < st.context.version then Err(BadReinit)
      else Ok(Applied(st.tree, Zero, [], false, ReinitCommit(g.reinits[0]), false, all))
    else ApplyMemberProposals(env, st, all, g, committer, sentByClient)
  }
}

/** Exactly which pending proposals a commit carries (filterPendingProposals in
    src/create-commit.ts), and which proposals a member takes in at all
    (validateProposalOnReceipt in src/client-state.ts). */
module FilterChoices {
  import opened Options
  import opened Terms
  import opened TreeMath
  import opened RatchetTree
  import opened UpdatePaths
  import opened LeafValidation
  import opened ClientStates
  import opened Proposals
  import opened UnmergedLeaves
  import opened Membership
  import opened FilterPending
  import opened ProposalRules

  // ---- one leaf beside the others ----

  /** `leaf` can stand in `t`, in place of the leaf at `except` if there is one:
      credential types are listed both ways, and its keys are no other node's. */
  ghost predicate Alongside(leaf: LeafNode, t: Tree, except: Option<nat>) {
    && (forall l: nat | HasLeaf(t, l) ::
          leaf.credential.ctype in LeafAt(t, l).value.capabilities.credentials)
    && (forall l: nat | HasLeaf(t, l) && Some(l) != except :: BesideLeaf(leaf, LeafAt(t, l).value))
    && (forall x: nat | x % 2 == 1 && At(t, x).Some? :: KeyOf(At(t, x).value) != leaf.hpkeKey)
  }

  predicate BesideLeaf(leaf: LeafNode, other: LeafNode) {
    && other.credential.ctype in leaf.capabilities.credentials
    && other.hpkeKey != leaf.hpkeKey && other.sigKey != leaf.sigKey
  }

  lemma {:induction false} AlongsideIff(leaf: LeafNode, t: Tree, except: Option<nat>)
    requires Valid(t)
    ensures Alongside(leaf, t, except) <==>
      && SupportedByEvery(t, leaf.credential.ctype) && SupportsOthers(t, leaf, SkipNode(except))
      && KeysUnlikeOthers(t, leaf, SkipNode(except)) && KeyUnlikeParents(t, leaf.hpkeKey)
  {
    forall x | 0 <= x < |t| ensures NodeLeaf(t, x) == if x % 2 == 0 then LeafAt(t, x / 2) else None {
      NodeLeafIs(t, x);
    }
    if Alongside(leaf, t, except) {
      forall x | 0 <= x < |t| && NodeLeaf(t, x).Some?
        ensures leaf.credential.ctype in NodeLeaf(t, x).value.capabilities.credentials
        ensures Some(x) != SkipNode(except) ==> BesideLeaf(leaf, NodeLeaf(t, x).value)
      {
        assert HasLeaf(t, x / 2);
      }
      forall x | 0 <= x < |t| && NodeParent(t, x).Some? ensures NodeParent(t, x).value.hpkeKey != leaf.hpkeKey {
        assert x % 2 == 1 && KeyOf(At(t, x).value) != leaf.hpkeKey;
      }
    } else if SupportedByEvery(t, leaf.credential.ctype) && SupportsOthers(t, leaf, SkipNode(except))
      && KeysUnlikeOthers(t, leaf, SkipNode(except)) && KeyUnlikeParents(t, leaf.hpkeKey)
    {
      forall l: nat | HasLeaf(t, l)
        ensures leaf.credential.ctype in LeafAt(t, l).value.capabilities.credentials
        ensures Some(l) != except ==> BesideLeaf(leaf, LeafAt(t, l).value)
      {
        assert NodeLeaf(t, 2 * l) == LeafAt(t, l);
      }
      forall x: nat | x % 2 == 1 && At(t, x).Some? ensures KeyOf(At(t, x).value) != leaf.hpkeKey {
        assert NodeParent(t, x).Some?;
      }
    }
  }

  /** validateLeafNodeCommon, said leaf by leaf. */
  lemma {:induction false} CommonIff(
      env: Env, leaf: LeafNode, gc: GroupContext, t: Tree, except: Option<nat>, prior: Option<Credential>)
    requires Valid(t)
    ensures CommonOk(env, leaf, gc, t, except, prior) <==>
      && env.usableKey(leaf.hpkeKey) && env.credentialOk(leaf.credential, leaf.sigKey, prior)
      && Meets(gc.extensions, leaf.capabilities) && Supports(leaf.extensions, leaf.capabilities)
      && Alongside(leaf, t, except)
  {
    hide SupportedByEvery, SupportsOthers, KeysUnlikeOthers, KeyUnlikeParents, Alongside, Meets, MeetsRequired;
    AlongsideIff(leaf, t, except);
    MeetsIff(gc.extensions, leaf.capabilities);
    SupportsIff(leaf.extensions, leaf.capabilities);
  }

  // ---- what is taken in ----

  /** A key package by itself: right suite and version, signed, alive, keys usable and different. */
  predicate PackageSound(env: Env, kp: KeyPackage, gc: GroupContext, own: bool) {
    && kp.suite == gc.suite && kp.version == gc.version
    && env.usableSignatureKey(kp.leaf.sigKey) && env.usableKey(kp.leaf.hpkeKey) && env.usableKey(kp.initKey)
    && kp.leaf.source.FromKeyPackage?
    && kp.leaf.sigKey == Pub(kp.leaf.signature.signer) && kp.leaf.signature.place == None
    && kp.leaf.sigKey == Pub(kp.signedBy)
    && (own || env.validateLifetimeOnReceive ==> env.lifetimeOk(kp.leaf.source.lifetime))
    && env.credentialOk(kp.leaf.credential, kp.leaf.sigKey, None)
    && kp.initKey != kp.leaf.hpkeKey
    && Supports(kp.leaf.extensions, kp.leaf.capabilities)
  }

  lemma {:induction false} PackageIff(env: Env, kp: KeyPackage, gc: GroupContext, t: Tree, own: bool)
    requires Valid(t)
    ensures KeyPackageOk(env, kp, gc, t, own) <==>
      PackageSound(env, kp, gc, own) && Meets(gc.extensions, kp.leaf.capabilities) && Alongside(kp.leaf, t, None)
  {
    hide CommonOk, Meets, Alongside, Supports;
    CommonIff(env, kp.leaf, gc, t, None, None);
  }

  /** A replacement for the leaf at `l`: signed for its place, its own keys usable,
      and fit to stand there. */
  ghost predicate ReplacementSound(env: Env, leaf: LeafNode, l: nat, gc: GroupContext, t: Tree) {
    && env.usableSignatureKey(leaf.sigKey) && env.usableKey(leaf.hpkeKey)
    && leaf.sigKey == Pub(leaf.signature.signer) && leaf.signature.place == Some((gc.groupId, l))
    && env.credentialOk(
         leaf.credential, leaf.sigKey, if HasLeaf(t, l) then Some(LeafAt(t, l).value.credential) else None)
    && Supports(leaf.extensions, leaf.capabilities) && Alongside(leaf, t, Some(l))
  }

  lemma {:induction false} ReplacementIff(env: Env, leaf: LeafNode, l: nat, gc: GroupContext, t: Tree)
    requires Valid(t)
    ensures UpdateOrCommitOk(env, leaf, l, gc, t, LeafCredential(t, l)) <==>
      ReplacementSound(env, leaf, l, gc, t) && Meets(gc.extensions, leaf.capabilities)
  {
    hide CommonOk, Meets, Alongside, Supports;
    CommonIff(env, leaf, gc, t, Some(l), LeafCredential(t, l));
  }

  /** Leaf `l` is one the key package stands for already. */
  predicate Matched(env: Env, kp: KeyPackage, t: Tree, l: nat) {
    HasLeaf(t, l) && env.matchesLeaf(kp, LeafAt(t, l).value)
  }

  /** Node `y` is or is above a leaf, at or after node `x`, that the key package matches. */
  ghost predicate Cleared(env: Env, kp: KeyPackage, t: Tree, x: nat, y: nat) {
    exists l: nat :: x <= 2 * l && Matched(env, kp, t, l) && (y == 2 * l || OnPath(l, y))
  }

  lemma {:induction false} WithoutMatchingAt(env: Env, kp: KeyPackage, t: Tree, x: nat, acc: Tree)
    requires Valid(t) && Valid(acc) && WithoutMatching(env, kp, t, x, acc).Ok?
    ensures Valid(WithoutMatching(env, kp, t, x, acc).value)
    ensures forall y: nat ::
        At(WithoutMatching(env, kp, t, x, acc).value, y) == if Cleared(env, kp, t, x, y) then None else At(acc, y)
    decreases |t| - x
  {
    hide OnPath, RemoveLeaf;
    var r := WithoutMatching(env, kp, t, x, acc).value;
    if x >= |t| {
      forall y: nat ensures !Cleared(env, kp, t, x, y) {}
    } else {
      NodeLeafIs(t, x);
      var next := acc;
      if NodeLeaf(t, x).Some? && env.matchesLeaf(kp, NodeLeaf(t, x).value) {
        RemoveLeafAt(acc, x / 2);
        next := RemoveLeaf(acc, x / 2).value;
      }
      WithoutMatchingAt(env, kp, t, x + 1, next);
      forall y: nat ensures At(r, y) == if Cleared(env, kp, t, x, y) then None else At(acc, y) {
        ClearedStep(env, kp, t, x, y);
        if next != acc { assert At(next, y) == BlankedAt(acc, x / 2, None, y); }
      }
    }
  }

  lemma {:induction false} ClearedStep(env: Env, kp: KeyPackage, t: Tree, x: nat, y: nat)
    requires Valid(t) && x < |t|
    ensures Cleared(env, kp, t, x, y) <==>
      || Cleared(env, kp, t, x + 1, y)
      || (x % 2 == 0 && Matched(env, kp, t, x / 2) && (y == x || OnPath(x / 2, y)))
  {
    hide OnPath;
    if l: nat :| x <= 2 * l && Matched(env, kp, t, l) && (y == 2 * l || OnPath(l, y)) {
      if x != 2 * l { assert x + 1 <= 2 * l; }
    }
  }

  /** The newcomer can stand in `t` once the leaves it matches are gone. */
  ghost predicate AlongsideRest(env: Env, kp: KeyPackage, t: Tree) {
    && (forall l: nat | HasLeaf(t, l) && !Matched(env, kp, t, l) ::
          && kp.leaf.credential.ctype in LeafAt(t, l).value.capabilities.credentials
          && BesideLeaf(kp.leaf, LeafAt(t, l).value))
    && (forall x: nat | x % 2 == 1 && At(t, x).Some? && !Cleared(env, kp, t, 0, x) ::
          KeyOf(At(t, x).value) != kp.leaf.hpkeKey)
  }

  lemma {:induction false} AlongsideRestIff(env: Env, kp: KeyPackage, t: Tree)
    requires Valid(t) && WithoutMatching(env, kp, t, 0, t).Ok?
    ensures Valid(WithoutMatching(env, kp, t, 0, t).value)
    ensures Alongside(kp.leaf, WithoutMatching(env, kp, t, 0, t).value, None) <==> AlongsideRest(env, kp, t)
  {
    hide WithoutMatching, BesideLeaf;
    WithoutMatchingAt(env, kp, t, 0, t);
    var r := WithoutMatching(env, kp, t, 0, t).value;
    forall l: nat ensures LeafAt(r, l) == if Matched(env, kp, t, l) then None else LeafAt(t, l) {
      LeafCleared(env, kp, t, l);
      assert At(r, 2 * l) == if Cleared(env, kp, t, 0, 2 * l) then None else At(t, 2 * l);
    }
    forall x: nat ensures At(r, x) == if Cleared(env, kp, t, 0, x) then None else At(t, x) {}
    hide Cleared, Matched;
    assert forall l: nat | HasLeaf(r, l) :: LeafAt(r, l) == LeafAt(t, l) && HasLeaf(t, l);
  }

  lemma {:induction false} LeafCleared(env: Env, kp: KeyPackage, t: Tree, l: nat)
    ensures Cleared(env, kp, t, 0, 2 * l) <==> Matched(env, kp, t, l)
  {
    if k: nat :| Matched(env, kp, t, k) && (2 * l == 2 * k || OnPath(k, 2 * l)) { assert k == l; }
    if Matched(env, kp, t, l) { assert 0 <= 2 * l; }
  }

  lemma {:induction false} NoneRequired(exts: seq<Extension>)
    ensures forall caps :: Meets(WithoutRequired(exts), caps)
  {
    var rest := WithoutRequired(exts);
    NoRequirement(exts);
    forall i | 0 <= i < |rest| ensures !rest[i].RequiredCapabilities? { assert rest[i] in rest; }
  }

  lemma {:induction false} NoRequirement(exts: seq<Extension>)
    ensures forall e | e in WithoutRequired(exts) :: !e.RequiredCapabilities?
  {
    if exts != [] { NoRequirement(exts[1..]); }
  }

  /** What a member takes in, kind by kind. Required capabilities are left to the
      commit; an Add may be of a client that is still a member. */
  ghost predicate Receivable(
      env: Env, gc: GroupContext, t: Tree, p: Proposal, sender: Option<nat>, own: bool)
  {
    match p
    case Remove(r) => HasLeaf(t, r)
    case Add(kp) =>
      && (exists l: nat :: HasLeaf(t, l) && !Matched(env, kp, t, l))
      && PackageSound(env, kp, gc, own) && AlongsideRest(env, kp, t)
    case Update(leaf) =>
      && sender.Some? && leaf.source.FromUpdate?
      && (HasLeaf(t, sender.value) ==> LeafAt(t, sender.value).value.hpkeKey != leaf.hpkeKey)
      && ReplacementSound(env, leaf, sender.value, gc, t)
    case Psk(id) =>
      id.nonceFits && (id.ResumptionPsk? ==> id.usage.ApplicationUsage? || gc.epoch == 0)
    case ExternalInit(_) => false
    case _ => true
  }

  /** validateProposalOnReceipt accepts exactly these. */
  lemma {:induction false} ReceivableIff(
      env: Env, gc: GroupContext, t: Tree, p: Proposal, sender: Option<nat>, own: bool)
    requires TreeOk(t) && SomeMember(t)
    ensures OnReceipt(env, gc, t, p, sender, own) == Ok(true) <==> Receivable(env, gc, t, p, sender, own)
  {
    hide UnmergedOk, BothSides, ListsOrdered, Alongside, AlongsideRest, Meets, KeyPackageOk, UpdateOrCommitOk, Supports,
      WithoutMatching;
    var context := gc.(extensions := WithoutRequired(gc.extensions));
    NoneRequired(gc.extensions);
    match p
    case Remove(r) => if At(t, 2 * r).Some? { EvenIsLeaf(t, r); }
    case Add(kp) =>
      MatchingThrows(env, kp, t, 0, t);
      if WithoutMatching(env, kp, t, 0, t).Ok? {
        AlongsideRestIff(env, kp, t);
        PackageIff(env, kp, context, WithoutMatching(env, kp, t, 0, t).value, own);
      }
    case Update(leaf) => if sender.Some? { ReplacementIff(env, leaf, sender.value, context, t); }
    case _ =>
  }

  // ---- what is chosen ----

  /** Leaf `l` is a member's that a pending Remove names. */
  predicate Goes(st: ClientState, l: nat) {
    HasLeaf(st.tree, l) && NamedBy(st.pending, l)
  }

  /** Node `x` is the leaf of a member that goes, or above it. */
  ghost predicate Emptied(st: ClientState, x: nat) {
    exists l: nat :: Goes(st, l) && (x == 2 * l || OnPath(l, x))
  }

  /** `u` is the tree without the members that go. */
  ghost predicate NamedGone(st: ClientState, u: Tree) {
    TreeOk(u) && forall x: nat :: At(u, x) == if Emptied(st, x) then None else At(st.tree, x)
  }

  /** An Update this commit could not carry: the committer's own, or a leaving member's. */
  predicate Outdated(st: ClientState, item: ProposalWithSender) {
    item.proposal.Update? && item.leaf.Some? && (item.leaf.value == st.privatePath.leaf || Goes(st, item.leaf.value))
  }

  /** The `j`th pending proposal may go in, whatever else is pending. */
  ghost predicate Eligible(env: Env, st: ClientState, u: Tree, j: nat)
    requires j < |st.pending|
  {
    var item := st.pending[j].item;
    if item.proposal.Remove? then HasLeaf(st.tree, item.proposal.removed)
    else
      && !Outdated(st, item)
      && Receivable(env, st.context, u, item.proposal, item.leaf, item.leaf == Some(st.privatePath.leaf))
  }

  /** It is the first eligible one of its content. */
  ghost predicate KeptAt(env: Env, st: ClientState, u: Tree, j: nat) {
    && j < |st.pending| && Eligible(env, st, u, j)
    && forall i: nat | i < j && st.pending[i].item.proposal == st.pending[j].item.proposal :: !Eligible(env, st, u, i)
  }

  /** The proposals at the wanted positions from `n` on, in order. */
  ghost function Listed(ps: seq<Pending>, want: iset<nat>, n: nat): seq<Pending>
    decreases |ps| - n
  {
    if n >= |ps| then [] else (if n in want then [ps[n]] else []) + Listed(ps, want, n + 1)
  }

  ghost function KeptRemoves(env: Env, st: ClientState, u: Tree): iset<nat> {
    iset j: nat | KeptAt(env, st, u, j) && st.pending[j].item.proposal.Remove?
  }

  ghost function KeptOthers(env: Env, st: ClientState, u: Tree): iset<nat> {
    iset j: nat | KeptAt(env, st, u, j) && !st.pending[j].item.proposal.Remove?
  }

  function Contents(ps: seq<Pending>): seq<Proposal> {
    seq(|ps|, i requires 0 <= i < |ps| => ps[i].item.proposal)
  }

  /** All that the changes of extensions among `ps` list, in order. */
  function Gathered(ps: seq<Proposal>): seq<Extension> {
    if ps == [] then []
    else (if ps[0].GroupContextExtensions? then ps[0].extensions else []) + Gathered(ps[1..])
  }

  predicate ChangesExtensions(ps: seq<Proposal>) {
    exists p :: p in ps && p.GroupContextExtensions?
  }

  ghost function KeptList(env: Env, st: ClientState, u: Tree): seq<Pending> {
    Listed(st.pending, KeptRemoves(env, st, u), 0) + Listed(st.pending, KeptOthers(env, st, u), 0)
  }

  /** The extensions this commit sets: by what is kept, then by what is added by value. */
  ghost function Setting(env: Env, st: ClientState, u: Tree, extra: seq<Proposal>): seq<Extension> {
    var ps := Contents(KeptList(env, st, u)) + extra;
    if ChangesExtensions(ps) then Gathered(ps) else st.context.extensions
  }

  /** A newcomer or new leaf meets what `exts` require. */
  ghost predicate MeetsNew(p: Proposal, exts: seq<Extension>) {
    && (p.Add? ==> Meets(exts, p.keyPackage.leaf.capabilities))
    && (p.Update? ==> Meets(exts, p.leaf.capabilities))
  }

  ghost function ChosenOthers(env: Env, st: ClientState, u: Tree, extra: seq<Proposal>): iset<nat> {
    var exts := Setting(env, st, u, extra);
    iset j: nat | j < |st.pending| && KeptAt(env, st, u, j) && !st.pending[j].item.proposal.Remove?
      && MeetsNew(st.pending[j].item.proposal, exts)
  }

  // ---- the Removes come first ----

  ghost predicate Above(removed: set<nat>, x: nat) {
    exists l: nat :: l in removed && (x == 2 * l || OnPath(l, x))
  }

  ghost predicate Without(t: Tree, removed: set<nat>, u: Tree) {
    forall x: nat :: At(u, x) == if Above(removed, x) then None else At(t, x)
  }

  /** Where the filter stands after the Removes among the first `n`. */
  ghost predicate RemovedSoFar(st: ClientState, n: nat, k: Kept) {
    && n <= |st.pending|
    && (forall l: nat :: l in k.removed <==> HasLeaf(st.tree, l) && NamedBy(st.pending[..n], l))
    && Without(st.tree, k.removed, k.tree)
    && (forall p | p in k.kept :: p.item.proposal.Remove?)
    && KeptOk(st.tree, st.privatePath.leaf, k) && TreeOk(k.tree)
  }

  lemma {:induction false} NamedUpTo(ps: seq<Pending>, n: nat, l: nat)
    requires n < |ps|
    ensures NamedBy(ps[..n + 1], l) <==> NamedBy(ps[..n], l) || ps[n].item.proposal == Remove(l)
  {
    assert ps[..n + 1] == ps[..n] + [ps[n]];
    if NamedBy(ps[..n], l) {
      var p :| p in ps[..n] && p.item.proposal == Remove(l);
      assert p in ps[..n + 1];
    }
    if ps[n].item.proposal == Remove(l) { assert ps[n] in ps[..n + 1]; }
  }

  lemma {:induction false} KeptRemoveIff(env: Env, st: ClientState, u: Tree, n: nat)
    requires n < |st.pending| && st.pending[n].item.proposal.Remove?
    ensures var l := st.pending[n].item.proposal.removed;
      KeptAt(env, st, u, n) <==> HasLeaf(st.tree, l) && !NamedBy(st.pending[..n], l)
  {
    hide Receivable;
    var l := st.pending[n].item.proposal.removed;
    if NamedBy(st.pending[..n], l) {
      var p :| p in st.pending[..n] && p.item.proposal == Remove(l);
      var i: nat :| i < n && st.pending[..n][i] == p;
      assert st.pending[i] == p;
    }
    forall i: nat | i < n && st.pending[i].item.proposal == Remove(l) ensures NamedBy(st.pending[..n], l) {
      assert st.pending[i] in st.pending[..n];
    }
  }

  lemma {:induction false} WithoutOneMore(t: Tree, removed: set<nat>, u: Tree, l: nat)
    requires Valid(u) && Without(t, removed, u) && RemoveLeaf(u, l).Ok?
    ensures Without(t, removed + {l}, RemoveLeaf(u, l).value)
  {
    hide RemoveLeaf, OnPath;
    RemoveLeafAt(u, l);
    var r := RemoveLeaf(u, l).value;
    forall x: nat ensures At(r, x) == if Above(removed + {l}, x) then None else At(t, x) {
      assert At(r, x) == BlankedAt(u, l, None, x);
      assert l in removed + {l};
      if Above(removed, x) {
        var m: nat :| m in removed && (x == 2 * m || OnPath(m, x));
        assert m in removed + {l};
      }
    }
  }

  /** Whether one Remove is kept, and what it does. */
  lemma {:induction false} RemoveKept(env: Env, gc: GroupContext, t: Tree, own: nat, k: Kept, p: Pending)
    requires KeptOk(t, own, k) && TreeOk(k.tree) && p.item.proposal.Remove? && KeepStep(env, gc, own, k, p).Ok?
    ensures var l, r := p.item.proposal.removed, KeepStep(env, gc, own, k, p).value;
      if HasLeaf(t, l) && l !in k.removed
      then RemoveLeaf(k.tree, l).Ok? && r == Kept(RemoveLeaf(k.tree, l).value, k.removed + {l}, k.kept + [p])
      else r == k
  {
    hide WithoutMatching, KeyPackageOk, UpdateOrCommitOk, PsksOk, RemoveLeaf, UnmergedOk, BothSides, ListsOrdered;
    var l := p.item.proposal.removed;
    if Seen(k.kept, p.item.proposal) { var q :| q in k.kept && q.item.proposal == p.item.proposal; }
    if At(k.tree, 2 * l).Some? { EvenIsLeaf(k.tree, l); }
  }

  lemma {:induction false} OneMoreRemoved(st: ClientState, n: nat, k: Kept, r: Kept, l: nat)
    requires RemovedSoFar(st, n, k) && n < |st.pending| && st.pending[n].item.proposal == Remove(l)
    requires r == k || (HasLeaf(st.tree, l) && r.removed == k.removed + {l} && r.kept == k.kept + [st.pending[n]])
    requires r == k ==> !HasLeaf(st.tree, l) || l in k.removed
    requires Without(st.tree, r.removed, r.tree) && KeptOk(st.tree, st.privatePath.leaf, r) && TreeOk(r.tree)
    ensures RemovedSoFar(st, n + 1, r)
  {
    hide Without, KeptOk, TreeOk, NamedBy;
    forall m: nat ensures NamedBy(st.pending[..n + 1], m) <==> NamedBy(st.pending[..n], m) || m == l {
      NamedUpTo(st.pending, n, m);
    }
  }

  lemma {:induction false} RemoveStep(env: Env, st: ClientState, u: Tree, n: nat, k: Kept)
    requires RemovedSoFar(st, n, k) && n < |st.pending| && st.pending[n].item.proposal.Remove?
    requires KeepStep(env, st.context, st.privatePath.leaf, k, st.pending[n]).Ok?
    ensures var r := KeepStep(env, st.context, st.privatePath.leaf, k, st.pending[n]).value;
      && RemovedSoFar(st, n + 1, r)
      && r.kept == if KeptAt(env, st, u, n) then k.kept + [st.pending[n]] else k.kept
  {
    hide KeptOk, KeepStep, KeptAt, RemoveLeaf, Without, TreeOk, NamedBy, NoUpdates;
    SoundTree(st, k);
    var own, p := st.privatePath.leaf, st.pending[n];
    var l, r := p.item.proposal.removed, KeepStep(env, st.context, own, k, p).value;
    RemoveKept(env, st.context, st.tree, own, k, p);
    KeptRemoveIff(env, st, u, n);
    if r != k {
      assert NoUpdates(k.kept) by { OnlyRemoves(k.kept); }
      KeepRemoveOk(env, st.context, st.tree, own, k, p);
      WithoutOneMore(st.tree, k.removed, k.tree, l);
      RemoveKeepsTree(k.tree, l);
    }
    OneMoreRemoved(st, n, k, r, l);
  }

  lemma {:induction false} SoundTree(st: ClientState, k: Kept)
    requires KeptOk(st.tree, st.privatePath.leaf, k)
    ensures Valid(k.tree)
  {
  }

  lemma {:induction false} OnlyRemoves(kept: seq<Pending>)
    requires forall p | p in kept :: p.item.proposal.Remove?
    ensures NoUpdates(kept)
  {
  }

  lemma {:induction false} OtherSoFar(st: ClientState, n: nat, k: Kept)
    requires RemovedSoFar(st, n, k) && n < |st.pending| && !st.pending[n].item.proposal.Remove?
    ensures RemovedSoFar(st, n + 1, k)
  {
    hide Without, KeptOk, TreeOk, NamedBy;
    forall l: nat ensures NamedBy(st.pending[..n + 1], l) <==> NamedBy(st.pending[..n], l) {
      NamedUpTo(st.pending, n, l);
    }
  }

  lemma {:induction false} NextRemove(ps: seq<Pending>, n: nat)
    requires n < |ps|
    ensures Removes(ps[n..]) == (if ps[n].item.proposal.Remove? then [ps[n]] else []) + Removes(ps[n + 1..])
    ensures Others(ps[n..]) == (if ps[n].item.proposal.Remove? then [] else [ps[n]]) + Others(ps[n + 1..])
  {
    assert ps[n..] == [ps[n]] + ps[n + 1..];
    assert ps[n..][1..] == ps[n + 1..];
  }

  lemma {:induction false} NoneLeft(ps: seq<Pending>)
    ensures Removes(ps[|ps|..]) == [] && Others(ps[|ps|..]) == []
    ensures forall want :: Listed(ps, want, |ps|) == []
  {
    assert ps[|ps|..] == [];
  }

  lemma {:induction false} ListedNext(ps: seq<Pending>, want: iset<nat>, n: nat)
    requires n < |ps|
    ensures Listed(ps, want, n) == (if n in want then [ps[n]] else []) + Listed(ps, want, n + 1)
  {
  }

  lemma {:induction false} KeepFirst(env: Env, gc: GroupContext, own: nat, k: Kept, p: Pending, rest: seq<Pending>)
    requires Valid(k.tree)
    ensures KeepAll(env, gc, own, k, [p] + rest) ==
      if KeepStep(env, gc, own, k, p).Err? then KeepStep(env, gc, own, k, p)
      else KeepAll(env, gc, own, KeepStep(env, gc, own, k, p).value, rest)
  {
    hide KeepStep;
    assert ([p] + rest)[1..] == rest;
  }

  lemma {:induction false} RemovesPass(env: Env, st: ClientState, u: Tree, n: nat, k: Kept)
    requires n <= |st.pending| && RemovedSoFar(st, n, k) && Valid(k.tree)
    requires KeepAll(env, st.context, st.privatePath.leaf, k, Removes(st.pending[n..])).Ok?
    ensures var r := KeepAll(env, st.context, st.privatePath.leaf, k, Removes(st.pending[n..])).value;
      && RemovedSoFar(st, |st.pending|, r)
      && r.kept == k.kept + Listed(st.pending, KeptRemoves(env, st, u), n)
    decreases |st.pending| - n
  {
    hide *;
    var gc, own, ps, want := st.context, st.privatePath.leaf, st.pending, KeptRemoves(env, st, u);
    if n == |ps| {
      NoneLeft(ps);
      KeepAllDone(env, gc, own, k);
    } else {
      var p, rest := ps[n], Removes(ps[n + 1..]);
      NextRemove(ps, n);
      ListedNext(ps, want, n);
      WantedRemove(env, st, u, n);
      var after := Listed(ps, want, n + 1);
      if p.item.proposal.Remove? {
        KeepFirst(env, gc, own, k, p, rest);
        RemoveStep(env, st, u, n, k);
        RemovesPass(env, st, u, n + 1, KeepStep(env, gc, own, k, p).value);
        assert k.kept + ([p] + after) == (k.kept + [p]) + after;
      } else {
        assert [] + rest == rest;
        OtherSoFar(st, n, k);
        RemovesPass(env, st, u, n + 1, k);
      }
      assert [] + after == after;
    }
  }

  lemma {:induction false} WantedRemove(env: Env, st: ClientState, u: Tree, n: nat)
    requires n < |st.pending|
    ensures n in KeptRemoves(env, st, u) <==> KeptAt(env, st, u, n) && st.pending[n].item.proposal.Remove?
    ensures n in KeptOthers(env, st, u) <==> KeptAt(env, st, u, n) && !st.pending[n].item.proposal.Remove?
  {
  }

  // ---- then the rest ----

  /** The tree what stays is checked against, and who has gone. */
  lemma {:induction false} AfterRemoves(st: ClientState, k: Kept)
    requires RemovedSoFar(st, |st.pending|, k)
    ensures NamedGone(st, k.tree) && forall l: nat :: l in k.removed <==> Goes(st, l)
  {
    hide OnPath, TreeOk, KeptOk;
    assert st.pending[..|st.pending|] == st.pending;
    forall l: nat ensures l in k.removed <==> Goes(st, l) {}
    forall x: nat ensures Above(k.removed, x) <==> Emptied(st, x) {
      if Above(k.removed, x) {
        var l: nat :| l in k.removed && (x == 2 * l || OnPath(l, x));
        assert Goes(st, l);
      }
      if Emptied(st, x) {
        var l: nat :| Goes(st, l) && (x == 2 * l || OnPath(l, x));
        assert l in k.removed;
      }
    }
  }

  /** Of the proposals before the `n`th that are no Removes, `k` has those kept. */
  ghost predicate OthersSoFar(env: Env, st: ClientState, u: Tree, n: nat, k: Kept) {
    && n <= |st.pending| && k.tree == u && (forall l: nat :: l in k.removed <==> Goes(st, l))
    && (forall q: Proposal | !q.Remove? :: Seen(k.kept, q) <==> EligibleBefore(env, st, u, n, q))
  }

  ghost predicate EligibleBefore(env: Env, st: ClientState, u: Tree, n: nat, q: Proposal) {
    exists i: nat :: i < n && i < |st.pending| && st.pending[i].item.proposal == q && Eligible(env, st, u, i)
  }

  lemma {:induction false} OtherStep(env: Env, st: ClientState, u: Tree, n: nat, k: Kept)
    requires TreeOk(u) && SomeMember(u) && OthersSoFar(env, st, u, n, k)
    requires n < |st.pending| && !st.pending[n].item.proposal.Remove?
    requires KeepStep(env, st.context, st.privatePath.leaf, k, st.pending[n]).Ok?
    ensures var r := KeepStep(env, st.context, st.privatePath.leaf, k, st.pending[n]).value;
      && OthersSoFar(env, st, u, n + 1, r)
      && r.kept == if KeptAt(env, st, u, n) then k.kept + [st.pending[n]] else k.kept
  {
    hide OnReceipt, TreeOk, SomeMember, Receivable, Goes, Seen;
    var own, p := st.privatePath.leaf, st.pending[n];
    ReceivableIff(env, st.context, u, p.item.proposal, p.item.leaf, p.item.leaf == Some(own));
    SeenMore(k.kept, p);
    forall q ensures EligibleBefore(env, st, u, n + 1, q) <==>
      EligibleBefore(env, st, u, n, q) || (p.item.proposal == q && Eligible(env, st, u, n)) {}
  }

  lemma {:induction false} PassedOver(env: Env, st: ClientState, u: Tree, n: nat, k: Kept)
    requires OthersSoFar(env, st, u, n, k) && n < |st.pending| && st.pending[n].item.proposal.Remove?
    ensures OthersSoFar(env, st, u, n + 1, k)
  {
    hide Eligible, Seen, Goes;
    forall q: Proposal | !q.Remove?
      ensures EligibleBefore(env, st, u, n + 1, q) <==> EligibleBefore(env, st, u, n, q) {}
  }

  lemma {:induction false} OthersPass(env: Env, st: ClientState, u: Tree, n: nat, k: Kept)
    requires TreeOk(u) && SomeMember(u) && n <= |st.pending| && OthersSoFar(env, st, u, n, k) && Valid(k.tree)
    requires KeepAll(env, st.context, st.privatePath.leaf, k, Others(st.pending[n..])).Ok?
    ensures KeepAll(env, st.context, st.privatePath.leaf, k, Others(st.pending[n..])).value.kept
      == k.kept + Listed(st.pending, KeptOthers(env, st, u), n)
    decreases |st.pending| - n
  {
    hide *;
    var gc, own, ps, want := st.context, st.privatePath.leaf, st.pending, KeptOthers(env, st, u);
    if n == |ps| {
      NoneLeft(ps);
      KeepAllDone(env, gc, own, k);
    } else {
      var p, rest := ps[n], Others(ps[n + 1..]);
      NextRemove(ps, n);
      ListedNext(ps, want, n);
      WantedRemove(env, st, u, n);
      var after := Listed(ps, want, n + 1);
      if p.item.proposal.Remove? {
        assert [] + rest == rest;
        PassedOver(env, st, u, n, k);
        OthersPass(env, st, u, n + 1, k);
      } else {
        KeepFirst(env, gc, own, k, p, rest);
        OtherStep(env, st, u, n, k);
        OthersPass(env, st, u, n + 1, KeepStep(env, gc, own, k, p).value);
        assert k.kept + ([p] + after) == (k.kept + [p]) + after;
      }
      assert [] + after == after;
    }
  }

  // ---- and of those, what meets the extensions set ----

  lemma {:induction false} GatheredNext(p: Proposal, rest: seq<Proposal>, gces: seq<seq<Extension>>)
    requires Flatten(gces) == Gathered(rest) && (gces != [] <==> ChangesExtensions(rest))
    ensures Flatten(GceOf(p) + gces) == Gathered([p] + rest)
    ensures GceOf(p) + gces != [] <==> ChangesExtensions([p] + rest)
  {
    var all := [p] + rest;
    assert all[1..] == rest;
    if p.GroupContextExtensions? {
      assert ([p.extensions] + gces)[1..] == gces;
      assert p in all;
    } else {
      assert [] + gces == gces && [] + Gathered(rest) == Gathered(rest);
      if ChangesExtensions(rest) {
        var q :| q in rest && q.GroupContextExtensions?;
        assert q in all;
      }
    }
  }

  lemma {:induction false} GcesGathered(kept: seq<Pending>, extra: seq<Proposal>)
    ensures Flatten(AllGces(kept, extra)) == Gathered(Contents(kept) + extra)
    ensures AllGces(kept, extra) != [] <==> ChangesExtensions(Contents(kept) + extra)
    decreases |kept|, |extra|
  {
    hide GceOf, Gathered, Flatten, ChangesExtensions;
    var ps := Contents(kept) + extra;
    if kept != [] {
      var rest := Contents(kept[1..]) + extra;
      GcesGathered(kept[1..], extra);
      assert ps == [kept[0].item.proposal] + rest;
      GatheredNext(kept[0].item.proposal, rest, AllGces(kept[1..], extra));
    } else if extra != [] {
      var rest := Contents([]) + extra[1..];
      GcesGathered([], extra[1..]);
      assert ps == [extra[0]] + rest;
      GatheredNext(extra[0], rest, AllGces([], extra[1..]));
    } else {
      assert ps == [];
      NoneGathered();
    }
  }

  lemma {:induction false} NoneGathered()
    ensures Flatten([]) == Gathered([]) == [] && !ChangesExtensions([])
  {
  }

  lemma {:induction false} CapableIs(p: Proposal, exts: seq<Extension>)
    ensures Capable(p, exts) <==> MeetsNew(p, exts)
  {
    if p.Add? { MeetsIff(exts, p.keyPackage.leaf.capabilities); }
    if p.Update? { MeetsIff(exts, p.leaf.capabilities); }
  }

  lemma {:induction false} CapableBoth(a: seq<Pending>, b: seq<Pending>, exts: seq<Extension>)
    ensures CapableOnly(a + b, exts) == CapableOnly(a, exts) + CapableOnly(b, exts)
  {
    hide Capable;
    if a == [] {
      assert a + b == b && [] + CapableOnly(b, exts) == CapableOnly(b, exts);
    } else {
      assert (a + b)[1..] == a[1..] + b;
      CapableBoth(a[1..], b, exts);
    }
  }

  lemma {:induction false} CapableListed(
      ps: seq<Pending>, want: iset<nat>, some: iset<nat>, exts: seq<Extension>, n: nat)
    requires forall j: nat | j < |ps| ::
        j in some <==> j in want && MeetsNew(ps[j].item.proposal, exts)
    ensures CapableOnly(Listed(ps, want, n), exts) == Listed(ps, some, n)
    decreases |ps| - n
  {
    hide Capable, MeetsNew;
    if n < |ps| {
      var after := Listed(ps, want, n + 1);
      CapableListed(ps, want, some, exts, n + 1);
      CapableIs(ps[n].item.proposal, exts);
      if n in want {
        assert ([ps[n]] + after)[1..] == after;
      } else {
        assert [] + after == after;
      }
    }
  }

  /** The state the filter starts from, and the state its Removes leave. */
  lemma {:induction false} RemovesDone(env: Env, st: ClientState)
    requires TreeOk(st.tree) && SomeMember(st.tree)
    requires KeepAll(env, st.context, st.privatePath.leaf, Start(st.tree), Removes(st.pending)).Ok?
    ensures var k := KeepAll(env, st.context, st.privatePath.leaf, Start(st.tree), Removes(st.pending)).value;
      && NamedGone(st, k.tree) && SomeMember(k.tree) && Valid(k.tree)
      && k.kept == Listed(st.pending, KeptRemoves(env, st, k.tree), 0)
      && OthersSoFar(env, st, k.tree, 0, k)
  {
    hide KeepAll, KeptAt, Eligible, NamedGone, UnmergedOk, BothSides, ListsOrdered;
    var gc, own, ps, k0 := st.context, st.privatePath.leaf, st.pending, Start(st.tree);
    assert ps[0..] == ps && ps[..0] == [];
    assert RemovedSoFar(st, 0, k0);
    var k := KeepAll(env, gc, own, k0, Removes(ps)).value;
    RemovesPass(env, st, k.tree, 0, k0);
    RemovesThrow(env, gc, st.tree, own, k0, Removes(ps));
    AfterRemoves(st, k);
    var want := KeptRemoves(env, st, k.tree);
    assert [] + Listed(ps, want, 0) == Listed(ps, want, 0);
    forall q: Proposal | !q.Remove? ensures !Seen(k.kept, q) {}
  }

  lemma {:induction false} KeptIs(env: Env, st: ClientState)
    requires TreeOk(st.tree) && SomeMember(st.tree)
    requires KeepAll(env, st.context, st.privatePath.leaf, Start(st.tree), Removes(st.pending) + Others(st.pending)).Ok?
    ensures exists u ::
        && NamedGone(st, u)
        && KeepAll(
             env, st.context, st.privatePath.leaf, Start(st.tree), Removes(st.pending) + Others(st.pending)).value.kept
           == KeptList(env, st, u)
  {
    hide *;
    var gc, own, ps, k0 := st.context, st.privatePath.leaf, st.pending, Start(st.tree);
    assert ps[0..] == ps;
    StartTree(st.tree);
    KeepAllAppend(env, gc, own, k0, Removes(ps), Others(ps));
    RemovesDone(env, st);
    var k := KeepAll(env, gc, own, k0, Removes(ps)).value;
    GoneOk(st, k.tree);
    OthersPass(env, st, k.tree, 0, k);
    KeptListIs(env, st, k.tree);
  }

  lemma {:induction false} StartTree(t: Tree)
    requires TreeOk(t)
    ensures Valid(Start(t).tree)
  {
  }

  lemma {:induction false} GoneOk(st: ClientState, u: Tree)
    requires NamedGone(st, u)
    ensures TreeOk(u)
  {
  }

  lemma {:induction false} KeptListIs(env: Env, st: ClientState, u: Tree)
    ensures KeptList(env, st, u) ==
      Listed(st.pending, KeptRemoves(env, st, u), 0) + Listed(st.pending, KeptOthers(env, st, u), 0)
  {
  }

  lemma {:induction false} CapableKept(env: Env, st: ClientState, u: Tree, extra: seq<Proposal>)
    ensures
      CapableOnly(KeptList(env, st, u), ExtensionsAfter(st.context.extensions, KeptList(env, st, u), extra))
      == Listed(st.pending, KeptRemoves(env, st, u), 0) + Listed(st.pending, ChosenOthers(env, st, u, extra), 0)
  {
    hide KeptAt, CapableOnly, Listed, Meets, Gathered, ChangesExtensions;
    var kept, exts := KeptList(env, st, u), Setting(env, st, u, extra);
    GcesGathered(kept, extra);
    assert ExtensionsAfter(st.context.extensions, kept, extra) == exts;
    var removes, others := KeptRemoves(env, st, u), KeptOthers(env, st, u);
    CapableBoth(Listed(st.pending, removes, 0), Listed(st.pending, others, 0), exts);
    CapableListed(st.pending, removes, removes, exts, 0);
    CapableListed(st.pending, others, ChosenOthers(env, st, u, extra), exts, 0);
  }

  /** The choice in full. First every Remove of a member, once; then, in order,
      each first eligible proposal of its content that meets the extensions this
      commit sets. Nothing else is chosen, and none of these is left out; the
      commit names them by reference in this order. */
  lemma {:induction false} ChosenIs(env: Env, st: ClientState, extra: seq<Proposal>)
    requires TreeOk(st.tree) && SomeMember(st.tree) && FilterPendingProposals(env, st, extra).Ok?
    ensures exists u ::
        && NamedGone(st, u)
        && Chosen(env, st, extra) == Ok(
             Listed(st.pending, KeptRemoves(env, st, u), 0) + Listed(st.pending, ChosenOthers(env, st, u, extra), 0))
    ensures var refs, chosen := FilterPendingProposals(env, st, extra).value, Chosen(env, st, extra).value;
      |refs| == |chosen| && forall i | 0 <= i < |refs| :: refs[i] == chosen[i].ref
  {
    hide KeepAll, Listed, KeptRemoves, ChosenOthers, NamedGone, CapableOnly, ExtensionsAfter, KeptList, TreeOk,
      SomeMember, Refs;
    StartTree(st.tree);
    KeptIs(env, st);
    var own, ordered := st.privatePath.leaf, Removes(st.pending) + Others(st.pending);
    var u :| NamedGone(st, u) &&
      KeepAll(env, st.context, own, Start(st.tree), ordered).value.kept == KeptList(env, st, u);
    CapableKept(env, st, u, extra);
  }
}

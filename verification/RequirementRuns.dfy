/** Over any run a client's group keeps to its own requirement: in every state, every
    member has what the group's extensions require (section 7.2 of RFC 9420). */
module RequirementRuns {
  import opened Options
  import opened Terms
  import opened TreeMath
  import opened RatchetTree
  import opened UpdatePaths
  import opened LeafValidation
  import opened ClientStates
  import opened PrivateKeys
  import opened UnmergedLeaves
  import opened Proposals
  import opened ProposalRules
  import opened Membership
  import opened Commits
  import opened Joins
  import opened Messages
  import opened Convergence
  import opened AcceptedCommits
  import opened Lifecycle
  import opened MemberSteps
  import opened MemberRuns
  import opened EpochContents
  import opened GroupExtensions
  import ClientRuns
  import FilterPending
  import Groups

  ghost predicate Required(st: ClientState) {
    AllMeet(st.tree, st.context.extensions)
  }

  lemma {:induction false} SameRequired(st: ClientState, n: ClientState)
    requires Required(st) && n.tree == st.tree && n.context == st.context
    ensures Required(n)
  {
  }

  lemma {:induction false} FitRequired(
      st: ClientState, all: seq<ProposalWithSender>, pathLeaf: Option<LeafNode>, n: ClientState)
    requires KeepsFit(st, all, pathLeaf, n) && Required(st)
    ensures Required(n)
  {
    hide AllMeet, AllSupport, NewSupport;
  }

  lemma {:induction false} CommitRequired(env: Env, st: ClientState, m: CommitMessage, accept: bool)
    requires MemberInOrder(st) && SentByOther(st, m.content) && Valid(st.tree) && Required(st)
    requires ProcessCommit(env, st, m, accept).Ok?
    ensures Required(ProcessCommit(env, st, m, accept).value)
  {
    hide ProcessCommit, MemberOk, ListsBelow, Required, KeepsFit, Resolve;
    var n := ProcessCommit(env, st, m, accept).value;
    if !accept {
      Groups.Rejected(env, st, m);
    } else if n == RemovedState(st) {
      SameRequired(st, n);
    } else {
      AcceptedFits(env, st, m);
      FitRequired(
        st, Resolve(m.content.commit.proposals, st.pending, SenderLeaf(m.content.sender),
          SenderTypeOf(m.content.sender)).value, PathLeaf(m.content.commit), n);
    }
  }

  lemma {:induction false} ReceiveRequired(env: Env, st: ClientState, m: Incoming, accept: bool)
    requires MemberInOrder(st) && GenuineBody(st, m.body) && Valid(st.tree) && Required(st)
    requires Receive(env, st, m, accept).Ok?
    ensures Required(Receive(env, st, m, accept).value)
  {
    hide ProcessCommit, FilterPending.OnReceipt, MemberOk, ListsBelow, CapacityError, SentByOther, Required;
    var stepped := if m.wireformat.PublicWire? then st else st.(secretTree := Stepped(st.secretTree));
    SteppingKeeps(st, stepped);
    SameRequired(st, stepped);
    var n := Receive(env, st, m, accept).value;
    if m.body.Committed? && (m.wireformat.PublicWire? || m.epoch >= st.context.epoch) {
      SentSame(st, stepped, m.body.message.content);
      CommitRequired(env, stepped, m.body.message, accept);
    } else {
      SameRequired(st, n);
    }
  }

  /** Any input. */
  lemma {:induction false} InputRequired(env: Env, st: ClientState, i: Input)
    requires StateOk(st) && MemberInOrder(st) && Genuine(st, i) && Required(st)
    ensures Valid(st.tree) && Required(Next(env, st, i))
  {
    hide StateOk, Receive, CreateCommit, MemberOk, ListsBelow, SendProposal, CreateUpdate, GenuineBody, Required,
      KeepsFit, Resolve;
    OkValid(st);
    match i
    case Receives(m, accept) => if Receive(env, st, m, accept).Ok? { ReceiveRequired(env, st, m, accept); }
    case Commits(o, seed) =>
      if CreateCommit(env, st, o, seed).Ok? {
        CommitterFits(env, st, o, seed);
        var r := CreateCommit(env, st, o, seed).value;
        FitRequired(
          st, Resolve(r.message.content.commit.proposals, st.pending, Some(st.privatePath.leaf), MemberType).value,
          PathLeaf(r.message.content.commit), r.state);
      }
    case _ =>
      SendStep(env, st, i);
      SameRequired(st, Next(env, st, i));
  }

  lemma {:induction false} RunRequired(env: Env, st: ClientState, inputs: seq<Input>)
    requires StateOk(st) && MemberInOrder(st) && GenuineRun(env, st, inputs) && Required(st)
    ensures Required(Run(env, st, inputs))
    decreases |inputs|
  {
    hide StateOk, Next, Advances, Moves, MemberInOrder, Genuine, Required;
    OkValid(st);
    if inputs != [] {
      NextStep(env, st, inputs[0]);
      InputKeeps(env, st, inputs[0]);
      InputRequired(env, st, inputs[0]);
      RunRequired(env, Next(env, st, inputs[0]), inputs[1..]);
    }
  }

  // ---- the first state ----

  lemma {:induction false} AcceptedMeet(env: Env, t: Tree, gc: GroupContext)
    requires TreeAccepted(env, t, gc)
    ensures AllMeet(t, gc.extensions)
  {
    hide Meets, MeetsRequired, SupportedByEvery, SupportsOthers, KeysUnlikeOthers, KeyUnlikeParents,
      ExtensionsSupported, RootHash, LeafValidation.KeysDistinct, UnmergedOk;
    forall l: nat | HasLeaf(t, l) ensures Meets(gc.extensions, LeafAt(t, l).value.capabilities) {
      assert NodeLeaf(t, 2 * l) == LeafAt(t, l) && 2 * l < |t|;
      assert LeafAccepted(env, t, gc, 2 * l, NodeLeaf(t, 2 * l).value);
      MeetsIff(gc.extensions, LeafAt(t, l).value.capabilities);
    }
  }

  lemma {:induction false} JoinerLeaves(
      env: Env, gi: GroupInfo, kp: KeyPackage, keys: PrivateKeyPackage, resync: bool, seed: Secret)
    requires Valid(gi.tree) && DraftExternal(env, gi, kp, keys, resync, seed).Ok?
    ensures var c := DraftExternal(env, gi, kp, keys, resync, seed).value.created;
      OneNewLeaf(gi.tree, c.path.leaf, c.tree) && c.path.leaf.capabilities == kp.leaf.capabilities
  {
    hide CreateUpdatePath, AddLeaf, RemoveLeaf, OnPath;
    var d := DraftExternal(env, gi, kp, keys, resync, seed).value;
    AddLeafAt(d.base, kp.leaf);
    var (r, n) := AddLeaf(d.base, kp.leaf);
    assert At(r, n) == AddedAt(d.base, kp.leaf, n, n);
    CreatedLeaves(r, n / 2, gi.context, keys.signKey, seed, [], NoPatch);
    var v, leaf := d.created.tree, d.created.path.leaf;
    forall l: nat | l != n / 2 && HasLeaf(v, l) ensures LeafAt(v, l) == LeafAt(gi.tree, l) {
      assert LeafAt(v, l) == LeafAt(r, l);
      assert At(r, 2 * l) == AddedAt(d.base, kp.leaf, n, 2 * l);
      if d.removes != [] {
        RemoveLeafAt(gi.tree, d.removes[0]);
        assert At(d.base, 2 * l) == BlankedAt(gi.tree, d.removes[0], None, 2 * l);
      }
    }
    assert IsNewLeaf(gi.tree, leaf, v, n / 2);
  }

  lemma {:induction false} NewLeafMeets(t: Tree, leaf: LeafNode, v: Tree, exts: seq<Extension>)
    requires OneNewLeaf(t, leaf, v) && AllMeet(t, exts)
    ensures AllMeet(v, exts) <==> Meets(exts, leaf.capabilities)
  {
    hide Meets;
    var x: nat :| IsNewLeaf(t, leaf, v, x);
    assert HasLeaf(v, x);
    forall l: nat | l != x && HasLeaf(v, l) ensures HasLeaf(t, l) && LeafAt(v, l) == LeafAt(t, l) {
      assert LeafAt(v, l) == LeafAt(t, l);
    }
  }

  lemma {:induction false} ExternalRequiredIff(env: Env, e: ClientRuns.Entry)
    requires e.JoinsExternally? && ClientRuns.Enter(env, e).Ok?
    ensures var st := ClientRuns.Enter(env, e).value;
      Required(st) <==> Meets(st.context.extensions, e.keyPackage.leaf.capabilities)
  {
    hide DraftExternal, TreeAccepted, Meets, RootHash, NewSecretTree, ExternalKeys, ConfirmationTag, InitializeEpoch,
      CommitSecret, ExternalContent, AllMeet, OneNewLeaf;
    var gi := e.info.info;
    AcceptedMeet(env, gi.tree, gi.context);
    AcceptedValid(env, gi.tree, gi.context);
    JoinerLeaves(env, gi, e.keyPackage, e.keys, e.options.resync, e.seed);
    var c := DraftExternal(env, gi, e.keyPackage, e.keys, e.options.resync, e.seed).value.created;
    NewLeafMeets(gi.tree, c.path.leaf, c.tree, gi.context.extensions);
  }

  lemma {:induction false} AcceptedValid(env: Env, t: Tree, gc: GroupContext)
    requires TreeAccepted(env, t, gc)
    ensures Valid(t)
  {
    hide LeavesAccepted, RootHash, LeafValidation.KeysDistinct, UnmergedOk;
  }

  lemma {:induction false} CreatedRequiredIff(env: Env, e: ClientRuns.Entry)
    requires e.Creates? && ClientRuns.Enter(env, e).Ok?
    ensures Required(ClientRuns.Enter(env, e).value) <==> Meets(e.extensions, e.keyPackage.leaf.capabilities)
  {
    hide Meets, RootHash, NewSecretTree, ConfirmationTag, DeriveEpochKeys;
    var t: Tree := [Some(Leaf(e.keyPackage.leaf))];
    assert forall l: nat :: HasLeaf(t, l) <==> l == 0;
    assert LeafAt(t, 0) == Some(e.keyPackage.leaf);
  }

  lemma {:induction false} WelcomedRequired(env: Env, e: ClientRuns.Entry)
    requires e.IsWelcomed? && ClientRuns.Enter(env, e).Ok?
    ensures Required(ClientRuns.Enter(env, e).value)
  {
    hide JoinKeys, DeriveKeySchedule, NewSecretTree, InfoError, PskSecret, ConfirmationTag, TreeAccepted, AllMeet;
    AcceptedMeet(env, e.welcome.info.tree, e.welcome.info.context);
  }

  /** A client that is let in by a Welcome starts so; one that creates the group or
      joins by its own commit does when its own leaf has what is required, which
      neither of them checks. */
  lemma {:induction false} EntryRequiredIff(env: Env, e: ClientRuns.Entry)
    requires ClientRuns.Enter(env, e).Ok?
    ensures var st := ClientRuns.Enter(env, e).value;
      Required(st) <==> e.IsWelcomed? || Meets(st.context.extensions, e.keyPackage.leaf.capabilities)
  {
    hide ClientRuns.Enter, Meets, Required;
    match e
    case Creates(_, _, _, exts, _, _, _) =>
      CreatedRequiredIff(env, e);
      CreatedExtensions(env, e);
    case IsWelcomed(_, _, _, _, _) => WelcomedRequired(env, e);
    case JoinsExternally(_, _, _, _, _) => ExternalRequiredIff(env, e);
  }

  lemma {:induction false} CreatedExtensions(env: Env, e: ClientRuns.Entry)
    requires e.Creates? && ClientRuns.Enter(env, e).Ok?
    ensures ClientRuns.Enter(env, e).value.context.extensions == e.extensions
  {
    hide RootHash, NewSecretTree, ConfirmationTag, DeriveEpochKeys;
  }

  /** In every state a client reaches, every member of its group, itself included,
      has what the group's extensions require, whatever commits it was sent. */
  lemma {:induction false} AlwaysRequired(env: Env, e: ClientRuns.Entry, inputs: seq<Input>)
    requires ClientRuns.Enter(env, e).Ok?
    requires e.IsWelcomed? ||
      Meets(ClientRuns.Enter(env, e).value.context.extensions, e.keyPackage.leaf.capabilities)
    requires ClientRuns.FirstKeysExact(e, ClientRuns.Enter(env, e).value)
    ensures var first := ClientRuns.Enter(env, e).value;
      StateOk(first) && (GenuineRun(env, first, inputs) ==>
        var n := Run(env, first, inputs);
        forall l: nat | HasLeaf(n.tree, l) :: Meets(n.context.extensions, LeafAt(n.tree, l).value.capabilities))
  {
    hide ClientRuns.Enter, StateOk, Run, MemberInOrder, GenuineRun, Meets, ClientRuns.SecretCovers;
    ClientRuns.EntryOk(env, e);
    ClientRuns.EntryExactIff(env, e);
    EntryRequiredIff(env, e);
    var first := ClientRuns.Enter(env, e).value;
    if GenuineRun(env, first, inputs) { RunRequired(env, first, inputs); }
  }
}

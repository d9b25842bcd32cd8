/** What a confirmation tag binds: two clients whose states carry one tag are in one
    epoch, whoever made the commits that took them there and whatever they held before. */
module EpochTags {
  import opened Options
  import opened Terms
  import opened TreeMath
  import opened RatchetTree
  import opened ParentHashes
  import opened UpdatePaths
  import opened LeafValidation
  import opened ClientStates
  import opened PrivateKeys
  import opened Proposals
  import opened Commits
  import opened Agreement
  import opened Joins
  import opened Messages
  import opened FilterPending
  import opened Lifecycle

  /** The state's schedule, tag and tree belong to its context. */
  ghost predicate Bound(st: ClientState) {
    && Valid(st.tree) && st.context.treeHash == RootHash(st.tree)
    && st.tag == ConfirmationTag(st.schedule, st.context)
    && exists joiner, psk :: st.schedule == DeriveEpochKeys(EpochSecret(joiner, psk, st.context))
  }

  // ---- a tree hash tells the tree ----

  lemma {:induction false} SameHashSameNode(t: Tree, u: Tree, x: nat, y: nat)
    requires TreeHash(t, x) == TreeHash(u, y)
    ensures x == y
    decreases Level(x)
  {
    hide Lo, Hi, Level, Left, Right, Parent, LeafAt;
    if x % 2 == 1 && y % 2 == 1 {
      Children(x);
      Children(y);
      SameHashSameNode(t, u, Left(x), Left(y));
    }
  }

  lemma {:induction false} SameHashAt(t: Tree, u: Tree, x: nat, n: nat)
    requires Sound(t) && Sound(u) && TreeHash(t, x) == TreeHash(u, x) && Under(n, x)
    ensures At(t, n) == At(u, n)
    decreases Level(x)
  {
    hide Lo, Hi, Level, Left, Right;
    Span(x);
    if x % 2 == 0 {
      OnlySelf(n, x);
      assert LeafAt(t, x / 2) == LeafAt(u, x / 2);
    } else {
      Children(x);
      Span(n);
      if n < x {
        SameHashAt(t, u, Left(x), n);
      } else if n > x {
        SameHashAt(t, u, Right(x), n);
      }
    }
  }

  lemma {:induction false} OnlySelf(n: nat, x: nat)
    requires Under(n, x) && x % 2 == 0
    ensures n == x
  {
  }

  /** Two full trees with one root hash are one tree. */
  lemma {:induction false} SameHashSameTree(t: Tree, u: Tree)
    requires Valid(t) && Valid(u) && RootHash(t) == RootHash(u)
    ensures t == u
  {
    hide Sound, TreeHash;
    var x, y := Root(|t|), Root(|u|);
    SameHashSameNode(t, u, x, y);
    RootSpan(|t|);
    RootSpan(|u|);
    assert |t| == |u|;
    forall n | 0 <= n < |t| ensures t[n] == u[n] {
      AllUnderRoot(n, |t|);
      SameHashAt(t, u, x, n);
      assert At(t, n) == t[n] && At(u, n) == u[n];
    }
  }

  lemma {:induction false} AllUnderRoot(n: nat, size: nat)
    requires Full(size) && n < size
    ensures Under(n, Root(size))
  {
    RootSpan(size);
  }

  /** One tag, one epoch. */
  lemma {:induction false} SameTagSameEpoch(a: ClientState, b: ClientState)
    requires Bound(a) && Bound(b) && a.tag == b.tag
    ensures SameEpoch(a, b)
  {
    hide RootHash, Valid;
    var j, p :| a.schedule == DeriveEpochKeys(EpochSecret(j, p, a.context));
    var k, q :| b.schedule == DeriveEpochKeys(EpochSecret(k, q, b.context));
    assert EpochSecret(j, p, a.context) == EpochSecret(k, q, b.context);
    SameHashSameTree(a.tree, b.tree);
  }

  // ---- every way into an epoch binds it ----

  lemma {:induction false} UpdateHash(
      path: Option<UpdatePath>, sender: Sender, t: Tree, own: PrivatePath, gc: GroupContext, exclude: seq<nat>)
    requires Valid(t) && ApplyTreeUpdate(path, sender, t, own, gc, exclude).Ok?
    ensures var u := ApplyTreeUpdate(path, sender, t, own, gc, exclude).value;
      Valid(u.tree) && u.treeHash == RootHash(u.tree)
  {
    hide AddLeaf, ReceivePath, PathKeyError, FilteredPath, CalculateParentHash, RootHash;
    if path.Some? && !sender.Member? { AddLeafAt(t, path.value.leaf); }
  }

  /** An accepted commit, from whomever. */
  lemma {:induction false} ReceivedBound(env: Env, b: ClientState, m: CommitMessage)
    requires Valid(b.tree) && ProcessCommit(env, b, m, true).Ok?
    ensures var n := ProcessCommit(env, b, m, true).value;
      n == RemovedState(b) || (Bound(n) && n.tag == m.tag)
  {
    hide ApplyProposals, PathError, ApplyTreeUpdate, RootHash, AddHistory, NewSecretTree, PruneBlanked, MergePaths;
    var c, sender := m.content.commit, m.content.sender;
    var applied := ApplyProposals(
      env, b, c.proposals, SenderLeaf(sender), false, PathLeaf(c), SenderTypeOf(sender)).value;
    ApplyProposalsValid(env, b, c.proposals, SenderLeaf(sender), false, PathLeaf(c), SenderTypeOf(sender));
    if !applied.selfRemoved {
      var key, gc := AppliedUpdateKey(b.updateKeys, c.proposals), CheckedContext(b, applied.kind);
      var own, exclude := OwnPath(b, key), ReceiverExcluded(applied.kind, applied.tree);
      UpdateHash(c.path, sender, applied.tree, own, gc, exclude);
      var update := ApplyTreeUpdate(c.path, sender, applied.tree, own, gc, exclude).value;
      var context := NextEpochContext(gc, m.content, m.signature, update.treeHash, b.tag);
      var init := if applied.kind.ExternalCommit? then applied.kind.initSecret else b.schedule.init;
      var joiner := JoinerSecret(init, update.commitSecret, context);
      assert ProcessCommit(env, b, m, true).value.schedule
        == DeriveEpochKeys(EpochSecret(joiner, applied.pskSecret, context));
    }
  }

  lemma {:induction false} OwnBound(env: Env, st: ClientState, o: CommitOptions, seed: Secret)
    requires Valid(st.tree) && CreateCommit(env, st, o, seed).Ok?
    ensures var r := CreateCommit(env, st, o, seed).value; Bound(r.state) && r.state.tag == r.message.tag
  {
    hide ApplyProposals, DraftPath, CreateWelcome, RootHash, CommitSecret, DraftContent, NewSecretTree, AddHistory,
      CommitterPath;
    DraftValid(env, st, o, seed);
    var d := DraftCommit(env, st, o, seed).value;
    var n := CommitterState(st, o, d);
    var joiner := JoinerSecret(st.schedule.init, CommitSecret(d.created), n.context);
    assert n.schedule == DeriveEpochKeys(EpochSecret(joiner, d.applied.pskSecret, n.context));
  }

  lemma {:induction false} WelcomedBound(
      env: Env, w: Welcome, kp: KeyPackage, keys: PrivateKeyPackage, retain: int, maxPending: int)
    requires JoinGroup(env, w, kp, keys, retain, maxPending).Ok?
    ensures var n := JoinGroup(env, w, kp, keys, retain, maxPending).value; Bound(n) && n.tag == w.info.tag
  {
    hide JoinKeys, NewSecretTree, InfoError, PskSecret, LeavesAccepted, RootHash, LeafValidation.KeysDistinct;
    var n := JoinGroup(env, w, kp, keys, retain, maxPending).value;
    var secrets := FindSealed(w.secrets, kp).value.secrets;
    var psk := PskSecret(env, secrets.psks, Zero, 0, |secrets.psks|).value;
    assert n.schedule == DeriveEpochKeys(EpochSecret(secrets.joiner, psk, n.context));
  }

  lemma {:induction false} DraftHash(
      env: Env, gi: GroupInfo, kp: KeyPackage, keys: PrivateKeyPackage, resync: bool, seed: Secret)
    requires Valid(gi.tree) && DraftExternal(env, gi, kp, keys, resync, seed).Ok?
    ensures var c := DraftExternal(env, gi, kp, keys, resync, seed).value.created;
      Valid(c.tree) && c.treeHash == RootHash(c.tree)
  {
    hide PathTree, NewSenderLeaf, SealPath, SecretsAbove, RemoveLeaf;
    var d := DraftExternal(env, gi, kp, keys, resync, seed).value;
    AddLeafAt(d.base, kp.leaf);
  }

  lemma {:induction false} JoinedBound(
      env: Env, e: ExternalInfo, kp: KeyPackage, keys: PrivateKeyPackage, o: ExternalOptions, seed: Secret)
    requires JoinExternal(env, e, kp, keys, o, seed).Ok?
    ensures var r := JoinExternal(env, e, kp, keys, o, seed).value; Bound(r.state) && r.state.tag == r.message.tag
  {
    hide DraftExternal, NewSecretTree, ExternalKeys, LeavesAccepted, RootHash, CommitSecret, ExternalContent;
    var gi := e.info;
    assert Valid(gi.tree);
    DraftHash(env, gi, kp, keys, o.resync, seed);
    var d := DraftExternal(env, gi, kp, keys, o.resync, seed).value;
    var n := JoinExternal(env, e, kp, keys, o, seed).value.state;
    var kem := Encapsulated(e.externalPub, o.encapsulation);
    var joiner := JoinerSecret(ExternalInitSecret(kem.to, kem.encapsulation), CommitSecret(Some(d.created)), n.context);
    assert n.schedule == DeriveEpochKeys(EpochSecret(joiner, Zero, n.context));
  }

  // ---- so acceptors agree ----

  /** Two clients that one commit takes into a new epoch share it: context, key
      schedule, tree and tag. Nothing is asked of the committer, nor that the two
      agreed before. */
  lemma {:induction false} AcceptorsAgree(env: Env, other: Env, a: ClientState, b: ClientState, m: CommitMessage)
    requires Valid(a.tree) && Valid(b.tree)
    requires ProcessCommit(env, a, m, true).Ok? && ProcessCommit(env, a, m, true).value != RemovedState(a)
    requires ProcessCommit(other, b, m, true).Ok? && ProcessCommit(other, b, m, true).value != RemovedState(b)
    ensures SameEpoch(ProcessCommit(env, a, m, true).value, ProcessCommit(other, b, m, true).value)
  {
    hide ProcessCommit, Bound;
    ReceivedBound(env, a, m);
    ReceivedBound(other, b, m);
    SameTagSameEpoch(ProcessCommit(env, a, m, true).value, ProcessCommit(other, b, m, true).value);
  }

  /** And whoever accepts a commit shares the epoch its maker went on to. */
  lemma {:induction false} MakerAgrees(
      env: Env, other: Env, a: ClientState, b: ClientState, o: CommitOptions, seed: Secret)
    requires Valid(a.tree) && Valid(b.tree) && CreateCommit(env, a, o, seed).Ok?
    requires var m := CreateCommit(env, a, o, seed).value.message;
      ProcessCommit(other, b, m, true).Ok? && ProcessCommit(other, b, m, true).value != RemovedState(b)
    ensures var r := CreateCommit(env, a, o, seed).value;
      SameEpoch(r.state, ProcessCommit(other, b, r.message, true).value)
  {
    hide ProcessCommit, CreateCommit, Bound;
    var r := CreateCommit(env, a, o, seed).value;
    OwnBound(env, a, o, seed);
    ReceivedBound(other, b, r.message);
    SameTagSameEpoch(r.state, ProcessCommit(other, b, r.message, true).value);
  }

  // ---- every run ----

  /** Bound once past the epoch a group is created in, whose secret its creator chose. */
  ghost predicate BoundLater(st: ClientState) {
    Valid(st.tree) && (st.context.epoch > 0 ==> Bound(st))
  }

  lemma {:induction false} SameStepBound(st: ClientState, n: ClientState)
    requires SameEpochStep(st, n) && BoundLater(st)
    ensures BoundLater(n)
  {
    hide RootHash, ConfirmationTag;
  }

  lemma {:induction false} BoundIsLater(st: ClientState)
    requires Bound(st)
    ensures BoundLater(st)
  {
    hide RootHash, ConfirmationTag;
  }

  lemma {:induction false} ReceiveBound(env: Env, st: ClientState, m: Incoming, accept: bool)
    requires BoundLater(st) && Receive(env, st, m, accept).Ok?
    ensures BoundLater(Receive(env, st, m, accept).value)
  {
    hide ProcessCommit, BoundLater, OnReceipt;
    assert Valid(st.tree) by { LaterValid(st); }
    var stepped := if m.wireformat.PublicWire? then st else st.(secretTree := Stepped(st.secretTree));
    var n := Receive(env, st, m, accept).value;
    if m.body.Committed? && accept && (m.wireformat.PublicWire? || m.epoch >= st.context.epoch) {
      ReceivedBound(env, stepped, m.body.message);
      if n == RemovedState(stepped) { SameStepBound(st, n); } else { BoundIsLater(n); }
    } else {
      if m.body.Committed? && (m.wireformat.PublicWire? || m.epoch >= st.context.epoch) {
        CommitStep(env, stepped, m.body.message, accept);
      }
      SameStepBound(st, n);
    }
  }

  lemma {:induction false} LaterValid(st: ClientState)
    requires BoundLater(st)
    ensures Valid(st.tree)
  {
  }

  lemma {:induction false} NextBound(env: Env, st: ClientState, i: Input)
    requires StateOk(st) && BoundLater(st)
    ensures Valid(st.tree) && BoundLater(Next(env, st, i))
  {
    hide Receive, CreateCommit, StateOk, SendProposal, CreateUpdate, BoundLater;
    LaterValid(st);
    match i
    case Receives(m, accept) => if Receive(env, st, m, accept).Ok? { ReceiveBound(env, st, m, accept); }
    case Commits(o, seed) =>
      if CreateCommit(env, st, o, seed).Ok? {
        OwnBound(env, st, o, seed);
        BoundIsLater(CreateCommit(env, st, o, seed).value.state);
      }
    case _ =>
      SendStep(env, st, i);
      SameStepBound(st, Next(env, st, i));
  }

  lemma {:induction false} RunBound(env: Env, st: ClientState, inputs: seq<Input>)
    requires StateOk(st) && BoundLater(st)
    ensures BoundLater(Run(env, st, inputs))
    decreases |inputs|
  {
    hide StateOk, Next, BoundLater, Moves, Advances;
    if inputs != [] {
      NextBound(env, st, inputs[0]);
      NextStep(env, st, inputs[0]);
      RunBound(env, Next(env, st, inputs[0]), inputs[1..]);
    }
  }
}

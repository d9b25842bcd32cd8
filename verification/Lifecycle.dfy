/** One client over any run: whatever it is sent and whatever it sends, honest or
    not, its epochs, pending proposals, retained epochs and end states obey these rules. */
module Lifecycle {
  import opened Options
  import opened Terms
  import opened TreeMath
  import opened RatchetTree
  import opened ParentHashes
  import opened UpdatePaths
  import opened LeafValidation
  import opened ClientStates
  import opened PrivateKeys
  import opened Proposals
  import opened FilterPending
  import opened Commits
  import opened Messages

  datatype Input =
    | Receives(message: Incoming, accept: bool)
    | Proposes(publicWire: bool, proposal: Proposal, id: nat)
    | ProposesUpdate(publicWire: bool, hpke: Secret, patch: LeafPatch, id: nat)
    | Commits(options: CommitOptions, seed: Secret)
    | SendsApplication
    | Discards(ref: Ref)

  /** An operation that throws leaves the caller with the state it had. */
  function Next(env: Env, st: ClientState, i: Input): ClientState
    requires Valid(st.tree)
  {
    var r := match i
      case Receives(m, accept) => Receive(env, st, m, accept)
      case Proposes(wire, p, id) => SendProposal(env, st, wire, p, id)
      case ProposesUpdate(wire, hpke, patch, id) => CreateUpdate(env, st, wire, hpke, patch, id)
      case Commits(o, seed) =>
        var c := CreateCommit(env, st, o, seed);
        if c.Ok? then Ok(c.value.state) else Err(c.error)
      case SendsApplication => SendApplication(st)
      case Discards(ref) => Ok(DiscardPending(st, ref));
    if r.Ok? then r.value else st
  }

  // ---- the two kinds of change ----

  /** Within an epoch only pending proposals, Update keys and message ratchets move. */
  ghost predicate SameEpochStep(st: ClientState, n: ClientState) {
    && n.context == st.context && n.schedule == st.schedule && n.tree == st.tree && n.privatePath == st.privatePath
    && n.signKey == st.signKey && n.tag == st.tag && n.retain == st.retain && n.maxPending == st.maxPending
    && n.history.Keys == st.history.Keys
  }

  /** The newest `max` of a set of epochs. */
  function Newest(s: set<nat>, max: nat): (r: set<nat>)
    ensures r <= s
    decreases |s|
  {
    if |s| <= max then s else Newest(s - {Smallest(s)}, max)
  }

  lemma {:induction false} KeepNewestKeys(m: map<nat, EpochData>, max: nat)
    ensures KeepNewest(m, max).Keys == Newest(m.Keys, max)
    decreases |m.Keys|
  {
    if |m.Keys| > max {
      var k := Smallest(m.Keys);
      assert (m - {k}).Keys == m.Keys - {k};
      KeepNewestKeys(m - {k}, max);
    }
  }

  /** The epochs retained once epoch `e` is left. */
  function NextRetained(s: set<nat>, e: nat, retain: int): set<nat> {
    if retain <= 0 then {} else Newest(s + {e}, retain)
  }

  lemma {:induction false} HistoryKeys(st: ClientState)
    ensures AddHistory(st).Keys == NextRetained(st.history.Keys, st.context.epoch, st.retain)
  {
    if st.retain > 0 {
      var data := EpochData(st.schedule.resumption, st.secretTree, st.tree, st.schedule.senderData, st.context);
      var withNew := st.history[st.context.epoch := data];
      assert withNew.Keys == st.history.Keys + {st.context.epoch};
      KeepNewestKeys(withNew, st.retain);
    }
  }

  /** Into the next epoch: nothing pending, and the old epoch among the retained. */
  ghost predicate NewEpochStep(st: ClientState, n: ClientState) {
    && n.context.epoch == st.context.epoch + 1 && n.context.groupId == st.context.groupId
    && n.pending == [] && n.updateKeys == map[]
    && n.history.Keys == NextRetained(st.history.Keys, st.context.epoch, st.retain)
    && n.retain == st.retain && n.maxPending == st.maxPending && Valid(n.tree)
  }

  lemma {:induction false} AppliedContext(
      env: Env, st: ClientState, props: seq<ProposalOrRef>, committer: Option<nat>, sent: bool,
      newLeaf: Option<LeafNode>, sender: SenderType)
    requires Valid(st.tree) && ApplyProposals(env, st, props, committer, sent, newLeaf, sender).Ok?
    ensures var a := ApplyProposals(env, st, props, committer, sent, newLeaf, sender).value;
      CheckedContext(st, a.kind).epoch == st.context.epoch && CheckedContext(st, a.kind).groupId == st.context.groupId
      && Valid(a.tree)
  {
    hide FoldUpdates, FoldRemoves, FoldAdds, ProposalsOk, PskSecret, RemoveLeaf;
    ApplyProposalsValid(env, st, props, committer, sent, newLeaf, sender);
  }

  lemma {:induction false} UpdateValid(
      path: Option<UpdatePath>, sender: Sender, t: Tree, own: PrivatePath, gc: GroupContext, exclude: seq<nat>)
    requires Valid(t) && ApplyTreeUpdate(path, sender, t, own, gc, exclude).Ok?
    ensures Valid(ApplyTreeUpdate(path, sender, t, own, gc, exclude).value.tree)
  {
    hide AddLeaf, ReceivePath, PathKeyError, FilteredPath, CalculateParentHash, RootHash;
    if path.Some? && !sender.Member? { AddLeafAt(t, path.value.leaf); }
  }

  /** A received commit is refused, ignored, removes the client, or moves it one epoch on. */
  lemma {:induction false} CommitStep(env: Env, st: ClientState, m: CommitMessage, accept: bool)
    requires Valid(st.tree) && ProcessCommit(env, st, m, accept).Ok?
    ensures var n := ProcessCommit(env, st, m, accept).value;
      (!accept ==> n == st)
      && (accept ==> n == RemovedState(st) || (NewEpochStep(st, n) && n.active != RemovedFromGroup))
  {
    hide ApplyProposals, ApplyTreeUpdate, PathError, AddHistory, NewSecretTree, ConfirmationTag, InitializeEpoch;
    var c, sender := m.content.commit, m.content.sender;
    var applied :=
      ApplyProposals(env, st, c.proposals, SenderLeaf(sender), false, PathLeaf(c), SenderTypeOf(sender)).value;
    AppliedContext(env, st, c.proposals, SenderLeaf(sender), false, PathLeaf(c), SenderTypeOf(sender));
    if accept && !applied.selfRemoved {
      HistoryKeys(st);
      var key := AppliedUpdateKey(st.updateKeys, c.proposals);
      UpdateValid(
        c.path, sender, applied.tree, OwnPath(st, key), CheckedContext(st, applied.kind),
        ReceiverExcluded(applied.kind, applied.tree));
    }
  }

  lemma {:induction false} OwnCommitStep(env: Env, st: ClientState, o: CommitOptions, seed: Secret)
    requires Valid(st.tree) && CreateCommit(env, st, o, seed).Ok?
    ensures NewEpochStep(st, CreateCommit(env, st, o, seed).value.state) && st.active == IsActive
  {
    hide ApplyProposals, DraftPath, CreateWelcome, AddHistory, CommitterPath, RootHash, InitializeEpoch,
      ConfirmationTag, CommitSecret, NewSecretTree, DraftContent, FilterPendingProposals;
    var d := DraftCommit(env, st, o, seed).value;
    DraftValid(env, st, o, seed);
    HistoryKeys(st);
    AppliedContext(env, st, d.props, Some(st.privatePath.leaf), true, None, MemberType);
  }

  // ---- every step ----

  /** A state either frozen after a removal, or with pending work of its own epoch and within bounds. */
  ghost predicate StateOk(st: ClientState) {
    && Valid(st.tree)
    && (forall p | p in st.pending :: p.ref.epoch == st.context.epoch)
    && (forall r | r in st.updateKeys :: r.epoch == st.context.epoch)
    && (st.maxPending > 0 ==> |st.pending| <= st.maxPending)
    && (st.maxPending <= 0 ==> st.pending == [])
    && (st.active != IsActive ==> st.pending == [])
  }

  /** What one step can do. */
  ghost predicate Moves(st: ClientState, n: ClientState) {
    || SameEpochStep(st, n)
    || (NewEpochStep(st, n) && st.active == IsActive)
  }

  lemma {:induction false} PendingStep(st: ClientState, n: ClientState, p: Pending)
    requires StateOk(st) && CapacityError(st).None? && p.ref.epoch == st.context.epoch && st.active == IsActive
    requires n.pending == AddPending(st.pending, p) && n.tree == st.tree
    requires n.context == st.context && n.maxPending == st.maxPending
    requires n.active == st.active && forall r | r in n.updateKeys :: r in st.updateKeys || r.epoch == st.context.epoch
    ensures StateOk(n)
  {
  }

  lemma {:induction false} ReceiveStep(env: Env, st: ClientState, m: Incoming, accept: bool)
    requires StateOk(st) && Receive(env, st, m, accept).Ok?
    ensures var n := Receive(env, st, m, accept).value; StateOk(n) && Moves(st, n) && st.active != RemovedFromGroup
    ensures var n := Receive(env, st, m, accept).value; st.active != IsActive ==> n == st.(history := n.history)
  {
    hide ProcessCommit, NewEpochStep;
    var stepped := if m.wireformat.PublicWire? then st else st.(secretTree := Stepped(st.secretTree));
    if m.wireformat.PrivateWire? && m.epoch < st.context.epoch {
    } else {
      assert st.active == IsActive;
      match m.body
      case Application =>
      case Proposed(item, id) =>
        if accept {
          PendingStep(stepped, ProcessProposal(env, stepped, item, id).value, Pending(Ref(st.context.epoch, id), item));
        }
      case Committed(c) =>
        CommitStep(env, stepped, c, accept);
        if NewEpochStep(stepped, ProcessCommit(env, stepped, c, accept).value) {
          NewEpochOk(stepped, ProcessCommit(env, stepped, c, accept).value);
          SteppedEpoch(st, stepped, ProcessCommit(env, stepped, c, accept).value);
        }
    }
  }

  /** The message ratchet plays no part in what the next epoch starts from. */
  lemma {:induction false} SteppedEpoch(st: ClientState, stepped: ClientState, n: ClientState)
    requires NewEpochStep(stepped, n) && stepped == st.(secretTree := stepped.secretTree)
    ensures NewEpochStep(st, n)
  {
  }

  lemma {:induction false} NewEpochOk(st: ClientState, n: ClientState)
    requires StateOk(st) && NewEpochStep(st, n)
    ensures StateOk(n)
  {
    hide NextRetained;
  }

  lemma {:induction false} SendStep(env: Env, st: ClientState, i: Input)
    requires StateOk(st) && !i.Receives? && !i.Commits?
    ensures StateOk(Next(env, st, i)) && SameEpochStep(st, Next(env, st, i))
    ensures st.active != IsActive ==> Next(env, st, i) == st
  {
    hide OnReceipt, UpdatedLeaf, Receive, CreateCommit, Valid, AddPending;
    match i
    case Proposes(wire, p, id) =>
      var n := SendProposal(env, st, wire, p, id);
      if n.Ok? { PendingStep(st, n.value, Pending(Ref(st.context.epoch, id), OwnItemOf(st, p))); }
    case ProposesUpdate(wire, hpke, patch, id) =>
      var n := CreateUpdate(env, st, wire, hpke, patch, id);
      if n.Ok? {
        var leaf := UpdatedLeaf(st, LeafAt(st.tree, st.privatePath.leaf).value, hpke, patch);
        PendingStep(st, n.value, Pending(Ref(st.context.epoch, id), OwnItemOf(st, Update(leaf))));
      }
    case Discards(ref) =>
      if st.pending == [] { assert Without(st.pending, ref) == st.pending; }
    case _ =>
  }

  /** The inputs that move the client to the next epoch. */
  predicate Advances(env: Env, st: ClientState, i: Input)
    requires Valid(st.tree)
  {
    || (i.Commits? && CreateCommit(env, st, i.options, i.seed).Ok?)
    || (i.Receives? && i.accept && i.message.body.Committed? && Receive(env, st, i.message, true).Ok?
        && Receive(env, st, i.message, true).value.active != RemovedFromGroup)
  }

  lemma {:induction false} ReceiveAdvances(env: Env, st: ClientState, m: Incoming, accept: bool)
    requires StateOk(st) && Receive(env, st, m, accept).Ok?
    ensures var n := Receive(env, st, m, accept).value;
      n.context.epoch
        == st.context.epoch + (if accept && m.body.Committed? && n.active != RemovedFromGroup then 1 else 0)
  {
    hide ProcessCommit, OnReceipt, NextRetained, Valid;
    assert Valid(st.tree);
    var stepped := if m.wireformat.PublicWire? then st else st.(secretTree := Stepped(st.secretTree));
    if m.wireformat.PrivateWire? && m.epoch < st.context.epoch {
    } else if m.body.Committed? {
      CommitStep(env, stepped, m.body.message, accept);
    }
  }

  /** One step: rules kept, and at most one epoch forward, exactly when a commit is accepted. */
  lemma {:induction false} NextStep(env: Env, st: ClientState, i: Input)
    requires StateOk(st)
    ensures var n := Next(env, st, i);
      && StateOk(n) && Moves(st, n)
      && n.context.epoch == st.context.epoch + (if Advances(env, st, i) then 1 else 0)
      && (st.active == RemovedFromGroup ==> n == st)
      && (st.active != IsActive ==> n == st.(history := n.history) && n.history.Keys == st.history.Keys)
  {
    hide Receive, CreateCommit, NextRetained, StateOk, SendProposal, CreateUpdate, SendApplication;
    assert Valid(st.tree) by { OkValid(st); }
    match i
    case Receives(m, accept) =>
      if Receive(env, st, m, accept).Ok? {
        ReceiveStep(env, st, m, accept);
        ReceiveAdvances(env, st, m, accept);
      }
    case Commits(o, seed) =>
      if CreateCommit(env, st, o, seed).Ok? {
        OwnCommitStep(env, st, o, seed);
        NewEpochOk(st, CreateCommit(env, st, o, seed).value.state);
      }
    case _ => SendStep(env, st, i);
  }

  lemma {:induction false} OkValid(st: ClientState)
    requires StateOk(st)
    ensures Valid(st.tree)
  {
  }

  // ---- every run ----

  ghost function Run(env: Env, st: ClientState, inputs: seq<Input>): ClientState
    requires StateOk(st)
    decreases |inputs|
  {
    if inputs == [] then st else
    NextStep(env, st, inputs[0]);
    Run(env, Next(env, st, inputs[0]), inputs[1..])
  }

  /** How many commits the run accepts. */
  ghost function Accepted(env: Env, st: ClientState, inputs: seq<Input>): nat
    requires StateOk(st)
    decreases |inputs|
  {
    if inputs == [] then 0 else
    NextStep(env, st, inputs[0]);
    (if Advances(env, st, inputs[0]) then 1 else 0) + Accepted(env, Next(env, st, inputs[0]), inputs[1..])
  }

  /** Pending proposals and Update keys are always of the current epoch and the
      pending within bounds; the epoch counts the accepted commits. */
  lemma {:induction false} RunKeeps(env: Env, st: ClientState, inputs: seq<Input>)
    requires StateOk(st)
    ensures StateOk(Run(env, st, inputs))
    ensures Run(env, st, inputs).context.epoch == st.context.epoch + Accepted(env, st, inputs)
    decreases |inputs|
  {
    hide StateOk, Next, Advances;
    OkValid(st);
    if inputs != [] {
      NextStep(env, st, inputs[0]);
      RunKeeps(env, Next(env, st, inputs[0]), inputs[1..]);
    }
  }

  /** A removed client never changes again. */
  lemma {:induction false} RemovedForever(env: Env, st: ClientState, inputs: seq<Input>)
    requires StateOk(st) && st.active == RemovedFromGroup
    ensures Run(env, st, inputs) == st
    decreases |inputs|
  {
    hide StateOk, Next, Advances;
    OkValid(st);
    if inputs != [] {
      NextStep(env, st, inputs[0]);
      RemovedForever(env, st, inputs[1..]);
    }
  }

  /** A client suspended for a ReInit changes only inside its retained epochs. */
  lemma {:induction false} SuspendedFrozen(env: Env, st: ClientState, inputs: seq<Input>)
    requires StateOk(st) && st.active.SuspendedPendingReinit?
    ensures var n := Run(env, st, inputs); n == st.(history := n.history) && n.history.Keys == st.history.Keys
    decreases |inputs|
  {
    hide StateOk, Next, Advances;
    OkValid(st);
    if inputs != [] {
      NextStep(env, st, inputs[0]);
      SuspendedFrozen(env, Next(env, st, inputs[0]), inputs[1..]);
    }
  }

  // ---- the retained epochs ----

  /** The epochs from `joined` on, before `epoch`, that are at most `retain` back. */
  predicate InWindow(e: nat, joined: nat, epoch: nat, retain: int) {
    joined <= e < epoch && epoch - e <= retain
  }

  function Window(joined: nat, epoch: nat, retain: int): set<nat> {
    set e: nat | 0 <= e < epoch && InWindow(e, joined, epoch, retain)
  }

  lemma {:induction false} WindowSize(joined: nat, epoch: nat, retain: int)
    requires joined <= epoch
    ensures |Window(joined, epoch, retain)| ==
      if retain <= 0 then 0 else if retain < epoch - joined then retain else epoch - joined
    decreases epoch - joined
  {
    var w := Window(joined, epoch, retain);
    if retain <= 0 || joined == epoch {
      assert w == {};
    } else if retain < epoch - joined {
      WindowSize(joined + 1, epoch, retain);
      assert w == Window(joined + 1, epoch, retain);
    } else {
      WindowSize(joined + 1, epoch, retain);
      assert w == Window(joined + 1, epoch, retain) + {joined};
    }
  }

  lemma {:induction false} NewestRange(lo: nat, epoch: nat, max: nat)
    requires lo <= epoch && max > 0
    ensures Newest(Window(lo, epoch, epoch), max) == Window(lo, epoch, if max < epoch then max else epoch)
    decreases epoch - lo
  {
    var w := Window(lo, epoch, epoch);
    WindowSize(lo, epoch, epoch);
    if epoch - lo <= max {
      assert w == Window(lo, epoch, if max < epoch then max else epoch);
    } else {
      assert lo in w;
      var k := Smallest(w);
      assert k == lo;
      assert w - {lo} == Window(lo + 1, epoch, epoch);
      NewestRange(lo + 1, epoch, max);
      assert Window(lo, epoch, if max < epoch then max else epoch) ==
        Window(lo + 1, epoch, if max < epoch then max else epoch);
    }
  }

  /** Leaving epoch `e` slides the window by one. */
  lemma {:induction false} WindowSlides(joined: nat, e: nat, retain: int)
    requires joined <= e
    ensures NextRetained(Window(joined, e, retain), e, retain) == Window(joined, e + 1, retain)
  {
    if retain > 0 {
      var lo := if retain < e - joined then e - retain else joined;
      assert Window(joined, e, retain) + {e} == Window(lo, e + 1, e + 1);
      NewestRange(lo, e + 1, retain);
      assert Window(joined, e + 1, retain) == Window(lo, e + 1, if retain < e + 1 then retain else e + 1);
    } else {
      assert Window(joined, e + 1, retain) == {};
    }
  }

  ghost predicate WindowOk(st: ClientState, joined: nat) {
    joined <= st.context.epoch && st.history.Keys == Window(joined, st.context.epoch, st.retain)
  }

  lemma {:induction false} WindowStep(st: ClientState, n: ClientState, joined: nat)
    requires WindowOk(st, joined) && Moves(st, n)
    ensures WindowOk(n, joined)
  {
    hide Window, NextRetained;
    WindowSlides(joined, st.context.epoch, st.retain);
  }

  /** In every reachable state the retained epochs are the newest of those since
      the client joined, in an unbroken range, as many as it is set to keep. */
  lemma {:induction false} RunWindow(env: Env, st: ClientState, inputs: seq<Input>, joined: nat)
    requires StateOk(st) && WindowOk(st, joined)
    ensures WindowOk(Run(env, st, inputs), joined)
    decreases |inputs|
  {
    hide StateOk, Next, Advances, WindowOk, Moves;
    OkValid(st);
    if inputs != [] {
      NextStep(env, st, inputs[0]);
      WindowStep(st, Next(env, st, inputs[0]), joined);
      RunWindow(env, Next(env, st, inputs[0]), inputs[1..], joined);
    }
  }

  /** An application message from an earlier epoch is let through exactly when that epoch is in the window. */
  lemma {:induction false} OldMessageGate(env: Env, st: ClientState, m: Incoming, joined: nat, accept: bool)
    requires Valid(st.tree) && WindowOk(st, joined) && st.active != RemovedFromGroup
    requires m.wireformat.PrivateWire? && m.authentic && m.body.Application?
    requires m.groupId == st.context.groupId && m.epoch < st.context.epoch
    ensures Receive(env, st, m, accept).Ok? <==> joined <= m.epoch && st.context.epoch - m.epoch <= st.retain
  {
  }
}

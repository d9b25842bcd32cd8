/** A member's keys over any run, whatever it is sent: each state holds exactly the
    private keys its tree says it must, and the tree keeps its rules. */
module MemberRuns {
  import opened Options
  import opened Terms
  import opened TreeMath
  import opened RatchetTree
  import opened ParentHashes
  import opened UpdatePaths
  import opened LeafValidation
  import opened ClientStates
  import opened PrivateKeys
  import opened UnmergedLeaves
  import opened KeyOwnership
  import opened Proposals
  import opened Membership
  import opened PathRules
  import opened Commits
  import opened Messages
  import opened Agreement
  import opened Convergence
  import opened Receivers
  import opened MemberSteps
  import opened AcceptedCommits
  import opened FilterPending
  import opened Lifecycle
  import Groups

  /** A member in good order, in a tree whose lists name only leaves below. */
  ghost predicate MemberInOrder(st: ClientState) {
    MemberOk(st) && ListsBelow(st.tree)
  }

  /** What authentication and hashing give a client. What it is sent comes from
      others, at leaves of its tree or from outside, and a reference, being a hash
      of the framed proposal, is not that of an Update of its own. Of its own it
      proposes Updates only through `createUpdateProposal`, which keeps the key. */
  predicate Genuine(st: ClientState, i: Input) {
    match i
    case Receives(m, _) => GenuineBody(st, m.body)
    case Proposes(_, p, id) => !p.Update? && Ref(st.context.epoch, id) !in st.updateKeys
    case _ => true
  }

  predicate GenuineBody(st: ClientState, body: Body) {
    match body
    case Application => true
    case Proposed(item, id) =>
      && (item.leaf.Some? ==> item.leaf.value != st.privatePath.leaf && HasLeaf(st.tree, item.leaf.value))
      && Ref(st.context.epoch, id) !in st.updateKeys
    case Committed(m) => SentByOther(st, m.content)
  }

  // ---- one input ----

  lemma {:induction false} ReceiveKeeps(env: Env, st: ClientState, m: Incoming, accept: bool)
    requires MemberInOrder(st) && GenuineBody(st, m.body) && Valid(st.tree) && Receive(env, st, m, accept).Ok?
    ensures var n := Receive(env, st, m, accept).value;
      MemberInOrder(n) && n.privatePath.leaf == st.privatePath.leaf
  {
    hide ProcessCommit, OnReceipt, MemberOk, ListsBelow, CapacityError, SentByOther;
    var stepped := if m.wireformat.PublicWire? then st else st.(secretTree := Stepped(st.secretTree));
    SteppingKeeps(st, stepped);
    if m.wireformat.PrivateWire? && m.epoch < st.context.epoch {
      SteppingKeeps(st, Receive(env, st, m, accept).value);
    } else {
      match m.body
      case Application =>
      case Proposed(item, id) =>
        if accept {
          StoringKeeps(
            stepped, ProcessProposal(env, stepped, item, id).value, Ref(st.context.epoch, id), item);
        }
      case Committed(c) =>
        if accept {
          SentSame(st, stepped, c.content);
          AcceptedKeepsMember(env, stepped, c);
        } else {
          Groups.Rejected(env, stepped, c);
        }
    }
  }

  lemma {:induction false} SentSame(st: ClientState, n: ClientState, content: CommitContent)
    requires SentByOther(st, content) && n.tree == st.tree && n.privatePath == st.privatePath
    ensures SentByOther(n, content)
  {
  }

  lemma {:induction false} SendingKeeps(env: Env, st: ClientState, wire: bool, p: Proposal, id: nat)
    requires MemberOk(st) && Valid(st.tree) && !p.Update? && Ref(st.context.epoch, id) !in st.updateKeys
    requires SendProposal(env, st, wire, p, id).Ok?
    ensures MemberOk(SendProposal(env, st, wire, p, id).value)
  {
    hide SendProposal, MemberOk, OnReceipt;
    Groups.SendIs(env, st, wire, p, id);
    MemberHasLeaf(st);
    StoringKeeps(st, SendProposal(env, st, wire, p, id).value, Ref(st.context.epoch, id), OwnItemOf(st, p));
  }

  lemma {:induction false} UpdatingKeeps(
      env: Env, st: ClientState, wire: bool, hpke: Secret, patch: LeafPatch, id: nat)
    requires MemberOk(st) && Valid(st.tree) && CreateUpdate(env, st, wire, hpke, patch, id).Ok?
    ensures MemberOk(CreateUpdate(env, st, wire, hpke, patch, id).value)
  {
    hide CreateUpdate, SendProposal, OnReceipt, Exact, UpdateKeysOk, SendersKnown;
    Groups.UpdateSentIs(env, st, wire, hpke, patch, id);
    var leaf := UpdatedLeaf(st, LeafAt(st.tree, st.privatePath.leaf).value, hpke, patch);
    StoringUpdateKeeps(
      st, CreateUpdate(env, st, wire, hpke, patch, id).value, Ref(st.context.epoch, id), leaf,
      PendingKey(hpke, patch.signature));
  }

  /** The member's own commit: no freshness is needed for its keys. */
  lemma {:induction false} CommittingKeeps(env: Env, st: ClientState, o: CommitOptions, seed: Secret)
    requires MemberInOrder(st) && Valid(st.tree) && CreateCommit(env, st, o, seed).Ok?
    ensures var n := CreateCommit(env, st, o, seed).value.state;
      MemberInOrder(n) && n.privatePath.leaf == st.privatePath.leaf
  {
    hide CreateCommit, DraftCommit, ApplyProposals, Exact, Signs, ListsBelow, UpdateKeysOk, SendersKnown, EpochOf,
      AddHistory, CommitterPath, NewSecretTree;
    var d := Groups.DraftCommitOf(env, st, o, seed);
    DraftFacts(env, st, o, seed, d);
    CommitterKeysExact(env, st, o, seed, d);
    ProposalsKeepBelow(env, st, d.props, Some(st.privatePath.leaf), true, None, MemberType);
    DraftKeepsBelow(env, st, o, seed, d);
    NothingPending(CreateCommit(env, st, o, seed).value.state);
  }

  lemma {:induction false} NothingPending(n: ClientState)
    requires n.pending == [] && n.updateKeys == map[]
    ensures UpdateKeysOk(n) && SendersKnown(n)
  {
  }

  lemma {:induction false} DraftKeepsBelow(env: Env, st: ClientState, o: CommitOptions, seed: Secret, d: Draft)
    requires Valid(d.applied.tree) && ListsBelow(d.applied.tree)
    requires DraftPath(env, st, o, d.applied, seed) == Ok(d.created)
    ensures ListsBelow(DraftTree(d))
  {
    hide UpdateOrCommitOk, NewTree, NewSenderLeaf, SealPath, SecretsAbove, ListsBelow, FilteredFrom;
    var s, t := st.privatePath.leaf, d.applied.tree;
    if d.created.Some? {
      NewTreeWritten(t, s, CheckedContext(st, d.applied.kind), st.signKey, seed, PatchOf(o));
      PathKeepsBelow(t, DraftTree(d), s);
    }
  }

  /** Any input leaves a member in good order. */
  lemma {:induction false} InputKeeps(env: Env, st: ClientState, i: Input)
    requires StateOk(st) && MemberInOrder(st) && Genuine(st, i)
    ensures Valid(st.tree)
    ensures var n := Next(env, st, i); MemberInOrder(n) && n.privatePath.leaf == st.privatePath.leaf
  {
    hide StateOk, Receive, CreateCommit, MemberOk, ListsBelow, SendProposal, CreateUpdate, GenuineBody;
    OkValid(st);
    match i
    case Receives(m, accept) => if Receive(env, st, m, accept).Ok? { ReceiveKeeps(env, st, m, accept); }
    case Proposes(wire, p, id) =>
      if SendProposal(env, st, wire, p, id).Ok? {
        SendingKeeps(env, st, wire, p, id);
        Groups.SendIs(env, st, wire, p, id);
      }
    case ProposesUpdate(wire, hpke, patch, id) =>
      if CreateUpdate(env, st, wire, hpke, patch, id).Ok? {
        UpdatingKeeps(env, st, wire, hpke, patch, id);
        UpdateLeavesTree(env, st, wire, hpke, patch, id);
      }
    case Commits(o, seed) => if CreateCommit(env, st, o, seed).Ok? { CommittingKeeps(env, st, o, seed); }
    case SendsApplication =>
      if SendApplication(st).Ok? { SteppingKeeps(st, SendApplication(st).value); }
    case Discards(ref) => DiscardKeeps(st, ref);
  }

  lemma {:induction false} UpdateLeavesTree(
      env: Env, st: ClientState, wire: bool, hpke: Secret, patch: LeafPatch, id: nat)
    requires Valid(st.tree) && CreateUpdate(env, st, wire, hpke, patch, id).Ok?
    ensures var n := CreateUpdate(env, st, wire, hpke, patch, id).value;
      n.tree == st.tree && n.privatePath == st.privatePath
  {
    hide OnReceipt, UpdatedLeaf;
  }

  /** Without its key a member's Update of its own would break this: that is what
      `createProposal` with an Update made by hand does, and nothing else it sends. */
  lemma {:induction false} HandmadeUpdateIff(env: Env, st: ClientState, wire: bool, p: Proposal, id: nat)
    requires MemberOk(st) && Valid(st.tree) && Ref(st.context.epoch, id) !in st.updateKeys
    requires SendProposal(env, st, wire, p, id).Ok?
    ensures MemberOk(SendProposal(env, st, wire, p, id).value) <==> !p.Update?
  {
    hide SendProposal, OnReceipt, Exact, Signs, SendersKnown;
    var n, ref := SendProposal(env, st, wire, p, id).value, Ref(st.context.epoch, id);
    Groups.SendIs(env, st, wire, p, id);
    if p.Update? {
      FindAdded(st.pending, Pending(ref, OwnItemOf(st, p)), ref);
      assert OwnItem(n, FindPending(n.pending, ref).value);
    } else {
      SendingKeeps(env, st, wire, p, id);
    }
  }

  // ---- the tree ----

  /** A commit of the client's own is made from a fresh seed. */
  ghost predicate FreshInput(env: Env, st: ClientState, i: Input)
    requires Valid(st.tree)
  {
    i.Commits? && CreateCommit(env, st, i.options, i.seed).Ok? ==>
      Fresh(i.seed, DraftCommit(env, st, i.options, i.seed).value.applied.tree)
  }

  /** Any input leaves a good tree good. */
  lemma {:induction false} InputKeepsTree(env: Env, st: ClientState, i: Input)
    requires StateOk(st) && MemberOk(st) && GoodTree(st.tree) && Valid(st.tree) && Genuine(st, i)
    requires FreshInput(env, st, i)
    ensures GoodTree(Next(env, st, i).tree)
  {
    hide StateOk, CreateCommit, DraftCommit, MemberOk, GoodTree, OnReceipt, UpdatedLeaf, ProcessCommit, Fresh,
      SentByOther;
    match i
    case Receives(m, accept) =>
      if Receive(env, st, m, accept).Ok? && m.body.Committed? { ReceiveKeepsTree(env, st, m, accept); }
    case Commits(o, seed) =>
      if CreateCommit(env, st, o, seed).Ok? {
        var d := Groups.DraftCommitOf(env, st, o, seed);
        CommitterKeeps(env, st, o, seed, d);
      }
    case _ =>
  }

  lemma {:induction false} ReceiveKeepsTree(env: Env, st: ClientState, m: Incoming, accept: bool)
    requires MemberOk(st) && GoodTree(st.tree) && Valid(st.tree) && GenuineBody(st, m.body) && m.body.Committed?
    requires Receive(env, st, m, accept).Ok?
    ensures GoodTree(Receive(env, st, m, accept).value.tree)
  {
    hide MemberOk, GoodTree, ProcessCommit, SentByOther;
    var stepped := if m.wireformat.PublicWire? then st else st.(secretTree := Stepped(st.secretTree));
    SteppingKeeps(st, stepped);
    if m.wireformat.PrivateWire? && m.epoch < st.context.epoch {
    } else if accept {
      SentSame(st, stepped, m.body.message.content);
      AcceptedKeepsTree(env, stepped, m.body.message);
    } else {
      Groups.Rejected(env, stepped, m.body.message);
    }
  }

  // ---- every run ----

  ghost predicate GenuineRun(env: Env, st: ClientState, inputs: seq<Input>)
    requires StateOk(st)
    decreases |inputs|
  {
    inputs == [] ||
    (NextStep(env, st, inputs[0]);
     Genuine(st, inputs[0]) && GenuineRun(env, Next(env, st, inputs[0]), inputs[1..]))
  }

  ghost predicate FreshRun(env: Env, st: ClientState, inputs: seq<Input>)
    requires StateOk(st)
    decreases |inputs|
  {
    inputs == [] ||
    (NextStep(env, st, inputs[0]);
     FreshInput(env, st, inputs[0]) && FreshRun(env, Next(env, st, inputs[0]), inputs[1..]))
  }

  /** The member's keys are exact and it can sign for its leaf in every state of
      the run, however dishonest the commits it was sent. */
  lemma {:induction false} RunKeepsMember(env: Env, st: ClientState, inputs: seq<Input>)
    requires StateOk(st) && MemberInOrder(st) && GenuineRun(env, st, inputs)
    ensures var n := Run(env, st, inputs); MemberInOrder(n) && n.privatePath.leaf == st.privatePath.leaf
    decreases |inputs|
  {
    hide StateOk, Next, Advances, Moves, MemberInOrder, Genuine;
    OkValid(st);
    if inputs != [] {
      NextStep(env, st, inputs[0]);
      InputKeeps(env, st, inputs[0]);
      RunKeepsMember(env, Next(env, st, inputs[0]), inputs[1..]);
    }
  }

  /** And its tree keeps every rule. */
  lemma {:induction false} RunKeepsTree(env: Env, st: ClientState, inputs: seq<Input>)
    requires StateOk(st) && MemberInOrder(st) && GoodTree(st.tree)
    requires GenuineRun(env, st, inputs) && FreshRun(env, st, inputs)
    ensures GoodTree(Run(env, st, inputs).tree)
    decreases |inputs|
  {
    hide StateOk, Next, Advances, Moves, MemberOk, Genuine, GoodTree, FreshInput;
    OkValid(st);
    if inputs != [] {
      NextStep(env, st, inputs[0]);
      InputKeeps(env, st, inputs[0]);
      InputKeepsTree(env, st, inputs[0]);
      RunKeepsTree(env, Next(env, st, inputs[0]), inputs[1..]);
    }
  }
}

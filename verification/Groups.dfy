/** A whole group over any run: members propose, discard, commit, are removed and
    join, by a Welcome or from outside, each message accepted or refused by whom it
    may be, and those in step always agree. */
module Groups {
  import opened Options
  import opened Terms
  import opened TreeMath
  import opened RatchetTree
  import opened ParentHashes
  import opened UpdatePaths
  import opened LeafValidation
  import opened ClientStates
  import opened PrivateKeys
  import opened UnmergedLeaves
  import opened KeyOwnership
  import opened Proposals
  import opened Membership
  import opened PathRules
  import opened FilterPending
  import opened Commits
  import opened Joins
  import opened Messages
  import opened Agreement
  import opened Convergence
  import opened Receivers
  import opened MemberSteps
  import opened Joiners
  import opened AcceptedCommits
  import opened ExternalJoins
  import opened StandardLinks

  /** The members in step, by name; `next` numbers the proposals framed so far. */
  datatype Group = Group(members: map<nat, ClientState>, next: nat, maxPending: int)

  ghost predicate RefsOld(st: ClientState, next: nat) {
    && (forall r: Ref | FindPending(st.pending, r).Some? :: r.id < next)
    && (forall r: Ref | r in st.updateKeys :: r.id < next)
  }

  ghost predicate InGoodOrder(st: ClientState, next: nat, maxPending: int) {
    MemberOk(st) && GoodTree(st.tree) && RefsOld(st, next) && st.maxPending == maxPending
  }

  /** Two members of one group: one epoch, no two proposals under one reference, different leaves. */
  ghost predicate InStep(a: ClientState, b: ClientState) {
    SameEpoch(a, b) && SameProposals(a, b) && a.active == b.active && a.privatePath.leaf != b.privatePath.leaf
  }

  ghost predicate GroupOk(g: Group) {
    && (forall i | i in g.members :: InGoodOrder(g.members[i], g.next, g.maxPending))
    && (forall i, j | i in g.members && j in g.members && i != j :: InStep(g.members[i], g.members[j]))
  }

  // ---- proposals reach everyone ----

  /** Storing a proposal by another member, or one of this member's own that is no Update. */
  lemma {:induction false} PendingKeepsOrder(
      st: ClientState, n: ClientState, ref: Ref, item: ProposalWithSender, next: nat, maxPending: int)
    requires InGoodOrder(st, next, maxPending) && ref.id == next
    requires n == WithPending(st, ref, item).(secretTree := n.secretTree)
    requires item.leaf.Some? ==> HasLeaf(st.tree, item.leaf.value)
    requires !OwnItem(st, item)
    ensures InGoodOrder(n, next + 1, maxPending)
  {
    hide GoodTree, MemberOk;
    OrderFacts(st, next, maxPending);
    RefIsNew(st, ref, next);
    StoringKeeps(st, n, ref, item);
    StoredRefsOld(st, n, Pending(ref, item), next);
  }

  lemma {:induction false} RefIsNew(st: ClientState, ref: Ref, next: nat)
    requires RefsOld(st, next) && ref.id == next
    ensures ref !in st.updateKeys
  {
  }

  lemma {:induction false} StoredRefsOld(st: ClientState, n: ClientState, p: Pending, next: nat)
    requires RefsOld(st, next) && p.ref.id == next && n.pending == AddPending(st.pending, p)
    requires forall r: Ref | r in n.updateKeys :: r in st.updateKeys || r == p.ref
    ensures RefsOld(n, next + 1)
  {
    forall r: Ref { FindAdded(st.pending, p, r); }
  }

  /** Storing this member's own Update with its key. */
  lemma {:induction false} UpdateKeepsOrder(
      st: ClientState, n: ClientState, ref: Ref, leaf: LeafNode, key: PendingKey, next: nat, maxPending: int)
    requires InGoodOrder(st, next, maxPending) && ref.id == next
    requires n == WithPending(st, ref, OwnItemOf(st, Update(leaf))).(secretTree := n.secretTree,
      updateKeys := st.updateKeys[ref := key])
    requires leaf.hpkeKey == Pub(key.hpke) && leaf.sigKey == Pub(OrElse(key.signature, st.signKey))
    ensures InGoodOrder(n, next + 1, maxPending)
  {
    hide GoodTree, MemberOk;
    OrderFacts(st, next, maxPending);
    StoringUpdateKeeps(st, n, ref, leaf, key);
    StoredRefsOld(st, n, Pending(ref, OwnItemOf(st, Update(leaf))), next);
  }

  /** What its sender may send, every other member accepts. */
  lemma {:induction false} ReceiptAgrees(env: Env, gc: GroupContext, t: Tree, p: Proposal, sender: Option<nat>)
    requires Valid(t) && OnReceipt(env, gc, t, p, sender, true) == Ok(true)
    ensures OnReceipt(env, gc, t, p, sender, false) == Ok(true)
  {
    hide CommonOk, WithoutMatching;
  }

  lemma {:induction false} SendIs(env: Env, st: ClientState, wire: bool, p: Proposal, id: nat)
    requires Valid(st.tree) && SendProposal(env, st, wire, p, id).Ok?
    ensures CapacityError(st).None? && st.active == IsActive
    ensures OnReceipt(env, st.context, st.tree, p, Some(st.privatePath.leaf), true) == Ok(true)
    ensures var n := SendProposal(env, st, wire, p, id).value;
      n == WithPending(st, Ref(st.context.epoch, id), OwnItemOf(st, p)).(secretTree := n.secretTree)
  {
    hide OnReceipt;
  }

  /** Every other member with room for it stores what one sent. */
  lemma {:induction false} EveryoneStores(env: Env, a: ClientState, b: ClientState, p: Proposal, id: nat)
    requires Valid(a.tree) && SameEpoch(a, b)
    requires OnReceipt(env, a.context, a.tree, p, Some(a.privatePath.leaf), true) == Ok(true)
    ensures CapacityError(b).None? ==>
      ProcessProposal(env, b, OwnItemOf(a, p), id) == Ok(WithPending(b, Ref(a.context.epoch, id), OwnItemOf(a, p)))
    ensures CapacityError(b).Some? ==> ProcessProposal(env, b, OwnItemOf(a, p), id).Err?
  {
    hide OnReceipt;
    ReceiptAgrees(env, a.context, a.tree, p, Some(a.privatePath.leaf));
  }

  // ---- delivery ----

  function WireOf(publicWire: bool): Wireformat {
    if publicWire then PublicWire else PrivateWire
  }

  /** `b` after receiving what `a` sent in the epoch they share; `accept` is the
      answer of its application's callback. */
  function Deliver(env: Env, b: ClientState, wire: Wireformat, a: ClientState, body: Body, accept: bool): ClientState
    requires Valid(b.tree)
  {
    var r := Receive(env, b, Incoming(wire, a.context.groupId, a.context.epoch, body, true), accept);
    if r.Ok? then r.value else b
  }

  /** The state a message is handled in: opening a private one steps the ratchet. */
  function Opened(b: ClientState, wire: Wireformat): ClientState {
    if wire.PublicWire? then b else b.(secretTree := Stepped(b.secretTree))
  }

  lemma {:induction false} DeliverIs(
      env: Env, b: ClientState, wire: Wireformat, a: ClientState, body: Body, accept: bool)
    requires Valid(b.tree) && a.context == b.context && b.active == IsActive && !body.Application?
    ensures Receive(env, b, Incoming(wire, a.context.groupId, a.context.epoch, body, true), accept)
      == Handle(env, Opened(b, wire), body, accept)
  {
    hide Handle;
  }

  lemma {:induction false} OpenedOk(b: ClientState, wire: Wireformat, next: nat, maxPending: int)
    requires InGoodOrder(b, next, maxPending)
    ensures InGoodOrder(Opened(b, wire), next, maxPending)
  {
    hide GoodTree, Exact, Signs;
  }

  /** Whether the member stores a proposal it is sent. */
  predicate Stores(b: ClientState, accept: bool) {
    accept && CapacityError(b).None?
  }

  lemma {:induction false} DeliverProposal(
      env: Env, a: ClientState, b: ClientState, wire: bool, p: Proposal, id: nat, accept: bool)
    requires Valid(a.tree) && InStep(a, b) && a.active == IsActive
    requires OnReceipt(env, a.context, a.tree, p, Some(a.privatePath.leaf), true) == Ok(true)
    ensures var n := Deliver(env, b, WireOf(wire), a, Proposed(OwnItemOf(a, p), id), accept);
      var stored := if Stores(b, accept) then WithPending(b, Ref(a.context.epoch, id), OwnItemOf(a, p)) else b;
      n == stored.(secretTree := n.secretTree)
  {
    hide OnReceipt, Receive;
    DeliverIs(env, b, WireOf(wire), a, Proposed(OwnItemOf(a, p), id), accept);
    EveryoneStores(env, a, Opened(b, WireOf(wire)), p, id);
  }

  // ---- what can happen ----

  datatype Joining = Joining(place: nat, keys: PrivateKeyPackage, retain: int)

  /** Who refuses is named with the message: its application answers the callback with a rejection. */
  datatype Action =
    | Propose(who: nat, publicWire: bool, proposal: Proposal, refusing: set<nat>)
    | ProposeUpdate(who: nat, publicWire: bool, hpke: Secret, patch: LeafPatch, refusing: set<nat>)
    | Discard(who: nat, ref: Ref)
    | CommitBy(who: nat, options: CommitOptions, seed: Secret, joining: map<nat, Joining>, refusing: set<nat>)
    | JoinFrom(
        from: nat, newcomer: nat, keyPackage: KeyPackage, keys: PrivateKeyPackage, externally: ExternalOptions,
        seed: Secret,
        refusing: set<nat>)

  /** A proposal other than an Update, sent by `who` and received by the rest. */
  ghost function ProposeStep(env: Env, g: Group, who: nat, wire: bool, p: Proposal, refusing: set<nat>): Group
    requires GroupOk(g) && who in g.members
  {
    MembersValid(g);
    var a := g.members[who];
    var n := SendProposal(env, a, wire, p, g.next);
    if n.Err? || p.Update? then g else
    Group(
      map j | j in g.members ::
        if j == who then n.value
        else Deliver(env, g.members[j], WireOf(wire), a, Proposed(OwnItemOf(a, p), g.next), j !in refusing),
      g.next + 1, g.maxPending)
  }

  ghost function UpdateStepOf(
      env: Env, g: Group, who: nat, wire: bool, hpke: Secret, patch: LeafPatch, refusing: set<nat>): Group
    requires GroupOk(g) && who in g.members
  {
    MembersValid(g);
    var a := g.members[who];
    var n := CreateUpdate(env, a, wire, hpke, patch, g.next);
    if n.Err? then g else
    var leaf := UpdatedLeaf(a, LeafAt(a.tree, a.privatePath.leaf).value, hpke, patch);
    Group(
      map j | j in g.members ::
        if j == who then n.value
        else Deliver(env, g.members[j], WireOf(wire), a, Proposed(OwnItemOf(a, Update(leaf)), g.next), j !in refusing),
      g.next + 1, g.maxPending)
  }

  /** One member forgets a pending proposal. */
  ghost function DiscardStep(g: Group, who: nat, ref: Ref): Group
    requires who in g.members
  {
    g.(members := g.members[who := DiscardPending(g.members[who], ref)])
  }

  lemma {:induction false} MembersValid(g: Group)
    requires GroupOk(g)
    ensures forall i | i in g.members :: Valid(g.members[i].tree)
  {
    hide Exact, GoodTree, Signs, UpdateKeysOk, SendersKnown;
  }

  /** `n` is `st` with the proposal stored, or without. */
  ghost predicate Stored(st: ClientState, n: ClientState, ref: Ref, item: ProposalWithSender, stored: bool) {
    n == (if stored then WithPending(st, ref, item) else st).(secretTree := n.secretTree, updateKeys := n.updateKeys)
  }

  lemma {:induction false} StoredFinds(
      st: ClientState, n: ClientState, ref: Ref, item: ProposalWithSender, stored: bool, next: nat)
    requires Stored(st, n, ref, item, stored) && RefsOld(st, next) && ref.id == next
    ensures forall r: Ref ::
      FindPending(n.pending, r) ==
        (if r != ref then FindPending(st.pending, r) else if stored then Some(item) else None)
  {
    forall r: Ref { FindAdded(st.pending, Pending(ref, item), r); }
  }

  /** A new reference names one proposal to all who store it. */
  lemma {:induction false} StillInStep(
      a: ClientState, b: ClientState, n: ClientState, m: ClientState, ref: Ref, item: ProposalWithSender, atA: bool,
      atB: bool, next: nat)
    requires InStep(a, b) && RefsOld(a, next) && RefsOld(b, next) && ref.id == next
    requires Stored(a, n, ref, item, atA) && Stored(b, m, ref, item, atB)
    ensures InStep(n, m)
  {
    StoredFinds(a, n, ref, item, atA, next);
    StoredFinds(b, m, ref, item, atB, next);
    hide Stored, RefsOld;
    assert SameEpoch(n, m) && n.active == m.active && n.privatePath.leaf == a.privatePath.leaf &&
      m.privatePath.leaf == b.privatePath.leaf by {
      StoredKeeps(a, n, ref, item, atA);
      StoredKeeps(b, m, ref, item, atB);
    }
  }

  lemma {:induction false} StoredKeeps(
      st: ClientState, n: ClientState, ref: Ref, item: ProposalWithSender, stored: bool)
    requires Stored(st, n, ref, item, stored)
    ensures SameEpoch(st, n) && n.active == st.active && n.privatePath == st.privatePath
  {
  }

  /** What every member looks like after a proposal was sent to it. */
  ghost predicate AllStored(g: Group, h: Group, ref: Ref, item: ProposalWithSender, storing: set<nat>) {
    && h.members.Keys == g.members.Keys && h.maxPending == g.maxPending && h.next == g.next + 1 && ref.id == g.next
    && forall j | j in g.members ::
         InGoodOrder(h.members[j], h.next, h.maxPending) && Stored(g.members[j], h.members[j], ref, item, j in storing)
  }

  lemma {:induction false} StoredKeepsGroup(g: Group, h: Group, ref: Ref, item: ProposalWithSender, storing: set<nat>)
    requires GroupOk(g) && AllStored(g, h, ref, item, storing)
    ensures GroupOk(h)
  {
    hide InGoodOrder, InStep, Stored, RefsOld;
    forall i, j | i in h.members && j in h.members && i != j ensures InStep(h.members[i], h.members[j]) {
      OrderFacts(g.members[i], g.next, g.maxPending);
      OrderFacts(g.members[j], g.next, g.maxPending);
      StillInStep(
        g.members[i], g.members[j], h.members[i], h.members[j], ref, item, i in storing, j in storing, g.next);
    }
  }

  lemma {:induction false} OrderFacts(st: ClientState, next: nat, maxPending: int)
    requires InGoodOrder(st, next, maxPending)
    ensures Valid(st.tree) && MemberOk(st) && GoodTree(st.tree)
    ensures HasLeaf(st.tree, st.privatePath.leaf) && st.maxPending == maxPending
    ensures Signs(st.tree, st.privatePath.leaf, st.signKey) && RefsOld(st, next)
  {
    hide GoodTree;
  }

  /** A member that stored nothing is in order as before. */
  lemma {:induction false} UnstoredKeepsOrder(st: ClientState, n: ClientState, next: nat, maxPending: int)
    requires InGoodOrder(st, next, maxPending) && n == st.(secretTree := n.secretTree)
    ensures InGoodOrder(n, next + 1, maxPending)
  {
    hide GoodTree, Exact, Signs;
  }

  lemma {:induction false} OthersReceive(env: Env, g: Group, who: nat, wire: bool, p: Proposal, j: nat, accept: bool)
    requires GroupOk(g) && who in g.members && j in g.members && j != who
    requires Valid(g.members[who].tree) && SendProposal(env, g.members[who], wire, p, g.next).Ok?
    ensures var a, b := g.members[who], g.members[j];
      var ref, item := Ref(a.context.epoch, g.next), OwnItemOf(a, p);
      Valid(b.tree) &&
      var n := Deliver(env, b, WireOf(wire), a, Proposed(item, g.next), accept);
      InGoodOrder(n, g.next + 1, g.maxPending) && Stored(b, n, ref, item, Stores(b, accept))
  {
    hide SendProposal, Deliver, InGoodOrder, OnReceipt, CapacityError, WithPending;
    var a, b := g.members[who], g.members[j];
    assert InStep(a, b) && InStep(b, a);
    OrderFacts(a, g.next, g.maxPending);
    OrderFacts(b, g.next, g.maxPending);
    SendIs(env, a, wire, p, g.next);
    DeliverProposal(env, a, b, wire, p, g.next, accept);
    var n := Deliver(env, b, WireOf(wire), a, Proposed(OwnItemOf(a, p), g.next), accept);
    if Stores(b, accept) {
      PendingKeepsOrder(b, n, Ref(a.context.epoch, g.next), OwnItemOf(a, p), g.next, g.maxPending);
    } else {
      UnstoredKeepsOrder(b, n, g.next, g.maxPending);
    }
    KeepsKeys(b, n, Ref(a.context.epoch, g.next), OwnItemOf(a, p), Stores(b, accept));
  }

  /** Who stores a proposal of `who`'s: itself, and the others that accept it and have room. */
  ghost function Storing(g: Group, who: nat, refusing: set<nat>): set<nat> {
    set j | j in g.members && (j == who || Stores(g.members[j], j !in refusing))
  }

  /** Every member after the proposal, its sender included. */
  lemma {:induction false} ProposedTo(env: Env, g: Group, who: nat, wire: bool, p: Proposal, refusing: set<nat>, j: nat)
    requires GroupOk(g) && who in g.members && j in g.members && !p.Update?
    requires Valid(g.members[who].tree) && SendProposal(env, g.members[who], wire, p, g.next).Ok?
    ensures var a, n := g.members[who], ProposeStep(env, g, who, wire, p, refusing).members[j];
      var ref, item := Ref(a.context.epoch, g.next), OwnItemOf(a, p);
      InGoodOrder(n, g.next + 1, g.maxPending) && Stored(g.members[j], n, ref, item, j in Storing(g, who, refusing))
  {
    hide SendProposal, Deliver, InGoodOrder, InStep, WithPending, OnReceipt, MemberOk, GoodTree, Stores;
    var a, ref, item := g.members[who], Ref(g.members[who].context.epoch, g.next), OwnItemOf(g.members[who], p);
    var n := ProposeStep(env, g, who, wire, p, refusing).members[j];
    if j == who {
      SendIs(env, a, wire, p, g.next);
      OrderFacts(a, g.next, g.maxPending);
      PendingKeepsOrder(a, n, ref, item, g.next, g.maxPending);
      KeepsKeys(a, n, ref, item, true);
    } else {
      OthersReceive(env, g, who, wire, p, j, j !in refusing);
    }
  }

  lemma {:induction false} ProposeStores(env: Env, g: Group, who: nat, wire: bool, p: Proposal, refusing: set<nat>)
    requires GroupOk(g) && who in g.members && Valid(g.members[who].tree) && !p.Update?
    requires SendProposal(env, g.members[who], wire, p, g.next).Ok?
    ensures AllStored(
      g, ProposeStep(env, g, who, wire, p, refusing), Ref(g.members[who].context.epoch, g.next),
      OwnItemOf(g.members[who], p),
      Storing(g, who, refusing))
  {
    hide SendProposal, Deliver, InGoodOrder, InStep, Stored, OnReceipt, OwnItemOf, Storing;
    MembersValid(g);
    var a := g.members[who];
    var h, ref, item := ProposeStep(env, g, who, wire, p, refusing), Ref(a.context.epoch, g.next), OwnItemOf(a, p);
    forall j | j in g.members
      ensures InGoodOrder(h.members[j], h.next, h.maxPending)
      ensures Stored(g.members[j], h.members[j], ref, item, j in Storing(g, who, refusing))
    {
      ProposedTo(env, g, who, wire, p, refusing, j);
    }
  }

  lemma {:induction false} ProposeKeepsGroup(env: Env, g: Group, who: nat, wire: bool, p: Proposal, refusing: set<nat>)
    requires GroupOk(g) && who in g.members
    ensures GroupOk(ProposeStep(env, g, who, wire, p, refusing))
  {
    hide SendProposal, Deliver, InGoodOrder, InStep, WithPending, OnReceipt, OwnItemOf, AllStored, Storing;
    MembersValid(g);
    var a := g.members[who];
    if SendProposal(env, a, wire, p, g.next).Ok? && !p.Update? {
      var h, ref, item := ProposeStep(env, g, who, wire, p, refusing), Ref(a.context.epoch, g.next), OwnItemOf(a, p);
      ProposeStores(env, g, who, wire, p, refusing);
      StoredKeepsGroup(g, h, ref, item, Storing(g, who, refusing));
    }
  }

  lemma {:induction false} KeepsKeys(st: ClientState, n: ClientState, ref: Ref, item: ProposalWithSender, stored: bool)
    requires n == (if stored then WithPending(st, ref, item) else st).(secretTree := n.secretTree)
    ensures Stored(st, n, ref, item, stored)
  {
  }

  lemma {:induction false} UpdateSentIs(env: Env, st: ClientState, wire: bool, hpke: Secret, patch: LeafPatch, id: nat)
    requires Valid(st.tree) && Signs(st.tree, st.privatePath.leaf, st.signKey)
    requires CreateUpdate(env, st, wire, hpke, patch, id).Ok?
    ensures var leaf := UpdatedLeaf(st, LeafAt(st.tree, st.privatePath.leaf).value, hpke, patch);
      var n, ref, key :=
        CreateUpdate(env, st, wire, hpke, patch, id).value, Ref(st.context.epoch, id),
        PendingKey(hpke, patch.signature);
      && SendProposal(env, st, wire, Update(leaf), id).Ok?
      && n == WithPending(st, ref, OwnItemOf(st, Update(leaf))).(secretTree := n.secretTree,
        updateKeys := st.updateKeys[ref := key])
      && leaf.hpkeKey == Pub(key.hpke) && leaf.sigKey == Pub(OrElse(key.signature, st.signKey))
  {
    hide SendProposal;
    SendIs(env, st, wire, Update(UpdatedLeaf(st, LeafAt(st.tree, st.privatePath.leaf).value, hpke, patch)), id);
  }

  lemma {:induction false} StoresUpdate(
      env: Env, g: Group, who: nat, wire: bool, hpke: Secret, patch: LeafPatch, refusing: set<nat>, j: nat)
    requires GroupOk(g) && who in g.members && j in g.members
    requires Valid(g.members[who].tree) && CreateUpdate(env, g.members[who], wire, hpke, patch, g.next).Ok?
    requires LeafAt(g.members[who].tree, g.members[who].privatePath.leaf).Some?
    ensures var a, h := g.members[who], UpdateStepOf(env, g, who, wire, hpke, patch, refusing);
      var leaf := UpdatedLeaf(a, LeafAt(a.tree, a.privatePath.leaf).value, hpke, patch);
      var ref, item := Ref(a.context.epoch, g.next), OwnItemOf(a, Update(leaf));
      && j in h.members && InGoodOrder(h.members[j], g.next + 1, g.maxPending)
      && Stored(g.members[j], h.members[j], ref, item, j in Storing(g, who, refusing))
  {
    hide SendProposal, CreateUpdate, Deliver, InGoodOrder, InStep, WithPending, UpdatedLeaf, Stores;
    MembersValid(g);
    var a, h := g.members[who], UpdateStepOf(env, g, who, wire, hpke, patch, refusing);
    OrderFacts(a, g.next, g.maxPending);
    UpdateSentIs(env, a, wire, hpke, patch, g.next);
    var leaf := UpdatedLeaf(a, LeafAt(a.tree, a.privatePath.leaf).value, hpke, patch);
    var ref, item := Ref(a.context.epoch, g.next), OwnItemOf(a, Update(leaf));
    if j == who {
      UpdateKeepsOrder(a, h.members[j], ref, leaf, PendingKey(hpke, patch.signature), g.next, g.maxPending);
    } else {
      OthersReceive(env, g, who, wire, Update(leaf), j, j !in refusing);
    }
  }

  lemma {:induction false} UpdateStores(
      env: Env, g: Group, who: nat, wire: bool, hpke: Secret, patch: LeafPatch, refusing: set<nat>)
    requires GroupOk(g) && who in g.members && Valid(g.members[who].tree)
    requires CreateUpdate(env, g.members[who], wire, hpke, patch, g.next).Ok?
    ensures var a := g.members[who];
      LeafAt(a.tree, a.privatePath.leaf).Some? &&
      var leaf := UpdatedLeaf(a, LeafAt(a.tree, a.privatePath.leaf).value, hpke, patch);
      AllStored(
        g, UpdateStepOf(env, g, who, wire, hpke, patch, refusing), Ref(a.context.epoch, g.next),
        OwnItemOf(a, Update(leaf)),
        Storing(g, who, refusing))
  {
    hide SendProposal, CreateUpdate, Deliver, InGoodOrder, InStep, Stored, UpdatedLeaf, OwnItemOf, GoodTree, MemberOk,
      Storing;
    MembersValid(g);
    var a := g.members[who];
    OrderFacts(a, g.next, g.maxPending);
    var leaf := UpdatedLeaf(a, LeafAt(a.tree, a.privatePath.leaf).value, hpke, patch);
    var h, ref, item :=
      UpdateStepOf(env, g, who, wire, hpke, patch, refusing), Ref(a.context.epoch, g.next), OwnItemOf(a, Update(leaf));
    forall j | j in g.members
      ensures InGoodOrder(h.members[j], h.next, h.maxPending)
      ensures Stored(g.members[j], h.members[j], ref, item, j in Storing(g, who, refusing))
    {
      StoresUpdate(env, g, who, wire, hpke, patch, refusing, j);
    }
  }

  lemma {:induction false} UpdateKeepsGroup(
      env: Env, g: Group, who: nat, wire: bool, hpke: Secret, patch: LeafPatch, refusing: set<nat>)
    requires GroupOk(g) && who in g.members
    ensures GroupOk(UpdateStepOf(env, g, who, wire, hpke, patch, refusing))
  {
    hide SendProposal, CreateUpdate, Deliver, InGoodOrder, InStep, WithPending, UpdatedLeaf, OwnItemOf, GoodTree,
      MemberOk, AllStored, Storing;
    MembersValid(g);
    var a := g.members[who];
    if CreateUpdate(env, a, wire, hpke, patch, g.next).Ok? {
      UpdateStores(env, g, who, wire, hpke, patch, refusing);
      var leaf := UpdatedLeaf(a, LeafAt(a.tree, a.privatePath.leaf).value, hpke, patch);
      StoredKeepsGroup(
        g, UpdateStepOf(env, g, who, wire, hpke, patch, refusing), Ref(a.context.epoch, g.next),
        OwnItemOf(a, Update(leaf)),
        Storing(g, who, refusing));
    }
  }

  // ---- a member discards ----

  lemma {:induction false} DiscardKeepsOrder(st: ClientState, ref: Ref, next: nat, maxPending: int)
    requires InGoodOrder(st, next, maxPending)
    ensures InGoodOrder(DiscardPending(st, ref), next, maxPending)
  {
    hide GoodTree, MemberOk;
    DiscardKeeps(st, ref);
    forall r: Ref { FindWithout(st.pending, ref, r); }
  }

  lemma {:induction false} DiscardInStep(a: ClientState, b: ClientState, ref: Ref)
    requires InStep(a, b)
    ensures InStep(DiscardPending(a, ref), b) && InStep(b, DiscardPending(a, ref))
  {
    forall r: Ref { FindWithout(a.pending, ref, r); }
  }

  lemma {:induction false} DiscardKeepsGroup(g: Group, who: nat, ref: Ref)
    requires GroupOk(g) && who in g.members
    ensures GroupOk(DiscardStep(g, who, ref))
  {
    hide InGoodOrder, InStep, DiscardPending;
    var h := DiscardStep(g, who, ref);
    DiscardKeepsOrder(g.members[who], ref, g.next, g.maxPending);
    forall i, j | i in h.members && j in h.members && i != j ensures InStep(h.members[i], h.members[j]) {
      if i == who { DiscardInStep(g.members[who], g.members[j], ref); }
      if j == who { DiscardInStep(g.members[who], g.members[i], ref); }
    }
  }

  // ---- a member commits ----

  /** A commit its committer can make, from a fresh seed. */
  ghost predicate CommitStands(env: Env, st: ClientState, o: CommitOptions, seed: Secret) {
    && Valid(st.tree) && CreateCommit(env, st, o, seed).Ok?
    && Fresh(seed, DraftCommit(env, st, o, seed).value.applied.tree)
  }

  /** Newcomers by name, each for one of the commit's Adds and with the keys behind its key package. */
  ghost predicate JoiningFits(g: Group, d: Draft, joining: map<nat, Joining>) {
    && joining.Keys !! g.members.Keys
    && (forall k | k in joining ::
          d.applied.kind.MemberCommit? && joining[k].place < |d.applied.kind.added|
          && KeysFit(d.applied.kind.added[joining[k].place].keyPackage, joining[k].keys))
    && (forall k, m | k in joining && m in joining && k != m :: joining[k].place != joining[m].place)
  }

  ghost function JoinedAs(env: Env, g: Group, r: CommitResult, d: Draft, x: Joining): Result<ClientState>
    requires d.applied.kind.MemberCommit? && x.place < |d.applied.kind.added|
  {
    if r.welcome.None? then Err(NoMatchingSecret)
    else JoinGroup(env, r.welcome.value, d.applied.kind.added[x.place].keyPackage, x.keys, x.retain, g.maxPending)
  }

  /** What the message brings the member into the next epoch. */
  ghost predicate Follows(env: Env, b: ClientState, wire: Wireformat, a: ClientState, m: CommitMessage, accept: bool)
    requires Valid(b.tree)
  {
    Deliver(env, b, wire, a, Committed(m), accept).context.epoch == a.context.epoch + 1
  }

  /** Everyone receives the commit. Those it takes into the next epoch are the
      group from then on, with those it adds whose own policy allows. */
  ghost function CommitStep(
      env: Env, g: Group, who: nat, o: CommitOptions, seed: Secret, joining: map<nat, Joining>, refusing: set<nat>):
      Group
    requires GroupOk(g) && who in g.members
  {
    MembersValid(g);
    var a := g.members[who];
    if !CommitStands(env, a, o, seed) then g else
    var r, d := CreateCommit(env, a, o, seed).value, DraftCommit(env, a, o, seed).value;
    if !JoiningFits(g, d, joining) then g else
    Group(
      (map j | j in g.members &&
        (j == who || Follows(env, g.members[j], WireOf(o.publicWire), a, r.message, j !in refusing)) ::
        if j == who then r.state
        else Deliver(env, g.members[j], WireOf(o.publicWire), a, Committed(r.message), j !in refusing))
      + (map k | k in joining && JoinedAs(env, g, r, d, joining[k]).Ok? :: JoinedAs(env, g, r, d, joining[k]).value),
      g.next, g.maxPending)
  }

  /** A member of the new epoch: nothing pending, at leaf `l`. */
  ghost predicate InNewEpoch(r: ClientState, n: ClientState, l: nat, maxPending: int) {
    && SameEpoch(r, n) && n.active == r.active && MemberOk(n) && n.privatePath.leaf == l
    && n.pending == [] && n.updateKeys == map[] && n.maxPending == maxPending
  }

  lemma {:induction false} NewEpochOrder(r: ClientState, n: ClientState, l: nat, next: nat, maxPending: int)
    requires InNewEpoch(r, n, l, maxPending) && GoodTree(r.tree)
    ensures InGoodOrder(n, next, maxPending)
  {
    hide GoodTree, MemberOk;
  }

  lemma {:induction false} NewEpochInStep(
      r: ClientState, n: ClientState, m: ClientState, l: nat, k: nat, maxPending: int)
    requires InNewEpoch(r, n, l, maxPending) && InNewEpoch(r, m, k, maxPending) && l != k
    ensures InStep(n, m)
  {
    hide MemberOk;
  }

  /** Everyone in the new epoch at a leaf of their own: a group again. */
  lemma {:induction false} NewEpochGroup(h: Group, r: ClientState, leaf: map<nat, nat>)
    requires GoodTree(r.tree) && leaf.Keys == h.members.Keys
    requires forall i | i in h.members :: InNewEpoch(r, h.members[i], leaf[i], h.maxPending)
    requires forall i, j | i in h.members && j in h.members && i != j :: leaf[i] != leaf[j]
    ensures GroupOk(h)
  {
    hide InNewEpoch, InGoodOrder, InStep, GoodTree;
    forall i | i in h.members ensures InGoodOrder(h.members[i], h.next, h.maxPending) {
      NewEpochOrder(r, h.members[i], leaf[i], h.next, h.maxPending);
    }
    forall i, j | i in h.members && j in h.members && i != j ensures InStep(h.members[i], h.members[j]) {
      NewEpochInStep(r, h.members[i], h.members[j], leaf[i], leaf[j], h.maxPending);
    }
  }

  lemma {:induction false} CommitterInEpoch(
      env: Env, st: ClientState, o: CommitOptions, seed: Secret, next: nat, maxPending: int)
    requires InGoodOrder(st, next, maxPending) && CommitStands(env, st, o, seed)
    ensures var r := CreateCommit(env, st, o, seed).value.state;
      InNewEpoch(r, r, st.privatePath.leaf, maxPending) && GoodTree(r.tree) && st.active == IsActive
  {
    hide CreateCommit, DraftCommit, GoodTree, MemberOk, Fresh, LeafRefused, EpochOf, CommitterPath;
    var d := DraftCommitOf(env, st, o, seed);
    DraftFacts(env, st, o, seed, d);
    CommitterKeeps(env, st, o, seed, d);
    CommitterActive(env, st, o, seed);
  }

  lemma {:induction false} DraftCommitOf(env: Env, st: ClientState, o: CommitOptions, seed: Secret) returns (d: Draft)
    requires Valid(st.tree) && CreateCommit(env, st, o, seed).Ok?
    ensures DraftCommit(env, st, o, seed) == Ok(d) && Drafted(env, st, o, seed, d)
  {
    hide DraftCommit, CreateWelcome, CommitterState, EpochOf;
    d := DraftCommit(env, st, o, seed).value;
  }

  lemma {:induction false} CommitterActive(env: Env, st: ClientState, o: CommitOptions, seed: Secret)
    requires Valid(st.tree) && CreateCommit(env, st, o, seed).Ok?
    ensures st.active == IsActive
  {
    hide DraftCommit, CreateWelcome, CommitterState, EpochOf;
  }

  /** A commit its application rejects changes nothing. */
  lemma {:induction false} Rejected(env: Env, b: ClientState, m: CommitMessage)
    requires Valid(b.tree) && ProcessCommit(env, b, m, false).Ok?
    ensures ProcessCommit(env, b, m, false).value == b
  {
    hide ApplyProposals;
  }

  /** Exactly those follow that accept the commit, hold what it references and
      stay, given that its path's leaf stands; they are members of the new epoch. */
  lemma {:induction false} ReceiverInEpoch(
      env: Env, a: ClientState, b: ClientState, o: CommitOptions, seed: Secret, d: Draft, next: nat, maxPending: int,
      accept: bool)
    requires InGoodOrder(a, next, maxPending) && InGoodOrder(b, next, maxPending) && InStep(a, b)
    requires CommitStands(env, a, o, seed) && DraftCommit(env, a, o, seed) == Ok(d)
    ensures Valid(b.tree)
    ensures var r, wire := CreateCommit(env, a, o, seed).value, WireOf(o.publicWire);
      && (Follows(env, b, wire, a, r.message, accept)
          <==>
          && accept && Holds(b, d.props)
          && Stays(d.applied, b.privatePath.leaf) && !LeafRefused(env, a.privatePath.leaf, d))
      && (Follows(env, b, wire, a, r.message, accept) ==>
            InNewEpoch(r.state, Deliver(env, b, wire, a, Committed(r.message), accept), b.privatePath.leaf, maxPending))
  {
    hide CreateCommit, DraftCommit, GoodTree, MemberOk, Fresh, LeafRefused, Receive, Stays, ProcessCommit, Holds;
    OrderFacts(a, next, maxPending);
    OrderFacts(b, next, maxPending);
    CommitterActive(env, a, o, seed);
    var m, wire := CreateCommit(env, a, o, seed).value.message, WireOf(o.publicWire);
    DeliverIs(env, b, wire, a, Committed(m), accept);
    var ready := Opened(b, wire);
    OpenedOk(b, wire, next, maxPending);
    OrderFacts(ready, next, maxPending);
    assert Holds(ready, d.props) <==> Holds(b, d.props) by { OpenedHolds(b, wire, d.props); }
    if accept {
      FollowsIff(env, a, ready, o, seed, d);
      if ProcessCommit(env, ready, m, true).Ok? { KeepsBounds(env, ready, m); }
    } else if ProcessCommit(env, ready, m, false).Ok? {
      Rejected(env, ready, m);
    }
  }

  lemma {:induction false} OpenedHolds(b: ClientState, wire: Wireformat, props: seq<ProposalOrRef>)
    ensures Holds(Opened(b, wire), props) <==> Holds(b, props)
  {
  }

  /** Processing a commit leaves the client's configuration alone. */
  lemma {:induction false} KeepsBounds(env: Env, b: ClientState, m: CommitMessage)
    requires Valid(b.tree) && ProcessCommit(env, b, m, true).Ok?
    ensures ProcessCommit(env, b, m, true).value.maxPending == b.maxPending
  {
    hide ApplyProposals, ApplyTreeUpdate, PathError, AddHistory, NewSecretTree, ConfirmationTag, InitializeEpoch;
  }

  lemma {:induction false} JoinerInEpoch(
      env: Env, g: Group, a: ClientState, o: CommitOptions, seed: Secret, d: Draft, x: Joining)
    requires InGoodOrder(a, g.next, g.maxPending) && CommitStands(env, a, o, seed)
    requires DraftCommit(env, a, o, seed) == Ok(d)
    requires d.applied.kind.MemberCommit? && x.place < |d.applied.kind.added|
    requires KeysFit(d.applied.kind.added[x.place].keyPackage, x.keys)
    ensures var r := CreateCommit(env, a, o, seed).value;
      var j := JoinedAs(env, g, r, d, x);
      j.Ok? ==> InNewEpoch(r.state, j.value, d.applied.kind.added[x.place].leaf, g.maxPending)
  {
    hide CreateCommit, DraftCommit, GoodTree, MemberOk, Fresh, LeafRefused, JoinGroup, JoinPolicy, CommitterState,
      EpochOf;
    OrderFacts(a, g.next, g.maxPending);
    JoinerConverges(env, a, o, seed, d, x.place, x.keys, x.retain, g.maxPending);
    var r := CreateCommit(env, a, o, seed).value;
    if JoinedAs(env, g, r, d, x).Err? { return; }
    JoinerBounds(env, r.welcome.value, d.applied.kind.added[x.place].keyPackage, x.keys, x.retain, g.maxPending);
    DraftFacts(env, a, o, seed, d);
    ActiveAfterAdds(a, o, d);
    NotFlagged(env, a, d.props, d.applied);
  }

  lemma {:induction false} ActiveAfterAdds(a: ClientState, o: CommitOptions, d: Draft)
    ensures d.applied.kind.MemberCommit? && !d.applied.selfRemoved ==> CommitterState(a, o, d).active == IsActive
  {
    hide EpochOf, CommitterPath, AddHistory, NewSecretTree;
  }

  lemma {:induction false} JoinerBounds(
      env: Env, w: Welcome, kp: KeyPackage, keys: PrivateKeyPackage, retain: int, maxPending: int)
    requires JoinGroup(env, w, kp, keys, retain, maxPending).Ok?
    ensures JoinGroup(env, w, kp, keys, retain, maxPending).value.maxPending == maxPending
  {
    hide TreeAccepted, JoinKeys, DeriveKeySchedule, NewSecretTree, InfoError, PskSecret;
  }

  /** The leaf of each member after the commit. */
  ghost function LeafAfter(g: Group, d: Draft, joining: map<nat, Joining>, k: nat): nat
    requires k in joining ==> d.applied.kind.MemberCommit? && joining[k].place < |d.applied.kind.added|
  {
    if k in g.members then g.members[k].privatePath.leaf
    else if k in joining then d.applied.kind.added[joining[k].place].leaf else 0
  }

  lemma {:induction false} LeavesStayApart(env: Env, g: Group, who: nat, o: CommitOptions, seed: Secret, d: Draft,
    joining: map<nat, Joining>, i: nat, j: nat)
    requires GroupOk(g) && who in g.members && CommitStands(env, g.members[who], o, seed)
    requires DraftCommit(env, g.members[who], o, seed) == Ok(d) && JoiningFits(g, d, joining) && i != j
    requires i in g.members || i in joining
    requires j in g.members || j in joining
    requires i in g.members ==> i == who || Stays(d.applied, g.members[i].privatePath.leaf)
    requires j in g.members ==> j == who || Stays(d.applied, g.members[j].privatePath.leaf)
    ensures LeafAfter(g, d, joining, i) != LeafAfter(g, d, joining, j)
  {
    hide InGoodOrder, CommitStands, CreateCommit, DraftCommit;
    if i in g.members && j in g.members {
      assert InStep(g.members[i], g.members[j]);
    } else if i in g.members {
      OldAndNew(env, g, who, o, seed, d, joining, i, j);
    } else if j in g.members {
      OldAndNew(env, g, who, o, seed, d, joining, j, i);
    } else {
      TwoNew(env, g, who, o, seed, d, joining, i, j);
    }
  }

  lemma {:induction false} OldAndNew(env: Env, g: Group, who: nat, o: CommitOptions, seed: Secret, d: Draft,
    joining: map<nat, Joining>, i: nat, k: nat)
    requires GroupOk(g) && who in g.members && CommitStands(env, g.members[who], o, seed)
    requires DraftCommit(env, g.members[who], o, seed) == Ok(d) && JoiningFits(g, d, joining)
    requires i in g.members && k in joining && (i == who || Stays(d.applied, g.members[i].privatePath.leaf))
    ensures LeafAfter(g, d, joining, i) != LeafAfter(g, d, joining, k)
  {
    hide CreateCommit, DraftCommit, Exact, GoodTree, Fresh, LeafRefused, UpdateKeysOk, SendersKnown, Signs,
      ApplyProposals;
    var a, b := g.members[who], g.members[i];
    assert InGoodOrder(a, g.next, g.maxPending) && InGoodOrder(b, g.next, g.maxPending);
    assert i != who ==> InStep(a, b);
    OrderFacts(a, g.next, g.maxPending);
    OrderFacts(b, g.next, g.maxPending);
    CommitChange(env, a, o, seed, d);
    NotTaken(a.tree, d, b.privatePath.leaf, joining[k].place);
  }

  lemma {:induction false} CommitChange(env: Env, a: ClientState, o: CommitOptions, seed: Secret, d: Draft)
    requires MemberOk(a) && CommitStands(env, a, o, seed) && DraftCommit(env, a, o, seed) == Ok(d)
    ensures CommitApplied(a.tree, a.privatePath.leaf, d.applied)
  {
    hide CreateCommit, DraftCommit, ApplyProposals, Fresh, LeafRefused, CommitApplied, Covers, Signs, Exact;
    DraftFacts(env, a, o, seed, d);
    CommitterStays(env, a, d.props, a.privatePath.leaf, d.applied);
  }

  /** An Add is never put in the leaf of a member that stays. */
  lemma {:induction false} NotTaken(t: Tree, d: Draft, l: nat, place: nat)
    requires exists s :: CommitApplied(t, s, d.applied)
    requires d.applied.kind.MemberCommit? && place < |d.applied.kind.added| && HasLeaf(t, l) && Stays(d.applied, l)
    ensures d.applied.kind.added[place].leaf != l
  {
    var m := Mutated(d.applied.tree, d.applied.kind.added);
    assert m.added[place].leaf == d.applied.kind.added[place].leaf;
    assert !Joined(m, l);
  }

  lemma {:induction false} TwoNew(env: Env, g: Group, who: nat, o: CommitOptions, seed: Secret, d: Draft,
    joining: map<nat, Joining>, i: nat, k: nat)
    requires GroupOk(g) && who in g.members && CommitStands(env, g.members[who], o, seed)
    requires DraftCommit(env, g.members[who], o, seed) == Ok(d) && JoiningFits(g, d, joining)
    requires i in joining && k in joining && i != k
    ensures LeafAfter(g, d, joining, i) != LeafAfter(g, d, joining, k)
  {
    hide CreateCommit, DraftCommit, Exact, GoodTree, Fresh, LeafRefused, UpdateKeysOk, SendersKnown, Signs,
      ApplyProposals, JustAdded;
    var a := g.members[who];
    assert InGoodOrder(a, g.next, g.maxPending);
    CommitChange(env, a, o, seed, d);
    var m, x, y := Mutated(d.applied.tree, d.applied.kind.added), joining[i].place, joining[k].place;
    assert x != y;
    assert x < y ==> m.added[x].leaf != m.added[y].leaf;
    assert y < x ==> m.added[y].leaf != m.added[x].leaf;
  }

  /** Where each member of the group after the commit comes from. */
  lemma {:induction false} MemberInEpoch(
      env: Env, g: Group, who: nat, o: CommitOptions, seed: Secret, d: Draft, joining: map<nat, Joining>,
      refusing: set<nat>, i: nat)
    requires GroupOk(g) && who in g.members && CommitStands(env, g.members[who], o, seed)
    requires DraftCommit(env, g.members[who], o, seed) == Ok(d) && JoiningFits(g, d, joining)
    requires i in CommitStep(env, g, who, o, seed, joining, refusing).members
    ensures var h := CommitStep(env, g, who, o, seed, joining, refusing);
      var r := CreateCommit(env, g.members[who], o, seed).value;
      InNewEpoch(r.state, h.members[i], LeafAfter(g, d, joining, i), h.maxPending)
      && (i in g.members || i in joining)
      && (i in g.members ==> i == who || Stays(d.applied, g.members[i].privatePath.leaf))
  {
    hide CreateCommit, DraftCommit, CommitStands, InNewEpoch, InGoodOrder, InStep, Deliver, Follows, JoinedAs,
      KeysFit, Stays, Holds, LeafRefused;
    MembersValid(g);
    var a := g.members[who];
    if i in joining {
      JoinerInEpoch(env, g, a, o, seed, d, joining[i]);
    } else if i == who {
      CommitterInEpoch(env, a, o, seed, g.next, g.maxPending);
    } else {
      assert InStep(a, g.members[i]);
      ReceiverInEpoch(env, a, g.members[i], o, seed, d, g.next, g.maxPending, i !in refusing);
    }
  }

  /** Who of the old group is in the new one: the committer, and each member that
      accepts the commit, holds what it references, and is not removed by it. */
  lemma {:induction false} CommitTakesIff(
      env: Env, g: Group, who: nat, o: CommitOptions, seed: Secret, d: Draft, joining: map<nat, Joining>,
      refusing: set<nat>, i: nat)
    requires GroupOk(g) && who in g.members && CommitStands(env, g.members[who], o, seed)
    requires DraftCommit(env, g.members[who], o, seed) == Ok(d) && JoiningFits(g, d, joining) && i in g.members
    ensures i in CommitStep(env, g, who, o, seed, joining, refusing).members <==>
      i == who
      || (i !in refusing && Holds(g.members[i], d.props) && Stays(d.applied, g.members[i].privatePath.leaf)
          && !LeafRefused(env, g.members[who].privatePath.leaf, d))
  {
    hide CreateCommit, DraftCommit, CommitStands, InNewEpoch, InGoodOrder, InStep, Deliver, Follows, JoinedAs,
      KeysFit, Stays, Holds, LeafRefused;
    MembersValid(g);
    if i != who {
      assert InStep(g.members[who], g.members[i]);
      ReceiverInEpoch(env, g.members[who], g.members[i], o, seed, d, g.next, g.maxPending, i !in refusing);
    }
  }

  lemma {:induction false} CommitKeepsGroup(
      env: Env, g: Group, who: nat, o: CommitOptions, seed: Secret, joining: map<nat, Joining>, refusing: set<nat>)
    requires GroupOk(g) && who in g.members
    ensures GroupOk(CommitStep(env, g, who, o, seed, joining, refusing))
  {
    hide CreateCommit, DraftCommit, CommitStands, InNewEpoch, InGoodOrder, InStep, Deliver, Follows, JoinedAs,
      KeysFit, Stays, JoiningFits;
    MembersValid(g);
    var a, h := g.members[who], CommitStep(env, g, who, o, seed, joining, refusing);
    if CommitStands(env, a, o, seed) {
      StandsIs(env, a, o, seed);
      var d := DraftCommitOf(env, a, o, seed);
      if JoiningFits(g, d, joining) {
        FitsIn(g, d, joining);
        var leaf := map k | k in h.members :: LeafAfter(g, d, joining, k);
        CommitterInEpoch(env, a, o, seed, g.next, g.maxPending);
        hide CommitStep;
        forall i | i in h.members
          ensures InNewEpoch(CreateCommit(env, a, o, seed).value.state, h.members[i], leaf[i], h.maxPending)
        {
          MemberInEpoch(env, g, who, o, seed, d, joining, refusing, i);
        }
        forall i, j | i in h.members && j in h.members && i != j ensures leaf[i] != leaf[j] {
          MemberInEpoch(env, g, who, o, seed, d, joining, refusing, i);
          MemberInEpoch(env, g, who, o, seed, d, joining, refusing, j);
          LeavesStayApart(env, g, who, o, seed, d, joining, i, j);
        }
        NewEpochGroup(h, CreateCommit(env, a, o, seed).value.state, leaf);
      }
    }
  }

  lemma {:induction false} FitsIn(g: Group, d: Draft, joining: map<nat, Joining>)
    requires JoiningFits(g, d, joining)
    ensures forall k | k in joining :: d.applied.kind.MemberCommit? && joining[k].place < |d.applied.kind.added|
  {
  }

  lemma {:induction false} StandsIs(env: Env, a: ClientState, o: CommitOptions, seed: Secret)
    requires CommitStands(env, a, o, seed)
    ensures Valid(a.tree) && CreateCommit(env, a, o, seed).Ok?
  {
    hide CreateCommit, DraftCommit;
  }

  // ---- someone joins from outside ----

  /** An external join, against the info a member publishes, that the members' checks let through. */
  ghost predicate JoinStands(
      env: Env, a: ClientState, kp: KeyPackage, keys: PrivateKeyPackage, o: ExternalOptions, seed: Secret) {
    && Valid(a.tree) && a.active == IsActive && JoinExternal(env, PublishInfo(a), kp, keys, o, seed).Ok?
    && DraftExternal(env, PublishInfo(a).info, kp, keys, o.resync, seed).Ok?
    && (var d := DraftExternal(env, PublishInfo(a).info, kp, keys, o.resync, seed).value;
        && JoinDrafted(env, PublishInfo(a).info, kp, keys, o.resync, seed, d)
        && !ResyncMismatch(a.tree, d) && !JoinerLeafRefused(env, PublishInfo(a).info, d))
  }

  ghost function ExternalStep(
      env: Env, g: Group, from: nat, newcomer: nat, kp: KeyPackage, keys: PrivateKeyPackage, o: ExternalOptions,
      seed: Secret, refusing: set<nat>): Group
    requires GroupOk(g) && from in g.members
  {
    hide JoinExternal, DraftExternal, InGoodOrder, InStep, JoinDrafted, ResyncMismatch, JoinerLeafRefused;
    MembersValid(g);
    var a := g.members[from];
    if !JoinStands(env, a, kp, keys, o, seed) || newcomer in g.members || o.maxPending != g.maxPending then g else
    var r := JoinExternal(env, PublishInfo(a), kp, keys, o, seed).value;
    Group(
      (map j | j in g.members && Follows(env, g.members[j], PublicWire, a, r.message, j !in refusing) ::
        Deliver(env, g.members[j], PublicWire, a, Committed(r.message), j !in refusing))
      + map[newcomer := r.state],
      g.next, g.maxPending)
  }

  lemma {:induction false} NewcomerInEpoch(
      env: Env, a: ClientState, kp: KeyPackage, keys: PrivateKeyPackage, o: ExternalOptions, seed: Secret,
      d: ExternalDraft)
    requires JoinStands(env, a, kp, keys, o, seed) && GoodTree(a.tree)
    requires DraftExternal(env, PublishInfo(a).info, kp, keys, o.resync, seed) == Ok(d)
    ensures var r := JoinExternal(env, PublishInfo(a), kp, keys, o, seed).value.state;
      InNewEpoch(r, r, d.leaf, o.maxPending) && GoodTree(r.tree) && r.active == IsActive
  {
    hide JoinExternal, DraftExternal, GoodTree, MemberOk, JoinDrafted, ResyncMismatch, JoinerLeafRefused,
      ExternalEpoch, ExternalKeys, NewSecretTree;
    var e := PublishInfo(a);
    DraftedIs(env, e.info, kp, keys, o.resync, seed, d);
    JoinResult(env, e, kp, keys, o, seed, d);
    ExternalJoinerKeeps(env, e, kp, keys, o, seed, d);
    ExternalTreeGood(env, e.info, kp, keys, o.resync, seed, d);
    JoinerBound(env, e, kp, keys, o, seed);
  }

  lemma {:induction false} JoinerBound(
      env: Env, e: ExternalInfo, kp: KeyPackage, keys: PrivateKeyPackage, o: ExternalOptions, seed: Secret)
    requires JoinExternal(env, e, kp, keys, o, seed).Ok?
    ensures JoinExternal(env, e, kp, keys, o, seed).value.state.maxPending == o.maxPending
  {
    hide DraftExternal, TreeAccepted, ExternalEpoch, ExternalKeys, NewSecretTree;
  }

  lemma {:induction false} MemberMeetsNewcomer(
      env: Env, a: ClientState, b: ClientState, kp: KeyPackage, keys: PrivateKeyPackage, o: ExternalOptions,
      seed: Secret, d: ExternalDraft, next: nat, maxPending: int, accept: bool)
    requires InGoodOrder(a, next, maxPending) && InGoodOrder(b, next, maxPending) && (a == b || InStep(a, b))
    requires JoinStands(env, a, kp, keys, o, seed)
    requires DraftExternal(env, PublishInfo(a).info, kp, keys, o.resync, seed) == Ok(d)
    ensures Valid(b.tree)
    ensures var r := JoinExternal(env, PublishInfo(a), kp, keys, o, seed).value;
      && (Follows(env, b, PublicWire, a, r.message, accept) <==> accept && b.privatePath.leaf !in d.removes)
      && (Follows(env, b, PublicWire, a, r.message, accept) ==>
            b.privatePath.leaf != d.leaf
            && InNewEpoch(r.state, Deliver(env, b, PublicWire, a, Committed(r.message), accept), b.privatePath.leaf,
              maxPending))
  {
    hide JoinExternal, DraftExternal, GoodTree, JoinDrafted, ResyncMismatch, JoinerLeafRefused, Receive,
      ProcessCommit, Exact, Signs, UpdateKeysOk, SendersKnown;
    OrderFacts(a, next, maxPending);
    OrderFacts(b, next, maxPending);
    var e := PublishInfo(a);
    var m := JoinExternal(env, e, kp, keys, o, seed).value.message;
    DeliverIs(env, b, PublicWire, a, Committed(m), accept);
    DraftedIs(env, e.info, kp, keys, o.resync, seed, d);
    hide JoinMade;
    NextEpochNumber(env, e, kp, keys, o, seed, d);
    if !accept {
      if ProcessCommit(env, b, m, false).Ok? { Rejected(env, b, m); }
    } else if b.privatePath.leaf in d.removes {
      ReplacedThrows(env, b, e, kp, keys, o, seed, d);
    } else {
      ExternalConverges(env, b, e, kp, keys, o, seed, d);
      KeepsBounds(env, b, m);
      NotNewcomersLeaf(env, e.info, kp, keys, o.resync, seed, d, b);
    }
  }

  lemma {:induction false} NextEpochNumber(
      env: Env, e: ExternalInfo, kp: KeyPackage, keys: PrivateKeyPackage, o: ExternalOptions, seed: Secret,
      d: ExternalDraft)
    requires JoinExternal(env, e, kp, keys, o, seed).Ok? && JoinMade(env, e.info, kp, keys, o.resync, seed, d)
    ensures JoinExternal(env, e, kp, keys, o, seed).value.state.context.epoch == e.info.context.epoch + 1
  {
    hide JoinExternal, JoinMade, MemberOk;
    ExternalJoinerKeeps(env, e, kp, keys, o, seed, d);
  }

  lemma {:induction false} NotNewcomersLeaf(
      env: Env, gi: GroupInfo, kp: KeyPackage, keys: PrivateKeyPackage, resync: bool, seed: Secret, d: ExternalDraft,
      b: ClientState)
    requires JoinMade(env, gi, kp, keys, resync, seed, d) && b.tree == gi.tree
    requires MemberOk(b) && b.privatePath.leaf !in d.removes
    ensures b.privatePath.leaf != d.leaf
  {
    hide DraftExternal, JoinMade, Exact, Covers, Signs, UpdateKeysOk, SendersKnown, JustAdded, CreateUpdatePath,
      AddLeaf;
    DraftIs(env, gi, kp, keys, resync, seed, d);
    VacancyCovers(b, d.removes, d.base, kp.leaf);
  }

  /** The external step, laid open. */
  lemma {:induction false} ExternalStepIs(
      env: Env, g: Group, from: nat, newcomer: nat, kp: KeyPackage, keys: PrivateKeyPackage, o: ExternalOptions,
      seed: Secret, refusing: set<nat>)
    requires GroupOk(g) && from in g.members && JoinStands(env, g.members[from], kp, keys, o, seed)
    requires newcomer !in g.members && o.maxPending == g.maxPending
    ensures JoinExternal(env, PublishInfo(g.members[from]), kp, keys, o, seed).Ok?
    ensures var a, h := g.members[from], ExternalStep(env, g, from, newcomer, kp, keys, o, seed, refusing);
      var r := JoinExternal(env, PublishInfo(a), kp, keys, o, seed).value;
      && h.next == g.next && h.maxPending == g.maxPending
      && newcomer in h.members && h.members[newcomer] == r.state
      && (forall i | i in h.members && i != newcomer :: i in g.members)
      && (forall i | i in g.members ::
            Valid(g.members[i].tree)
            && (i in h.members <==> Follows(env, g.members[i], PublicWire, a, r.message, i !in refusing))
            && (i in h.members ==>
              h.members[i] == Deliver(env, g.members[i], PublicWire, a, Committed(r.message), i !in refusing)))
  {
    hide JoinExternal, DraftExternal, InGoodOrder, InStep, JoinDrafted, ResyncMismatch, JoinerLeafRefused, Deliver,
      Follows;
    MembersValid(g);
  }

  /** A member follows an external join exactly when it accepts it and is not the client's former self. */
  lemma {:induction false} OldMemberInEpoch(
      env: Env, g: Group, from: nat, i: nat, kp: KeyPackage, keys: PrivateKeyPackage, o: ExternalOptions, seed: Secret,
      d: ExternalDraft, accept: bool)
    requires GroupOk(g) && from in g.members && JoinStands(env, g.members[from], kp, keys, o, seed)
    requires DraftExternal(env, PublishInfo(g.members[from]).info, kp, keys, o.resync, seed) == Ok(d)
    requires i in g.members
    ensures var a, b := g.members[from], g.members[i];
      var r := JoinExternal(env, PublishInfo(a), kp, keys, o, seed).value;
      && Valid(b.tree)
      && (Follows(env, b, PublicWire, a, r.message, accept) <==> accept && b.privatePath.leaf !in d.removes)
      && (Follows(env, b, PublicWire, a, r.message, accept) ==>
            b.privatePath.leaf != d.leaf
            && InNewEpoch(r.state, Deliver(env, b, PublicWire, a, Committed(r.message), accept), b.privatePath.leaf,
              g.maxPending))
  {
    hide JoinExternal, DraftExternal, JoinStands, InNewEpoch, InGoodOrder, InStep, Deliver, Follows;
    var a := g.members[from];
    assert i == from || InStep(a, g.members[i]);
    MemberMeetsNewcomer(env, a, g.members[i], kp, keys, o, seed, d, g.next, g.maxPending, accept);
  }

  lemma {:induction false} ExternalKeepsGroup(
      env: Env, g: Group, from: nat, newcomer: nat, kp: KeyPackage, keys: PrivateKeyPackage, o: ExternalOptions,
      seed: Secret, refusing: set<nat>)
    requires GroupOk(g) && from in g.members
    ensures GroupOk(ExternalStep(env, g, from, newcomer, kp, keys, o, seed, refusing))
  {
    hide JoinExternal, DraftExternal, JoinStands, InNewEpoch, InGoodOrder, InStep, Deliver, Follows;
    MembersValid(g);
    var a, h := g.members[from], ExternalStep(env, g, from, newcomer, kp, keys, o, seed, refusing);
    if JoinStands(env, a, kp, keys, o, seed) && newcomer !in g.members && o.maxPending == g.maxPending {
      hide ExternalStep;
      var d := JoinStandsIs(env, a, kp, keys, o, seed);
      ExternalStepIs(env, g, from, newcomer, kp, keys, o, seed, refusing);
      OrderFacts(a, g.next, g.maxPending);
      NewcomerInEpoch(env, a, kp, keys, o, seed, d);
      var r := JoinExternal(env, PublishInfo(a), kp, keys, o, seed).value.state;
      forall i | i in h.members && i != newcomer
        ensures InNewEpoch(r, h.members[i], g.members[i].privatePath.leaf, h.maxPending)
        ensures g.members[i].privatePath.leaf != d.leaf
      {
        OldMemberInEpoch(env, g, from, i, kp, keys, o, seed, d, i !in refusing);
      }
      NewcomerGroup(g, h, r, newcomer, d.leaf);
    }
  }

  /** Members that kept their leaves, and one newcomer at another. */
  lemma {:induction false} NewcomerGroup(g: Group, h: Group, r: ClientState, newcomer: nat, l: nat)
    requires GroupOk(g) && GoodTree(r.tree) && newcomer in h.members
    requires InNewEpoch(r, h.members[newcomer], l, h.maxPending)
    requires forall i | i in h.members && i != newcomer ::
      i in g.members && InNewEpoch(r, h.members[i], g.members[i].privatePath.leaf, h.maxPending) &&
        g.members[i].privatePath.leaf != l
    ensures GroupOk(h)
  {
    hide InNewEpoch, InGoodOrder, InStep, GoodTree;
    var leaf := map k | k in h.members :: if k == newcomer then l else g.members[k].privatePath.leaf;
    forall i, j | i in h.members && j in h.members && i != j ensures leaf[i] != leaf[j] {
      if i != newcomer && j != newcomer { StepLeaves(g.members[i], g.members[j]); }
    }
    NewEpochGroup(h, r, leaf);
  }

  lemma {:induction false} StepLeaves(a: ClientState, b: ClientState)
    requires InStep(a, b)
    ensures a.privatePath.leaf != b.privatePath.leaf
  {
  }

  lemma {:induction false} JoinStandsIs(
      env: Env, a: ClientState, kp: KeyPackage, keys: PrivateKeyPackage, o: ExternalOptions, seed: Secret)
      returns (d: ExternalDraft)
    requires JoinStands(env, a, kp, keys, o, seed)
    ensures Valid(a.tree) && JoinExternal(env, PublishInfo(a), kp, keys, o, seed).Ok?
    ensures DraftExternal(env, PublishInfo(a).info, kp, keys, o.resync, seed) == Ok(d)
  {
    hide JoinExternal, DraftExternal, JoinDrafted, ResyncMismatch, JoinerLeafRefused;
    d := DraftExternal(env, PublishInfo(a).info, kp, keys, o.resync, seed).value;
  }

  // ---- every run ----

  ghost function Act(env: Env, g: Group, x: Action): Group
    requires GroupOk(g)
  {
    match x
    case Propose(who, wire, p, no) => if who in g.members then ProposeStep(env, g, who, wire, p, no) else g
    case ProposeUpdate(who, wire, hpke, patch, no) =>
      if who in g.members then UpdateStepOf(env, g, who, wire, hpke, patch, no) else g
    case Discard(who, ref) => if who in g.members then DiscardStep(g, who, ref) else g
    case CommitBy(who, o, seed, joining, no) =>
      if who in g.members then CommitStep(env, g, who, o, seed, joining, no) else g
    case JoinFrom(from, newcomer, kp, keys, o, seed, no) =>
      if from in g.members then ExternalStep(env, g, from, newcomer, kp, keys, o, seed, no) else g
  }

  lemma {:induction false} ActKeepsGroup(env: Env, g: Group, x: Action)
    requires GroupOk(g)
    ensures GroupOk(Act(env, g, x))
  {
    hide GroupOk, ProposeStep, UpdateStepOf, DiscardStep, CommitStep, ExternalStep;
    match x
    case Propose(who, wire, p, no) => if who in g.members { ProposeKeepsGroup(env, g, who, wire, p, no); }
    case ProposeUpdate(who, wire, hpke, patch, no) =>
      if who in g.members { UpdateKeepsGroup(env, g, who, wire, hpke, patch, no); }
    case Discard(who, ref) => if who in g.members { DiscardKeepsGroup(g, who, ref); }
    case CommitBy(who, o, seed, joining, no) =>
      if who in g.members { CommitKeepsGroup(env, g, who, o, seed, joining, no); }
    case JoinFrom(from, newcomer, kp, keys, o, seed, no) =>
      if from in g.members { ExternalKeepsGroup(env, g, from, newcomer, kp, keys, o, seed, no); }
  }

  ghost function Run(env: Env, g: Group, xs: seq<Action>): Group
    requires GroupOk(g)
    decreases |xs|
  {
    hide GroupOk, Act;
    if xs == [] then g else
    ActKeepsGroup(env, g, xs[0]);
    Run(env, Act(env, g, xs[0]), xs[1..])
  }

  lemma {:induction false} RunKeepsGroup(env: Env, g: Group, xs: seq<Action>)
    requires GroupOk(g)
    ensures GroupOk(Run(env, g, xs))
    decreases |xs|
  {
    hide GroupOk, Act;
    if xs != [] {
      ActKeepsGroup(env, g, xs[0]);
      RunKeepsGroup(env, Act(env, g, xs[0]), xs[1..]);
    }
  }

  // ---- from the start ----

  /** createGroup. */
  function CreateGroup(
      groupId: nat, kp: KeyPackage, keys: PrivateKeyPackage, extensions: seq<Extension>, epochSecret: Secret,
      retain: int, maxPending: int): ClientState
  {
    var t: Tree := [Some(Leaf(kp.leaf))];
    var gc := GroupContext(kp.version, kp.suite, groupId, 0, RootHash(t), NoBytes, extensions);
    var schedule := DeriveEpochKeys(epochSecret);
    ClientState(
      gc, schedule, NewSecretTree(t, Derived(epochSecret, EncryptionLabel)), t, PrivatePath(0, map[0 := keys.hpkeKey]),
      keys.signKey,
      [], map[], ConfirmationTag(schedule, gc), map[], IsActive, retain, maxPending)
  }

  lemma {:induction false} CreatedInGoodOrder(
      groupId: nat, kp: KeyPackage, keys: PrivateKeyPackage, extensions: seq<Extension>, epochSecret: Secret,
      retain: int, maxPending: int)
    requires KeysFit(kp, keys)
    ensures InGoodOrder(CreateGroup(groupId, kp, keys, extensions, epochSecret, retain, maxPending), 0, maxPending)
  {
    hide RootHash, ConfirmationTag, NewSecretTree;
    var st := CreateGroup(groupId, kp, keys, extensions, epochSecret, retain, maxPending);
    var t := st.tree;
    assert forall x: nat :: At(t, x) == if x == 0 then Some(Leaf(kp.leaf)) else None;
    assert Exact(t, st.privatePath);
    assert GoodTree(t) by { OneLeafGood(t, kp.leaf); }
  }

  lemma {:induction false} OneLeafGood(t: Tree, leaf: LeafNode)
    requires t == [Some(Leaf(leaf))]
    ensures GoodTree(t)
  {
    assert forall x: nat :: At(t, x) == if x == 0 then Some(Leaf(leaf)) else None;
  }

  // ---- runs without refusals ----

  ghost predicate SamePending(g: Group) {
    forall i, j | i in g.members && j in g.members :: g.members[i].pending == g.members[j].pending
  }

  /** Nobody refuses or discards anything. */
  predicate Open(x: Action) {
    !x.Discard? && x.refusing == {}
  }

  lemma {:induction false} StoredAlike(
      g: Group, h: Group, ref: Ref, item: ProposalWithSender, who: nat, storing: set<nat>)
    requires SamePending(g) && AllStored(g, h, ref, item, storing) && storing == g.members.Keys
    ensures SamePending(h)
  {
    hide InGoodOrder, AddPending;
    forall i, j | i in h.members && j in h.members ensures h.members[i].pending == h.members[j].pending {
      assert Stored(g.members[i], h.members[i], ref, item, true) && Stored(g.members[j], h.members[j], ref, item, true);
    }
  }

  /** With equal limits and equal pending proposals, who sees room is everyone. */
  lemma {:induction false} AllStore(g: Group, who: nat)
    requires GroupOk(g) && SamePending(g) && who in g.members && CapacityError(g.members[who]).None?
    ensures Storing(g, who, {}) == g.members.Keys
  {
    hide MemberOk, GoodTree, InStep, RefsOld;
    forall j | j in g.members ensures Stores(g.members[j], true) {
      assert InGoodOrder(g.members[j], g.next, g.maxPending) && InGoodOrder(g.members[who], g.next, g.maxPending);
    }
  }

  lemma {:induction false} ProposeKeepsPending(env: Env, g: Group, who: nat, wire: bool, p: Proposal)
    requires GroupOk(g) && SamePending(g) && who in g.members
    ensures SamePending(ProposeStep(env, g, who, wire, p, {}))
  {
    hide SendProposal, GroupOk, SamePending, AllStored, Storing, OwnItemOf, OnReceipt, CapacityError;
    MembersValid(g);
    var a := g.members[who];
    if SendProposal(env, a, wire, p, g.next).Ok? && !p.Update? {
      SendIs(env, a, wire, p, g.next);
      AllStore(g, who);
      ProposeStores(env, g, who, wire, p, {});
      StoredAlike(
        g, ProposeStep(env, g, who, wire, p, {}), Ref(a.context.epoch, g.next), OwnItemOf(a, p), who,
        Storing(g, who, {}));
    }
  }

  lemma {:induction false} UpdateKeepsPending(env: Env, g: Group, who: nat, wire: bool, hpke: Secret, patch: LeafPatch)
    requires GroupOk(g) && SamePending(g) && who in g.members
    ensures SamePending(UpdateStepOf(env, g, who, wire, hpke, patch, {}))
  {
    hide SendProposal, CreateUpdate, SamePending, AllStored, Storing, OwnItemOf, OnReceipt, CapacityError,
      InGoodOrder, InStep;
    MembersValid(g);
    var a := g.members[who];
    if CreateUpdate(env, a, wire, hpke, patch, g.next).Ok? {
      OrderFacts(a, g.next, g.maxPending);
      UpdateSentIs(env, a, wire, hpke, patch, g.next);
      var leaf := UpdatedLeaf(a, LeafAt(a.tree, a.privatePath.leaf).value, hpke, patch);
      SendIs(env, a, wire, Update(leaf), g.next);
      AllStore(g, who);
      UpdateStores(env, g, who, wire, hpke, patch, {});
      StoredAlike(
        g, UpdateStepOf(env, g, who, wire, hpke, patch, {}), Ref(a.context.epoch, g.next), OwnItemOf(a, Update(leaf)),
        who,
        Storing(g, who, {}));
    }
  }

  lemma {:induction false} CommitKeepsPending(
      env: Env, g: Group, who: nat, o: CommitOptions, seed: Secret, joining: map<nat, Joining>, refusing: set<nat>)
    requires GroupOk(g) && SamePending(g) && who in g.members
    ensures SamePending(CommitStep(env, g, who, o, seed, joining, refusing))
  {
    hide GroupOk, CreateCommit, DraftCommit, CommitStands, Deliver, Follows, JoinedAs, KeysFit, Stays, JoiningFits;
    MembersValid(g);
    var a, h := g.members[who], CommitStep(env, g, who, o, seed, joining, refusing);
    if CommitStands(env, a, o, seed) {
      StandsIs(env, a, o, seed);
      var d := DraftCommitOf(env, a, o, seed);
      if JoiningFits(g, d, joining) {
        FitsIn(g, d, joining);
        hide CommitStep;
        forall i | i in h.members ensures h.members[i].pending == [] {
          MemberInEpoch(env, g, who, o, seed, d, joining, refusing, i);
        }
      }
    }
  }

  lemma {:induction false} ExternalKeepsPending(
      env: Env, g: Group, from: nat, newcomer: nat, kp: KeyPackage, keys: PrivateKeyPackage, o: ExternalOptions,
      seed: Secret, refusing: set<nat>)
    requires GroupOk(g) && SamePending(g) && from in g.members
    ensures SamePending(ExternalStep(env, g, from, newcomer, kp, keys, o, seed, refusing))
  {
    hide JoinExternal, DraftExternal, JoinStands, InGoodOrder, InStep, Deliver, Follows;
    MembersValid(g);
    var a, h := g.members[from], ExternalStep(env, g, from, newcomer, kp, keys, o, seed, refusing);
    if JoinStands(env, a, kp, keys, o, seed) && newcomer !in g.members && o.maxPending == g.maxPending {
      hide ExternalStep;
      var d := JoinStandsIs(env, a, kp, keys, o, seed);
      ExternalStepIs(env, g, from, newcomer, kp, keys, o, seed, refusing);
      OrderFacts(a, g.next, g.maxPending);
      NewcomerInEpoch(env, a, kp, keys, o, seed, d);
      forall i | i in h.members ensures h.members[i].pending == [] {
        if i != newcomer { OldMemberInEpoch(env, g, from, i, kp, keys, o, seed, d, i !in refusing); }
      }
    }
  }

  lemma {:induction false} ActKeepsPending(env: Env, g: Group, x: Action)
    requires GroupOk(g) && SamePending(g) && Open(x)
    ensures SamePending(Act(env, g, x))
  {
    hide GroupOk, SamePending, ProposeStep, UpdateStepOf, DiscardStep, CommitStep, ExternalStep;
    match x
    case Propose(who, wire, p, no) => if who in g.members { ProposeKeepsPending(env, g, who, wire, p); }
    case ProposeUpdate(who, wire, hpke, patch, no) =>
      if who in g.members { UpdateKeepsPending(env, g, who, wire, hpke, patch); }
    case CommitBy(who, o, seed, joining, no) =>
      if who in g.members { CommitKeepsPending(env, g, who, o, seed, joining, no); }
    case JoinFrom(from, newcomer, kp, keys, o, seed, no) =>
      if from in g.members { ExternalKeepsPending(env, g, from, newcomer, kp, keys, o, seed, no); }
  }

  lemma {:induction false} RunKeepsPending(env: Env, g: Group, xs: seq<Action>)
    requires GroupOk(g) && SamePending(g) && forall x | x in xs :: Open(x)
    ensures SamePending(Run(env, g, xs))
    decreases |xs|
  {
    hide GroupOk, SamePending, Act, Open;
    if xs != [] {
      ActKeepsGroup(env, g, xs[0]);
      ActKeepsPending(env, g, xs[0]);
      RunKeepsPending(env, Act(env, g, xs[0]), xs[1..]);
    }
  }

  // ---- the main result ----

  /** What all members in step share, and what each of them holds. */
  ghost predicate Agreed(h: Group) {
    && (forall i, j | i in h.members && j in h.members ::
          SameEpoch(h.members[i], h.members[j]) && SameProposals(h.members[i], h.members[j]))
    && (forall i, j | i in h.members && j in h.members && i != j ::
      h.members[i].privatePath.leaf != h.members[j].privatePath.leaf)
    && (forall i | i in h.members ::
          && Exact(h.members[i].tree, h.members[i].privatePath) && GoodTree(h.members[i].tree)
          && StandardVerified(h.members[i].tree))
  }

  lemma {:induction false} GroupAgrees(h: Group)
    requires GroupOk(h)
    ensures Agreed(h)
  {
    hide GoodTree, Exact, Signs, UpdateKeysOk, SendersKnown, StandardVerified, SameProposals;
    forall i, j | i in h.members && j in h.members
      ensures SameEpoch(h.members[i], h.members[j]) && SameProposals(h.members[i], h.members[j])
    {
      if i == j { ProposalsOwn(h.members[i]); } else { assert InStep(h.members[i], h.members[j]); }
    }
    forall i, j | i in h.members && j in h.members && i != j
      ensures h.members[i].privatePath.leaf != h.members[j].privatePath.leaf
    {
      assert InStep(h.members[i], h.members[j]);
    }
    forall i | i in h.members
      ensures Exact(h.members[i].tree, h.members[i].privatePath)
      ensures GoodTree(h.members[i].tree) && StandardVerified(h.members[i].tree)
    {
      assert InGoodOrder(h.members[i], h.next, h.maxPending);
      GoodMeetsStandard(h.members[i].tree);
    }
  }

  lemma {:induction false} ProposalsOwn(st: ClientState)
    ensures SameProposals(st, st)
  {
  }

  /** The main result. From a newly created group, after any sequence of
      proposals, discards, commits, removals and joins, each message accepted or
      refused by whom it may be, the members in step share one context, key
      schedule, tree and confirmation tag, each holds exactly the private keys
      the tree says it must, and the tree meets section 7.9.2 of RFC 9420. When
      nobody refuses or discards they share their pending proposals too. */
  lemma {:induction false} AllAgreeAlways(
      env: Env, groupId: nat, kp: KeyPackage, keys: PrivateKeyPackage, extensions: seq<Extension>, epochSecret: Secret,
      retain: int, maxPending: int, xs: seq<Action>)
    requires KeysFit(kp, keys)
    ensures var g := Group(map[0 := CreateGroup(groupId, kp, keys, extensions, epochSecret, retain, maxPending)], 0,
      maxPending);
      && GroupOk(g) && Agreed(Run(env, g, xs))
      && ((forall x | x in xs :: Open(x)) ==> SamePending(Run(env, g, xs)))
  {
    hide RootHash, ConfirmationTag, NewSecretTree, InGoodOrder, Act, CreateGroup, Agreed, Open;
    CreatedInGoodOrder(groupId, kp, keys, extensions, epochSecret, retain, maxPending);
    var g :=
      Group(map[0 := CreateGroup(groupId, kp, keys, extensions, epochSecret, retain, maxPending)], 0, maxPending);
    RunKeepsGroup(env, g, xs);
    GroupAgrees(Run(env, g, xs));
    if forall x | x in xs :: Open(x) { RunKeepsPending(env, g, xs); }
  }
}

/** Which messages a client accepts and sends (the gating in src/process-messages.ts,
    src/create-message.ts, and the pending proposals of src/unapplied-proposals.ts). */
module Messages {
  import opened Options
  import opened Terms
  import opened TreeMath
  import opened RatchetTree
  import opened UpdatePaths
  import opened LeafValidation
  import opened ClientStates
  import opened PrivateKeys
  import opened Proposals
  import opened FilterPending
  import opened Commits

  // ---- pending proposals ----

  function CapacityError(st: ClientState): Option<Error> {
    if st.maxPending <= 0 || |st.pending| >= st.maxPending then Some(TooManyPending) else None
  }

  function WithPending(st: ClientState, ref: Ref, item: ProposalWithSender): ClientState {
    st.(pending := AddPending(st.pending, Pending(ref, item)))
  }

  function Without(pending: seq<Pending>, ref: Ref): (r: seq<Pending>)
    ensures |r| <= |pending|
    ensures forall p :: p in r <==> p in pending && p.ref != ref
  {
    if pending == [] then [] else (if pending[0].ref == ref then [] else [pending[0]]) + Without(pending[1..], ref)
  }

  /** discardPendingProposal. */
  function DiscardPending(st: ClientState, ref: Ref): ClientState {
    st.(pending := Without(st.pending, ref))
  }

  /** processProposal: a proposal of the current epoch, stored under its reference. */
  function ProcessProposal(env: Env, st: ClientState, item: ProposalWithSender, id: nat): Result<ClientState>
    requires Valid(st.tree)
  {
    var full := CapacityError(st);
    if full.Some? then Err(full.value) else
    var ok :- OnReceipt(env, st.context, st.tree, item.proposal, item.leaf, false);
    if !ok then Err(ProposalRejected) else Ok(WithPending(st, Ref(st.context.epoch, id), item))
  }

  // ---- sending ----

  /** One step of the message ratchet. */
  function Stepped(t: SecretTree): SecretTree {
    t.(steps := t.steps + 1)
  }

  function OwnItemOf(st: ClientState, p: Proposal): ProposalWithSender {
    ProposalWithSender(p, Some(st.privatePath.leaf), MemberType)
  }

  /** sendProposal. */
  function SendProposal(env: Env, st: ClientState, publicWire: bool, p: Proposal, id: nat): Result<ClientState>
    requires Valid(st.tree)
  {
    var err := SendError(st);
    if err.Some? then Err(err.value) else
    var full := CapacityError(st);
    if full.Some? then Err(full.value) else
    var ok :- OnReceipt(env, st.context, st.tree, p, Some(st.privatePath.leaf), true);
    if !ok then Err(ProposalRejected) else
    Ok(WithPending(st.(secretTree := if publicWire then st.secretTree else Stepped(st.secretTree)),
      Ref(st.context.epoch, id), OwnItemOf(st, p)))
  }

  /** The leaf an Update of this member's own brings. */
  function UpdatedLeaf(st: ClientState, prior: LeafNode, hpke: Secret, patch: LeafPatch): LeafNode {
    LeafNode(
      Pub(hpke),
      if patch.signature.Some? then Pub(patch.signature.value) else prior.sigKey,
      OrElse(patch.credential, prior.credential),
      OrElse(patch.capabilities, prior.capabilities),
      OrElse(patch.extensions, prior.extensions),
      FromUpdate,
      LeafSignature(OrElse(patch.signature, st.signKey), Some((st.context.groupId, st.privatePath.leaf))))
  }

  /** createUpdateProposal. */
  function CreateUpdate(
      env: Env, st: ClientState, publicWire: bool, hpke: Secret, patch: LeafPatch, id: nat): Result<ClientState>
    requires Valid(st.tree)
  {
    var err := SendError(st);
    if err.Some? then Err(err.value)
    else if LeafAt(st.tree, st.privatePath.leaf).None? then Err(NotLeaf)
    else
      var leaf := UpdatedLeaf(st, LeafAt(st.tree, st.privatePath.leaf).value, hpke, patch);
      var sent :- SendProposal(env, st, publicWire, Update(leaf), id);
      Ok(sent.(updateKeys := sent.updateKeys[Ref(st.context.epoch, id) := PendingKey(hpke, patch.signature)]))
  }

  /** createApplicationMessage. */
  function SendApplication(st: ClientState): Result<ClientState> {
    if st.pending != [] then Err(ProposalRejected) else
    var err := SendError(st);
    if err.Some? then Err(err.value) else Ok(st.(secretTree := Stepped(st.secretTree)))
  }

  // ---- receiving ----

  datatype Body =
    | Application
    | Proposed(item: ProposalWithSender, id: nat)
    | Committed(message: CommitMessage)

  /** A message that decrypts and verifies under the keys of the epoch it names, or one that does not. */
  datatype Incoming = Incoming(wireformat: Wireformat, groupId: nat, epoch: nat, body: Body, authentic: bool)

  function SuspendedError(st: ClientState, epoch: nat, body: Body): Option<Error> {
    if st.active.SuspendedPendingReinit? && (!body.Application? || epoch == st.context.epoch) then Some(Suspended)
    else None
  }

  /** A proposal or commit of the current epoch, once it is open. */
  function Handle(env: Env, st: ClientState, body: Body, accept: bool): Result<ClientState>
    requires Valid(st.tree)
  {
    match body
    case Application => Ok(st)
    case Proposed(item, id) => if accept then ProcessProposal(env, st, item, id) else Ok(st)
    case Committed(m) => ProcessCommit(env, st, m, accept)
  }

  function OldEpoch(st: ClientState, m: Incoming): Result<ClientState> {
    if m.epoch !in st.history then Err(EpochTooOld)
    else if !m.body.Application? then Err(HandshakeFromPast)
    else if !m.authentic then Err(DecryptFailed)
    else
      var data := st.history[m.epoch];
      Ok(st.(history := st.history[m.epoch := data.(secretTree := Stepped(data.secretTree))]))
  }

  /** processPrivateMessage. */
  function ProcessPrivate(env: Env, st: ClientState, m: Incoming, accept: bool): Result<ClientState>
    requires Valid(st.tree)
  {
    if st.active.RemovedFromGroup? then Err(Removed)
    else if m.groupId != st.context.groupId then Err(WrongGroup)
    else if SuspendedError(st, m.epoch, m.body).Some? then Err(Suspended)
    else if m.epoch > st.context.epoch then Err(FutureEpoch)
    else if m.epoch < st.context.epoch then OldEpoch(st, m)
    else if !m.authentic then Err(DecryptFailed)
    else Handle(env, st.(secretTree := Stepped(st.secretTree)), m.body, accept)
  }

  /** processPublicMessage. Application data is never sent in the clear. */
  function ProcessPublic(env: Env, st: ClientState, m: Incoming, accept: bool): Result<ClientState>
    requires Valid(st.tree)
  {
    if st.active.RemovedFromGroup? then Err(Removed)
    else if m.groupId != st.context.groupId then Err(WrongGroup)
    else if SuspendedError(st, m.epoch, m.body).Some? then Err(Suspended)
    else if m.epoch < st.context.epoch then Err(EpochTooOld)
    else if !m.authentic || m.body.Application? then Err(DecryptFailed)
    else if m.body.Proposed? && m.epoch != st.context.epoch then Err(FutureEpoch)
    else Handle(env, st, m.body, accept)
  }

  function Receive(env: Env, st: ClientState, m: Incoming, accept: bool): Result<ClientState>
    requires Valid(st.tree)
  {
    if m.wireformat.PublicWire? then ProcessPublic(env, st, m, accept) else ProcessPrivate(env, st, m, accept)
  }
}

/** The state a client keeps for a group, its key schedule (src/key-schedule.ts)
    and its retained epochs (src/client-state.ts). */
module ClientStates {
  import opened Options
  import opened Terms
  import opened RatchetTree
  import opened PrivateKeys

  datatype KeySchedule = KeySchedule(
    init: Secret, senderData: Secret, exporter: Secret, external: Secret, confirmation: Secret,
    membership: Secret, resumption: Secret, authenticator: Secret, applicationExport: Secret)

  function DeriveEpochKeys(epoch: Secret): KeySchedule {
    KeySchedule(
      Derived(epoch, InitLabel), Derived(epoch, SenderDataLabel), Derived(epoch, ExporterLabel),
      Derived(epoch, ExternalLabel), Derived(epoch, ConfirmLabel), Derived(epoch, MembershipLabel),
      Derived(epoch, ResumptionLabel), Derived(epoch, AuthenticationLabel), Derived(epoch, ApplicationExportLabel))
  }

  datatype DerivedSchedule = DerivedSchedule(schedule: KeySchedule, encryption: Secret)

  /** deriveKeySchedule: what a joiner derives from the joiner secret. */
  function DeriveKeySchedule(joiner: Secret, psk: Secret, gc: GroupContext): DerivedSchedule {
    var epoch := EpochSecret(joiner, psk, gc);
    DerivedSchedule(DeriveEpochKeys(epoch), Derived(epoch, EncryptionLabel))
  }

  datatype EpochSecrets = EpochSecrets(joiner: Secret, welcome: Secret, derived: DerivedSchedule)

  /** initializeEpoch: what members derive from the old init secret and the commit secret. */
  function InitializeEpoch(init: Secret, commit: Secret, gc: GroupContext, psk: Secret): EpochSecrets {
    var joiner := JoinerSecret(init, commit, gc);
    EpochSecrets(joiner, WelcomeSecret(joiner, psk), DeriveKeySchedule(joiner, psk, gc))
  }

  /** The secret tree of an epoch; `steps` stands for the ratchet's progress. */
  datatype SecretTree = SecretTree(width: nat, root: Secret, steps: nat)

  datatype EpochData = EpochData(
    resumption: Secret, secretTree: SecretTree, tree: Tree, senderData: Secret, context: GroupContext)

  datatype Active = IsActive | SuspendedPendingReinit(reinit: Reinit) | RemovedFromGroup

  datatype SenderType = MemberType | ExternalType | NewMemberProposalType | NewMemberCommitType

  datatype ProposalWithSender = ProposalWithSender(proposal: Proposal, leaf: Option<nat>, sender: SenderType)

  datatype Pending = Pending(ref: Ref, item: ProposalWithSender)

  datatype PendingKey = PendingKey(hpke: Secret, signature: Option<Secret>)

  datatype ClientState = ClientState(
    context: GroupContext,
    schedule: KeySchedule,
    secretTree: SecretTree,
    tree: Tree,
    privatePath: PrivatePath,
    signKey: Secret,
    pending: seq<Pending>,
    updateKeys: map<Ref, PendingKey>,
    tag: Tag,
    history: map<nat, EpochData>,
    active: Active,
    retain: int,
    maxPending: int)

  // ---- pending proposals ----

  function FindPending(pending: seq<Pending>, ref: Ref): (r: Option<ProposalWithSender>)
    ensures r.Some? ==> exists i :: 0 <= i < |pending| && pending[i] == Pending(ref, r.value)
    ensures r.None? ==> forall p | p in pending :: p.ref != ref
  {
    if pending == [] then None
    else if pending[0].ref == ref then Some(pending[0].item)
    else FindPending(pending[1..], ref)
  }

  /** A known reference keeps its place; a new one goes to the end. */
  function AddPending(pending: seq<Pending>, p: Pending): (r: seq<Pending>)
    ensures |r| <= |pending| + 1
    ensures forall q :: q in r ==> q == p || q in pending
    ensures p in r
  {
    if pending == [] then [p]
    else if pending[0].ref == p.ref then [p] + pending[1..]
    else [pending[0]] + AddPending(pending[1..], p)
  }

  // ---- retained epochs ----

  predicate IsSmallest(s: set<nat>, k: nat) {
    k in s && forall j | j in s :: k <= j
  }

  lemma {:induction false} SmallestExists(s: set<nat>) returns (k: nat)
    requires s != {}
    ensures IsSmallest(s, k)
    decreases s
  {
    var first: nat :| first in s;
    var rest := s - {first};
    k := first;
    if rest != {} {
      var j := SmallestExists(rest);
      if j < first { k := j; }
    }
    forall i | i in s ensures k <= i {
      if i != first { assert i in rest; }
    }
  }

  function Smallest(s: set<nat>): (k: nat)
    requires s != {}
    ensures IsSmallest(s, k)
  {
    assert exists k :: IsSmallest(s, k) by { var k := SmallestExists(s); }
    var k :| IsSmallest(s, k);
    k
  }

  /** removeOldHistoricalReceiverData: the newest `max` epochs. */
  function KeepNewest(m: map<nat, EpochData>, max: nat): map<nat, EpochData>
    decreases |m.Keys|
  {
    if |m.Keys| <= max then m else
    var k := Smallest(m.Keys);
    assert (m - {k}).Keys == m.Keys - {k};
    KeepNewest(m - {k}, max)
  }

  /** addHistoricalReceiverData: the current epoch joins the retained ones. */
  function AddHistory(s: ClientState): map<nat, EpochData> {
    if s.retain <= 0 then map[] else
    var withNew := s.history[s.context.epoch :=
      EpochData(s.schedule.resumption, s.secretTree, s.tree, s.schedule.senderData, s.context)];
    if |withNew.Keys| >= s.retain then KeepNewest(withNew, s.retain) else withNew
  }
}

/** The values the protocol computes with. Cryptography is symbolic: every
    primitive is a constructor, so equal outputs mean equal inputs, and a value
    sealed to a public key opens with the matching secret and no other. */
module Terms {
  import opened Options

  /** Why an operation throws; one name for each check the model states. */
  datatype Error =
    | Removed | WrongGroup | WrongEpoch | NoCommitter | Suspended | FutureEpoch | EpochTooOld | HandshakeFromPast
    | UnknownReference | UnsupportedCustom | BadExternalInit | ReferenceInExternal | BadReinit
    | InvalidProposals | EmptyLeaf | OnlyLeaf | BadResync | MissingPsk | NotRotated | NoUpdateSender
    | LeafRejected | KeyPackageRejected | PathRequired | NotLeaf | BlankRecipient
    | LeafKeyReused | PathKeyReused | PathKeyRepeated | LeafKeyOnPath | PathLength | ParentHashMismatch
    | NoCommonAncestor | MissingPathNode | CiphertextCount | NoOverlap | DecryptFailed | NotOnPath
    | DerivedKeyMismatch | BadConfirmation | ActionRejected | TooManyPending | ProposalRejected
    | NoMatchingSecret | NoSigner | NoOwnLeaf | MissingPathSecret | TreeRejected | NoPriorLeaf
    | ExternalAsMember | NoPriorState | ExtensionUnsupported | ExternalSendersRejected | SignerRejected | SuiteMismatch

  datatype Result<+T> = Ok(value: T) | Err(error: Error) {
    predicate IsFailure() { Err? }

    function PropagateFailure<U>(): Result<U>
      requires Err?
    {
      Err(error)
    }

    function Extract(): T
      requires Ok?
    {
      value
    }
  }

  // ---- secrets, keys and digests ----

  datatype Label =
    | PathLabel | NodeLabel | InitLabel | SenderDataLabel | EncryptionLabel | ExporterLabel | ExternalLabel
    | ConfirmLabel | MembershipLabel | ResumptionLabel | AuthenticationLabel | ApplicationExportLabel

  datatype Secret =
    | Zero
    | Random(id: nat)
    | Derived(from: Secret, tag: Label)
    | JoinerSecret(init: Secret, commit: Secret, context: GroupContext)
    | EpochSecret(joiner: Secret, psk: Secret, context: GroupContext)
    | WelcomeSecret(joiner: Secret, psk: Secret)
    | PskStep(acc: Secret, pskId: PskId, psk: Secret, index: nat, count: nat)
    | ExternalInitSecret(to: PublicKey, encapsulation: nat)

  datatype PublicKey = Pub(secret: Secret)

  datatype Digest =
    | NoBytes
    | LeafDigest(index: nat, leaf: Option<LeafNode>)
    | InnerDigest(node: Option<ParentNode>, left: Digest, right: Digest)
    | ParentHashOf(key: PublicKey, parentHash: Digest, sibling: Digest)
    | ConfirmedHash(interim: Digest, content: CommitContent, signature: CommitSignature)
    | InterimHash(confirmed: Digest, tag: Tag)

  datatype Tag = Mac(key: Secret, over: Digest)

  datatype Ciphertext = Sealed(to: PublicKey, context: GroupContext, plain: Secret)

  /** hpke: what is sealed to a key opens only with its secret, in its context. */
  function Open(key: Secret, context: GroupContext, ct: Ciphertext): Option<Secret> {
    if ct.to == Pub(key) && ct.context == context then Some(ct.plain) else None
  }

  datatype KemOutput = Encapsulated(to: PublicKey, encapsulation: nat)

  /** exportSecret / importSecret of an external init. */
  function ImportSecret(key: Secret, kem: KemOutput): Option<Secret> {
    if kem.to == Pub(key) then Some(ExternalInitSecret(kem.to, kem.encapsulation)) else None
  }

  // ---- the tree's nodes ----

  datatype Credential = Credential(ctype: nat, identity: nat)

  datatype Capabilities = Capabilities(credentials: seq<nat>, extensions: seq<nat>, proposals: seq<nat>)

  /** `required` is None when the extension data does not decode. */
  datatype Extension =
    | RequiredCapabilities(required: Option<Capabilities>)
    | OtherDefault(name: nat, data: nat)
    | CustomExtension(etype: nat, data: nat)

  datatype LeafSource = FromKeyPackage(lifetime: nat) | FromUpdate | FromCommit(parentHash: Digest)

  /** A leaf signature names the signing secret and, except in a KeyPackage,
      the group and leaf index it is bound to. */
  datatype LeafSignature = LeafSignature(signer: Secret, place: Option<(nat, nat)>)

  datatype LeafNode = LeafNode(
    hpkeKey: PublicKey,
    sigKey: PublicKey,
    credential: Credential,
    capabilities: Capabilities,
    extensions: seq<Extension>,
    source: LeafSource,
    signature: LeafSignature)

  datatype ParentNode = ParentNode(hpkeKey: PublicKey, parentHash: Digest, unmerged: seq<nat>)

  datatype Node = Leaf(leaf: LeafNode) | Inner(parent: ParentNode)

  function KeyOf(n: Node): PublicKey {
    match n
    case Leaf(l) => l.hpkeKey
    case Inner(p) => p.hpkeKey
  }

  type Tree = seq<Option<Node>>

  // ---- proposals, commits and contexts ----

  datatype KeyPackage = KeyPackage(version: nat, suite: nat, initKey: PublicKey, leaf: LeafNode, signedBy: Secret)

  datatype PskUsage = ApplicationUsage | ReinitUsage | BranchUsage

  datatype PskId =
    | ExternalPsk(id: nat, nonce: nat, nonceFits: bool)
    | ResumptionPsk(usage: PskUsage, groupId: nat, epoch: nat, nonce: nat, nonceFits: bool)

  datatype Reinit = Reinit(groupId: nat, version: nat, suite: nat, extensions: seq<Extension>)

  datatype Proposal =
    | Add(keyPackage: KeyPackage)
    | Update(leaf: LeafNode)
    | Remove(removed: nat)
    | Psk(id: PskId)
    | ReinitProposal(reinit: Reinit)
    | ExternalInit(kem: KemOutput)
    | GroupContextExtensions(extensions: seq<Extension>)
    | Custom(ptype: nat, data: nat)

  /** A reference is a hash of the framed proposal, which names its epoch. */
  datatype Ref = Ref(epoch: nat, id: nat)

  datatype ProposalOrRef = ByValue(proposal: Proposal) | ByReference(ref: Ref)

  datatype Sender = Member(leaf: nat) | External(index: nat) | NewMemberProposal | NewMemberCommit

  datatype UpdatePathNode = UpdatePathNode(key: PublicKey, sealed: seq<Ciphertext>)

  datatype UpdatePath = UpdatePath(leaf: LeafNode, nodes: seq<UpdatePathNode>)

  datatype Commit = Commit(proposals: seq<ProposalOrRef>, path: Option<UpdatePath>)

  datatype Wireformat = PublicWire | PrivateWire

  datatype CommitContent = CommitContent(
    wireformat: Wireformat,
    groupId: nat,
    epoch: nat,
    sender: Sender,
    authenticatedData: nat,
    commit: Commit)

  datatype CommitSignature = CommitSignature(signer: Secret, content: CommitContent, context: GroupContext)

  datatype GroupContext = GroupContext(
    version: nat,
    suite: nat,
    groupId: nat,
    epoch: nat,
    treeHash: Digest,
    confirmed: Digest,
    extensions: seq<Extension>)
}

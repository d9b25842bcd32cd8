/** Commits, framed content and the top-level message (src/commit.ts,
    src/framed-content.ts, src/public-message.ts, src/private-message.ts,
    src/welcome.ts, src/group-info.ts, src/message.ts). */
module WireMessages {
  import opened Options
  import opened Codecs
  import opened WireForms
  import opened Wire

  // ---- commits ----

  datatype ProposalOrRef = ByValue(proposal: Proposal) | ByRef(reference: seq<Byte>)
  {
    function Tag(): int { if ByValue? then 1 else 2 }
  }

  predicate ProposalOrRefOk(p: ProposalOrRef) { p.ByValue? ==> ProposalOk(p.proposal) }

  function ByValueCodec(c: Codec<Proposal>): (r: Codec<ProposalOrRef>)
    requires Exact(c)
    ensures Exact(r) && forall t: ProposalOrRef :: r.readable(t) <==> t.ByValue? && c.readable(t.proposal)
  {
    As(c, (t: ProposalOrRef) => if t.ByValue? then Some(t.proposal) else None, (u: Proposal) => Some(ByValue(u)))
  }

  function ByRefCodec(c: Codec<seq<Byte>>): (r: Codec<ProposalOrRef>)
    requires Exact(c)
    ensures Exact(r) && forall t: ProposalOrRef :: r.readable(t) <==> t.ByRef? && c.readable(t.reference)
  {
    As(c, (t: ProposalOrRef) => if t.ByRef? then Some(t.reference) else None, (u: seq<Byte>) => Some(ByRef(u)))
  }

  function ProposalOrRefArm(k: int): (c: Codec<ProposalOrRef>)
    ensures Exact(c) && forall t: ProposalOrRef :: c.readable(t) <==> t.Tag() == k && ProposalOrRefOk(t)
  {
    hide EncodeProposal, Choose, ProposalArm, As, VarData, Number;
    if k == 1 then ByValueCodec(ProposalCodec())
    else if k == 2 then ByRefCodec(Data())
    else Unreadable((t: ProposalOrRef) => None)
  }

  function ProposalOrRefCodec(): (c: Codec<ProposalOrRef>)
    ensures Exact(c) && Solid(c) && forall t :: c.readable(t) <==> ProposalOrRefOk(t)
  {
    hide ProposalOrRefOk, ProposalOrRefArm;
    Choose(Closed(1, 2), (t: ProposalOrRef) => t.Tag(), ProposalOrRefArm)
  }

  datatype HpkeCiphertext = HpkeCiphertext(kemOutput: seq<Byte>, ciphertext: seq<Byte>)

  datatype UpdatePathNode = UpdatePathNode(hpkeKey: seq<Byte>, secrets: seq<HpkeCiphertext>)

  datatype UpdatePath = UpdatePath(leaf: LeafNode, nodes: seq<UpdatePathNode>)

  datatype Commit = Commit(proposals: seq<ProposalOrRef>, path: Option<UpdatePath>)

  predicate PathOk(p: UpdatePath) { LeafOk(p.leaf) && p.leaf.info.CommitInfo? }

  predicate CommitOk(c: Commit) {
    (forall i | 0 <= i < |c.proposals| :: ProposalOrRefOk(c.proposals[i])) && (c.path.Some? ==> PathOk(c.path.value))
  }

  function CiphertextCodec(): (c: Codec<HpkeCiphertext>)
    ensures Exact(c) && Solid(c) && forall t :: c.readable(t)
  {
    hide VarData;
    As(
      Then(Data(), Data()),
      (t: HpkeCiphertext) => Some((t.kemOutput, t.ciphertext)),
      (u: (seq<Byte>, seq<Byte>)) => Some(HpkeCiphertext(u.0, u.1)))
  }

  function PathNodeCodec(): (c: Codec<UpdatePathNode>)
    ensures Exact(c) && Solid(c) && forall t :: c.readable(t)
  {
    hide VarData;
    As(
      Then(Data(), List(CiphertextCodec())),
      (t: UpdatePathNode) => Some((t.hpkeKey, t.secrets)),
      (u: (seq<Byte>, seq<HpkeCiphertext>)) => Some(UpdatePathNode(u.0, u.1)))
  }

  function PathOf(leaf: Codec<LeafNode>, nodes: Codec<seq<UpdatePathNode>>): (c: Codec<UpdatePath>)
    requires Exact(leaf) && Exact(nodes)
    ensures Exact(c) && forall t :: c.readable(t) <==> leaf.readable(t.leaf) && nodes.readable(t.nodes)
  {
    As(
      Then(leaf, nodes),
      (t: UpdatePath) => Some((t.leaf, t.nodes)),
      (u: (LeafNode, seq<UpdatePathNode>)) => Some(UpdatePath(u.0, u.1)))
  }

  function PathCodec(): (c: Codec<UpdatePath>)
    ensures Exact(c) && forall t :: c.readable(t) <==> PathOk(t)
  {
    hide LeafFrom, PathOf, List, As, Then;
    PathOf(LeafFrom(3), List(PathNodeCodec()))
  }

  function CommitOf(proposals: Codec<seq<ProposalOrRef>>, path: Codec<Option<UpdatePath>>): (c: Codec<Commit>)
    requires Exact(proposals) && Exact(path)
    ensures Exact(c) && forall t :: c.readable(t) <==> proposals.readable(t.proposals) && path.readable(t.path)
  {
    As(
      Then(proposals, path),
      (t: Commit) => Some((t.proposals, t.path)),
      (u: (seq<ProposalOrRef>, Option<UpdatePath>)) => Some(Commit(u.0, u.1)))
  }

  function CommitCodec(): (c: Codec<Commit>)
    ensures Exact(c) && forall t :: c.readable(t) <==> CommitOk(t)
  {
    hide CommitOf, List, Maybe, PathOf, Choose, Closed, ProposalOrRefArm, LeafFrom, PathOk, ProposalOrRefOk;
    CommitOf(List(ProposalOrRefCodec()), Maybe(PathCodec()))
  }

  // ---- framed content ----

  datatype Sender = Member(leafIndex: int) | External(senderIndex: int) | NewMemberProposal | NewMemberCommit
  {
    function Tag(): int {
      match this
      case Member(_) => 1
      case External(_) => 2
      case NewMemberProposal => 3
      case NewMemberCommit => 4
    }
  }

  function SenderArm(k: int): (c: Codec<Sender>)
    ensures Exact(c) && forall t: Sender :: c.readable(t) <==> t.Tag() == k
  {
    hide Number;
    if k == 1 then As(Number(4), (t: Sender) => if t.Member? then Some(t.leafIndex) else None,
      (u: int) => Some(Member(u)))
    else if k == 2 then As(Number(4), (t: Sender) => if t.External? then Some(t.senderIndex) else None,
      (u: int) => Some(External(u)))
    else if k == 3 then Just(NewMemberProposal)
    else if k == 4 then Just(NewMemberCommit)
    else Unreadable((t: Sender) => None)
  }

  function SenderCodec(): (c: Codec<Sender>)
    ensures Exact(c) && Solid(c) && forall t :: c.readable(t)
  {
    hide SenderArm;
    Choose(Closed(1, 4), (t: Sender) => t.Tag(), SenderArm)
  }

  datatype Content =
    | ApplicationContent(data: seq<Byte>)
    | ProposalContent(proposal: Proposal)
    | CommitContent(commit: Commit)
  {
    function Tag(): int {
      match this
      case ApplicationContent(_) => 1
      case ProposalContent(_) => 2
      case CommitContent(_) => 3
    }
  }

  predicate ContentOk(c: Content) {
    match c
    case ApplicationContent(_) => true
    case ProposalContent(p) => ProposalOk(p)
    case CommitContent(m) => CommitOk(m)
  }

  function ContentBy(
      data: Codec<seq<Byte>>, proposal: Codec<Proposal>, commit: Codec<Commit>, k: int): (c: Codec<Content>)
    requires Exact(data) && Exact(proposal) && Exact(commit)
    ensures Exact(c)
    ensures forall t: Content :: c.readable(t) <==>
      && t.Tag() == k && (t.ApplicationContent? ==> data.readable(t.data))
      && (t.ProposalContent? ==> proposal.readable(t.proposal)) && (t.CommitContent? ==> commit.readable(t.commit))
  {
    if k == 1 then
      As(data, (t: Content) => if t.ApplicationContent? then Some(t.data) else None,
        (u: seq<Byte>) => Some(ApplicationContent(u)))
    else if k == 2 then
      As(proposal, (t: Content) => if t.ProposalContent? then Some(t.proposal) else None,
        (u: Proposal) => Some(ProposalContent(u)))
    else if k == 3 then
      As(commit, (t: Content) => if t.CommitContent? then Some(t.commit) else None,
        (u: Commit) => Some(CommitContent(u)))
    else
      Unreadable((t: Content) => None)
  }

  /** The content alone, its type known beforehand. */
  function ContentArm(k: int): (c: Codec<Content>)
    ensures Exact(c) && forall t: Content :: c.readable(t) <==> t.Tag() == k && ContentOk(t)
  {
    hide ContentBy, As, Then, Closed, ProposalOrRefArm, PathOf, EncodeProposal, Choose, ProposalArm, VarData, Number,
      CommitOf, List, Maybe, ProposalOk, CommitOk;
    ContentBy(Data(), ProposalCodec(), CommitCodec(), k)
  }

  /** encodeFramedContentInfo: the content behind its type. */
  function ContentCodec(): (c: Codec<Content>)
    ensures Exact(c) && Solid(c) && forall t :: c.readable(t) <==> ContentOk(t)
  {
    hide ContentArm, ContentOk;
    Choose(Closed(1, 3), (t: Content) => t.Tag(), ContentArm)
  }

  datatype Framed = Framed(groupId: seq<Byte>, epoch: int, sender: Sender, data: seq<Byte>, content: Content)

  predicate FramedOk(f: Framed) { U64(f.epoch) && ContentOk(f.content) }

  function FramedOf(
      data: Codec<seq<Byte>>, epoch: Codec<int>, sender: Codec<Sender>, content: Codec<Content>): (c: Codec<Framed>)
    requires Exact(data) && Exact(epoch) && Exact(sender) && Exact(content)
    ensures Exact(c) && (Solid(data) ==> Solid(c))
    ensures forall t :: c.readable(t) <==>
      data.readable(t.groupId) && epoch.readable(t.epoch) && sender.readable(t.sender) && data.readable(t.data) &&
        content.readable(t.content)
  {
    hide Then5, As;
    As(
      Then5(data, epoch, sender, data, content),
      (t: Framed) => Some((t.groupId, t.epoch, t.sender, t.data, t.content)),
      (u: (seq<Byte>, int, Sender, seq<Byte>, Content)) => Some(Framed(u.0, u.1, u.2, u.3, u.4)))
  }

  function FramedCodec(): (c: Codec<Framed>)
    ensures Exact(c) && Solid(c) && forall t :: c.readable(t) <==> FramedOk(t)
  {
    hide FramedOf, Choose, VarData, Uint64, ContentOk, SenderArm, ContentArm, Closed;
    FramedOf(Data(), Number64(), SenderCodec(), ContentCodec())
  }
}

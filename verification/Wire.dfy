/** The structures on the wire: each codec is exact, and reads back exactly the
    values its `Ok` predicate describes (src/proposal.ts, src/leaf-node.ts,
    src/key-package.ts, src/commit.ts, src/message.ts and what they hold). */
module Wire {
  import opened Options
  import opened Codecs
  import opened WireForms

  // ---- tables ----

  predicate KnownVersion(n: int) { n == 1 }
  predicate KnownExtension(n: int) { 1 <= n <= 5 }
  predicate KnownCredential(n: int) { n == 1 || n == 2 }
  predicate KnownSuite(n: int) { 1 <= n <= 7 || 0xf007 <= n <= 0xf012 }
  predicate KnownProposal(n: int) { 1 <= n <= 7 }

  predicate U64(n: int) { 0 <= n < Power256(8) }

  // ---- extensions and credentials ----

  datatype Extension = Extension(etype: Code, data: seq<Byte>)

  predicate ExtensionOk(e: Extension) { CodeOk(KnownExtension, e.etype) }

  predicate ExtensionsOk(s: seq<Extension>) {
    forall i | 0 <= i < |s| :: ExtensionOk(s[i])
  }

  function ExtensionCodec(): (c: Codec<Extension>)
    ensures Exact(c) && Solid(c) && forall t :: c.readable(t) <==> ExtensionOk(t)
  {
    As(
      Then(Open(KnownExtension), Data()),
      (t: Extension) => Some((t.etype, t.data)),
      (u: (Code, seq<Byte>)) => Some(Extension(u.0, u.1)))
  }

  function Extensions(): (c: Codec<seq<Extension>>)
    ensures Exact(c) && Solid(c) && forall t :: c.readable(t) <==> ExtensionsOk(t)
  {
    List(ExtensionCodec())
  }

  datatype Credential =
    | Basic(identity: seq<Byte>)
    | X509(certificates: seq<seq<Byte>>)
    | OtherCredential(other: Code, data: seq<Byte>)
  {
    function Tag(): Code {
      match this
      case Basic(_) => Name(1)
      case X509(_) => Name(2)
      case OtherCredential(code, _) => code
    }
  }

  predicate CredentialOk(c: Credential) { !c.OtherCredential? }

  function CredentialArm(k: Code): (c: Codec<Credential>)
    ensures Exact(c) && forall t: Credential :: c.readable(t) <==> t.Tag() == k && CredentialOk(t)
  {
    if k == Name(1) then
      As(Data(), (t: Credential) => if t.Basic? then Some(t.identity) else None, (d: seq<Byte>) => Some(Basic(d)))
    else if k == Name(2) then
      As(List(Data()), (t: Credential) => if t.X509? then Some(t.certificates) else None,
        (s: seq<seq<Byte>>) => Some(X509(s)))
    else
      Unreadable((t: Credential) => if t.OtherCredential? then Data().encode(t.data) else None)
  }

  function CredentialCodec(): (c: Codec<Credential>)
    ensures Exact(c) && Solid(c) && forall t :: c.readable(t) <==> CredentialOk(t)
  {
    Choose(Open(KnownCredential), (t: Credential) => t.Tag(), CredentialArm)
  }

  // ---- leaves ----

  datatype Capabilities = Capabilities(
    versions: seq<Code>, suites: seq<Code>, extensions: seq<int>, proposals: seq<int>, credentials: seq<Code>)

  predicate CodesOk(known: int -> bool, s: seq<Code>) {
    forall i | 0 <= i < |s| :: CodeOk(known, s[i])
  }

  predicate CapabilitiesOk(c: Capabilities) {
    CodesOk(KnownVersion, c.versions) && CodesOk(KnownSuite, c.suites) && CodesOk(KnownCredential, c.credentials)
  }

  function Codes(known: int -> bool): (c: Codec<seq<Code>>)
    ensures Exact(c) && Solid(c) && forall t :: c.readable(t) <==> CodesOk(known, t)
  {
    List(Open(known))
  }

  function CapabilitiesCodec(): (c: Codec<Capabilities>)
    ensures Exact(c) && Solid(c) && forall t :: c.readable(t) <==> CapabilitiesOk(t)
  {
    hide Codes, List, Number, Then, Then3, Then4, CodesOk;
    As(
      Then5(Codes(KnownVersion), Codes(KnownSuite), List(Number(2)), List(Number(2)), Codes(KnownCredential)),
      (t: Capabilities) => Some((t.versions, t.suites, t.extensions, t.proposals, t.credentials)),
      (u: (seq<Code>, seq<Code>, seq<int>, seq<int>, seq<Code>)) => Some(Capabilities(u.0, u.1, u.2, u.3, u.4)))
  }

  datatype LeafData = LeafData(hpkeKey: seq<Byte>, sigKey: seq<Byte>, credential: Credential,
    capabilities: Capabilities)

  datatype LeafInfo =
    | KeyPackageInfo(notBefore: int, notAfter: int)
    | UpdateInfo
    | CommitInfo(parentHash: seq<Byte>)
  {
    function Source(): int {
      match this
      case KeyPackageInfo(_, _) => 1
      case UpdateInfo => 2
      case CommitInfo(_) => 3
    }
  }

  datatype LeafNode = LeafNode(data: LeafData, info: LeafInfo, extensions: seq<Extension>, signature: seq<Byte>)

  predicate InfoOk(i: LeafInfo) { i.KeyPackageInfo? ==> U64(i.notBefore) && U64(i.notAfter) }

  predicate LeafOk(l: LeafNode) {
    CredentialOk(l.data.credential) && CapabilitiesOk(l.data.capabilities) && InfoOk(l.info) &&
      ExtensionsOk(l.extensions)
  }

  function LeafDataCodec(): (c: Codec<LeafData>)
    ensures Exact(c) && Solid(c)
    ensures forall t :: c.readable(t) <==> CredentialOk(t.credential) && CapabilitiesOk(t.capabilities)
  {
    hide Choose, Codes, List, VarData, Open, Then, Then3, Then5, CapabilitiesOk, CredentialArm, CredentialOk;
    As(
      Then4(Data(), Data(), CredentialCodec(), CapabilitiesCodec()),
      (t: LeafData) => Some((t.hpkeKey, t.sigKey, t.credential, t.capabilities)),
      (u: (seq<Byte>, seq<Byte>, Credential, Capabilities)) => Some(LeafData(u.0, u.1, u.2, u.3)))
  }

  function InfoArm(source: int): (c: Codec<LeafInfo>)
    ensures Exact(c) && forall t: LeafInfo :: c.readable(t) <==> t.Source() == source && InfoOk(t)
  {
    if source == 1 then
      As(
        Then(Number64(), Number64()),
        (t: LeafInfo) => if t.KeyPackageInfo? then Some((t.notBefore, t.notAfter)) else None,
        (u: (int, int)) => Some(KeyPackageInfo(u.0, u.1)))
    else if source == 2 then
      Just(UpdateInfo)
    else if source == 3 then
      As(Data(), (t: LeafInfo) => if t.CommitInfo? then Some(t.parentHash) else None,
        (d: seq<Byte>) => Some(CommitInfo(d)))
    else
      Unreadable((t: LeafInfo) => None)
  }

  function InfoCodec(): (c: Codec<LeafInfo>)
    ensures Exact(c) && Solid(c) && forall t :: c.readable(t) <==> InfoOk(t)
  {
    Choose(Closed(1, 3), (t: LeafInfo) => t.Source(), InfoArm)
  }

  function LeafOf(
      data: Codec<LeafData>, info: Codec<LeafInfo>, extensions: Codec<seq<Extension>>, signature: Codec<seq<Byte>>):
      (c: Codec<LeafNode>)
    requires Exact(data) && Solid(data) && Exact(info) && Exact(extensions) && Exact(signature)
    ensures Exact(c) && Solid(c)
    ensures forall t :: c.readable(t) <==>
      data.readable(t.data) && info.readable(t.info) && extensions.readable(t.extensions) &&
        signature.readable(t.signature)
  {
    As(
      Then4(data, info, extensions, signature),
      (t: LeafNode) => Some((t.data, t.info, t.extensions, t.signature)),
      (u: (LeafData, LeafInfo, seq<Extension>, seq<Byte>)) => Some(LeafNode(u.0, u.1, u.2, u.3)))
  }

  function LeafCodec(): (c: Codec<LeafNode>)
    ensures Exact(c) && Solid(c) && forall t :: c.readable(t) <==> LeafOk(t)
  {
    hide LeafOf, Then4, As, List, Choose, VarData;
    LeafOf(LeafDataCodec(), InfoCodec(), Extensions(), Data())
  }

  /** decodeLeafNodeKeyPackage, decodeLeafNodeUpdate, decodeLeafNodeCommit: any
      leaf is decoded, and one of another source is then refused. */
  function OnlyFrom(c: Codec<LeafNode>, source: int): (r: Codec<LeafNode>)
    requires Exact(c) && Solid(c)
    ensures Exact(r) && Solid(r) && forall t: LeafNode :: r.readable(t) <==> c.readable(t) && t.info.Source() == source
  {
    As(c, (t: LeafNode) => Some(t), (u: LeafNode) => if u.info.Source() == source then Some(u) else None)
  }

  function LeafFrom(source: int): (c: Codec<LeafNode>)
    ensures Exact(c) && Solid(c) && forall t: LeafNode :: c.readable(t) <==> LeafOk(t) && t.info.Source() == source
  {
    OnlyFrom(LeafCodec(), source)
  }

  datatype KeyPackage = KeyPackage(
    version: int, suite: Code, initKey: seq<Byte>, leaf: LeafNode, extensions: seq<Extension>, signature: seq<Byte>)

  predicate KeyPackageOk(k: KeyPackage) {
    && KnownVersion(k.version) && CodeOk(KnownSuite, k.suite)
    && LeafOk(k.leaf) && k.leaf.info.KeyPackageInfo? && ExtensionsOk(k.extensions)
  }

  function KeyPackageCodec(): (c: Codec<KeyPackage>)
    ensures Exact(c) && Solid(c) && forall t :: c.readable(t) <==> KeyPackageOk(t)
  {
    hide Then4, Then5, Then6, Then, As, List, Choose, VarData, Open, Closed, LeafOf, OnlyFrom;
    As(
      Then6(Closed(2, 1), Open(KnownSuite), Data(), LeafFrom(1), Extensions(), Data()),
      (t: KeyPackage) => Some((t.version, t.suite, t.initKey, t.leaf, t.extensions, t.signature)),
      (u: (int, Code, seq<Byte>, LeafNode, seq<Extension>, seq<Byte>)) => Some(KeyPackage(u.0, u.1, u.2, u.3, u.4,
        u.5)))
  }

  // ---- pre-shared keys ----

  datatype PskInfo = ExternalPsk(id: seq<Byte>) | ResumptionPsk(usage: int, groupId: seq<Byte>, epoch: int)
  {
    function Tag(): int { if ExternalPsk? then 1 else 2 }
  }

  datatype PskId = PskId(info: PskInfo, nonce: seq<Byte>)

  predicate PskInfoOk(i: PskInfo) { i.ResumptionPsk? ==> 1 <= i.usage <= 3 && U64(i.epoch) }

  function PskBy(k: int, id: Codec<seq<Byte>>, resumption: Codec<(int, seq<Byte>, int)>): (c: Codec<PskInfo>)
    requires Exact(id) && Exact(resumption)
    ensures Exact(c)
    ensures forall t: PskInfo :: c.readable(t) <==>
      && t.Tag() == k && (t.ExternalPsk? ==> id.readable(t.id))
      && (t.ResumptionPsk? ==> resumption.readable((t.usage, t.groupId, t.epoch)))
  {
    if k == 1 then
      As(id, (t: PskInfo) => if t.ExternalPsk? then Some(t.id) else None, (d: seq<Byte>) => Some(ExternalPsk(d)))
    else if k == 2 then
      As(
        resumption,
        (t: PskInfo) => if t.ResumptionPsk? then Some((t.usage, t.groupId, t.epoch)) else None,
        (u: (int, seq<Byte>, int)) => Some(ResumptionPsk(u.0, u.1, u.2)))
    else
      Unreadable((t: PskInfo) => None)
  }

  function PskArm(k: int): (c: Codec<PskInfo>)
    ensures Exact(c) && forall t: PskInfo :: c.readable(t) <==> t.Tag() == k && PskInfoOk(t)
  {
    hide PskBy, Then3, As, Closed, VarData, Uint64;
    PskBy(k, Data(), Then3(Closed(1, 3), Data(), Number64()))
  }

  function PskCodec(): (c: Codec<PskId>)
    ensures Exact(c) && Solid(c) && forall t :: c.readable(t) <==> PskInfoOk(t.info)
  {
    hide PskArm, Closed, VarData, PskInfoOk;
    As(
      Then(Choose(Closed(1, 2), (t: PskInfo) => t.Tag(), PskArm), Data()),
      (t: PskId) => Some((t.info, t.nonce)),
      (u: (PskInfo, seq<Byte>)) => Some(PskId(u.0, u.1)))
  }

  // ---- proposals ----

  datatype Proposal =
    | Add(keyPackage: KeyPackage)
    | Update(leaf: LeafNode)
    | Remove(removed: int)
    | Psk(psk: PskId)
    | Reinit(groupId: seq<Byte>, version: int, suite: Code, extensions: seq<Extension>)
    | ExternalInit(kemOutput: seq<Byte>)
    | GroupContextExtensions(contextExtensions: seq<Extension>)
    | Custom(ctype: int, data: seq<Byte>)
  {
    function Tag(): int {
      match this
      case Add(_) => 1
      case Update(_) => 2
      case Remove(_) => 3
      case Psk(_) => 4
      case Reinit(_, _, _, _) => 5
      case ExternalInit(_) => 6
      case GroupContextExtensions(_) => 7
      case Custom(n, _) => n
    }
  }

  predicate ProposalOk(p: Proposal) {
    match p
    case Add(k) => KeyPackageOk(k)
    case Update(l) => LeafOk(l) && l.info.UpdateInfo?
    case Remove(_) => true
    case Psk(i) => PskInfoOk(i.info)
    case Reinit(_, v, s, e) => KnownVersion(v) && CodeOk(KnownSuite, s) && ExtensionsOk(e)
    case ExternalInit(_) => true
    case GroupContextExtensions(e) => ExtensionsOk(e)
    case Custom(n, _) => !KnownProposal(n)
  }

  function ReinitCodec(): (c: Codec<Proposal>)
    ensures Exact(c) && forall t: Proposal :: c.readable(t) <==> t.Tag() == 5 && ProposalOk(t)
  {
    hide Then, Then3, As, List, VarData, Open, Closed, CodeOk, ExtensionsOk;
    As(
      Then4(Data(), Closed(2, 1), Open(KnownSuite), Extensions()),
      (t: Proposal) => if t.Reinit? then Some((t.groupId, t.version, t.suite, t.extensions)) else None,
      (u: (seq<Byte>, int, Code, seq<Extension>)) => Some(Reinit(u.0, u.1, u.2, u.3)))
  }

  function AddCodec(c: Codec<KeyPackage>): (r: Codec<Proposal>)
    requires Exact(c)
    ensures Exact(r) && forall t: Proposal :: r.readable(t) <==> t.Add? && c.readable(t.keyPackage)
  {
    As(c, (t: Proposal) => if t.Add? then Some(t.keyPackage) else None, (u: KeyPackage) => Some(Add(u)))
  }

  function UpdateCodec(c: Codec<LeafNode>): (r: Codec<Proposal>)
    requires Exact(c)
    ensures Exact(r) && forall t: Proposal :: r.readable(t) <==> t.Update? && c.readable(t.leaf)
  {
    As(c, (t: Proposal) => if t.Update? then Some(t.leaf) else None, (u: LeafNode) => Some(Update(u)))
  }

  function RemoveCodec(c: Codec<int>): (r: Codec<Proposal>)
    requires Exact(c)
    ensures Exact(r) && forall t: Proposal :: r.readable(t) <==> t.Remove? && c.readable(t.removed)
  {
    As(c, (t: Proposal) => if t.Remove? then Some(t.removed) else None, (u: int) => Some(Remove(u)))
  }

  function PskProposalCodec(c: Codec<PskId>): (r: Codec<Proposal>)
    requires Exact(c)
    ensures Exact(r) && forall t: Proposal :: r.readable(t) <==> t.Psk? && c.readable(t.psk)
  {
    As(c, (t: Proposal) => if t.Psk? then Some(t.psk) else None, (u: PskId) => Some(Psk(u)))
  }

  function ExternalInitCodec(c: Codec<seq<Byte>>): (r: Codec<Proposal>)
    requires Exact(c)
    ensures Exact(r) && forall t: Proposal :: r.readable(t) <==> t.ExternalInit? && c.readable(t.kemOutput)
  {
    As(c, (t: Proposal) => if t.ExternalInit? then Some(t.kemOutput) else None, (u: seq<Byte>) => Some(ExternalInit(u)))
  }

  function ContextExtensionsCodec(c: Codec<seq<Extension>>): (r: Codec<Proposal>)
    requires Exact(c)
    ensures Exact(r) && forall t: Proposal :: r.readable(t) <==>
      t.GroupContextExtensions? && c.readable(t.contextExtensions)
  {
    As(c, (t: Proposal) => if t.GroupContextExtensions? then Some(t.contextExtensions) else None,
      (u: seq<Extension>) => Some(GroupContextExtensions(u)))
  }

  function CustomCodec(k: int, c: Codec<seq<Byte>>): (r: Codec<Proposal>)
    requires Exact(c)
    ensures Exact(r) && forall t: Proposal :: r.readable(t) <==> t.Custom? && t.ctype == k && c.readable(t.data)
  {
    As(c, (t: Proposal) => if t.Custom? &&
      t.ctype == k then Some(t.data) else None, (u: seq<Byte>) => Some(Custom(k, u)))
  }

  function ProposalArm(k: int): (c: Codec<Proposal>)
    ensures Exact(c) && forall t: Proposal :: c.readable(t) <==> t.Tag() == k && ProposalOk(t)
  {
    hide Then, Then3, Then4, Then6, As, List, Choose, VarData, Open, Closed, LeafOf, OnlyFrom, LeafFrom, Number,
      AddCodec, UpdateCodec, RemoveCodec, PskProposalCodec, ExternalInitCodec, ContextExtensionsCodec, KeyPackageOk,
      LeafOk, PskInfoOk, ExtensionsOk, CodeOk;
    if k == 1 then AddCodec(KeyPackageCodec())
    else if k == 2 then UpdateCodec(LeafFrom(2))
    else if k == 3 then RemoveCodec(Number(4))
    else if k == 4 then PskProposalCodec(PskCodec())
    else if k == 5 then ReinitCodec()
    else if k == 6 then ExternalInitCodec(Data())
    else if k == 7 then ContextExtensionsCodec(Extensions())
    else CustomCodec(k, Data())
  }

  function ProposalKey(t: Proposal): int { t.Tag() }

  /** The decoder chooses by the tag alone, the encoder by the variant: a custom
      proposal is written with its number and raw data, whatever the number. */
  function EncodeProposal(t: Proposal): Option<seq<Byte>> {
    if t.Custom? then Pair(Number(2), Data()).encode((t.ctype, t.data))
    else FlatMap(Number(2), ProposalKey, ProposalArm).encode(t)
  }

  lemma {:induction false} SameEncoding(t: Proposal)
    requires t.Custom? && !KnownProposal(t.ctype)
    ensures FlatMap(Number(2), ProposalKey, ProposalArm).encode(t) == EncodeProposal(t)
  {
    hide Number, VarData, Uint, Both;
    assert ProposalArm(t.ctype) == CustomCodec(t.ctype, Data());
    FlatMapEncodes(Number(2), ProposalKey, ProposalArm, t);
  }

  function ProposalCodec(): (c: Codec<Proposal>)
    ensures Exact(c) && forall t :: c.readable(t) <==> ProposalOk(t)
    ensures c.encode == EncodeProposal
  {
    hide ProposalArm, Number, VarData, Uint;
    var c := Choose(Number(2), ProposalKey, ProposalArm);
    assert forall t :: c.readable(t) ==> EncodeProposal(t) == c.encode(t) by {
      forall t | c.readable(t) ensures EncodeProposal(t) == c.encode(t) {
        if t.Custom? { SameEncoding(t); }
      }
    }
    EncoderExact(c, EncodeProposal);
    c.(encode := EncodeProposal)
  }

  /** The encoder writes a custom proposal of any 16-bit number, short enough data given. */
  lemma {:induction false} CustomWritten(n: int, data: seq<Byte>)
    ensures EncodeProposal(Custom(n, data)).Some? <==> 0 <= n < 0x1_0000 && |data| < 0x4000_0000
  {
    hide ProposalArm, FlatMap, BigEndian;
    assert Power256(2) == 0x1_0000 by { assert Power256(1) == 256; }
  }

  /** The encoder takes a custom proposal of any number. Only a number outside the
      table comes back: 1 to 7 are read as the named proposal, or refused. */
  lemma {:induction false} CustomRoundTrip(before: seq<Byte>, n: int, data: seq<Byte>, after: seq<Byte>)
    requires 0 <= n < 0x1_0000 && |data| < 0x4000_0000
    ensures EncodeProposal(Custom(n, data)).Some?
    ensures var e := EncodeProposal(Custom(n, data)).value;
      ProposalCodec().decode(before + e + after, |before|) == Read(Custom(n, data), |e|) <==> !(1 <= n <= 7)
  {
    hide Choose, EncodeProposal, ProposalArm, Then, As, VarData, List, Number;
    CustomWritten(n, data);
    var c, p := ProposalCodec(), Custom(n, data);
    assert Exact(c);
    assert c.readable(p) <==> ProposalOk(p);
    assert c.encode(p) == EncodeProposal(p);
    RoundTrip(c, before, p, after);
  }
}

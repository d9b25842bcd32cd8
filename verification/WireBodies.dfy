/** The five bodies of a message, and the top-level decoder (src/public-message.ts,
    src/private-message.ts, src/welcome.ts, src/group-info.ts, src/message.ts). */
module WireBodies {
  import opened Options
  import opened Codecs
  import opened WireForms
  import opened Wire
  import opened WireMessages

  // ---- public messages ----

  /** The signature and, for a commit, the confirmation tag. */
  datatype Auth = PlainAuth(ctype: int, signature: seq<Byte>) | CommitAuth(signature: seq<Byte>,
    confirmationTag: seq<Byte>)
  {
    function Tag(): int { if PlainAuth? then ctype else 3 }
  }

  /** encodeFramedContentAuthData looks at its own content type. */
  function EncodeAuth(a: Auth): Option<seq<Byte>> {
    if a.CommitAuth? then Pair(Data(), Data()).encode((a.signature, a.confirmationTag)) else Data().encode(a.signature)
  }

  /** decodeFramedContentAuthData is told the content type. */
  function AuthArm(k: int): (c: Codec<Auth>)
    ensures Exact(c) && forall t: Auth :: c.readable(t) <==> t.Tag() == k && (t.PlainAuth? ==> k == 1 || k == 2)
  {
    hide VarData;
    if k == 3 then
      As(
        Then(Data(), Data()),
        (t: Auth) => if t.CommitAuth? then Some((t.signature, t.confirmationTag)) else None,
        (u: (seq<Byte>, seq<Byte>)) => Some(CommitAuth(u.0, u.1)))
    else if k == 1 || k == 2 then
      As(
        Data(),
        (t: Auth) => if t.PlainAuth? && t.ctype == k then Some(t.signature) else None,
        (u: seq<Byte>) => Some(PlainAuth(k, u)))
    else
      Unreadable((t: Auth) => None)
  }

  /** What only some senders add: a member adds a membership tag. */
  datatype SenderInfo = MemberInfo(membershipTag: seq<Byte>) | OtherInfo(stype: int)
  {
    function Tag(): int { if MemberInfo? then 1 else stype }
  }

  function EncodeInfo(i: SenderInfo): Option<seq<Byte>> {
    if i.MemberInfo? then Data().encode(i.membershipTag) else Some([])
  }

  function InfoFor(k: int): (c: Codec<SenderInfo>)
    ensures Exact(c) && forall t: SenderInfo :: c.readable(t) <==> t.Tag() == k && (t.OtherInfo? ==> 2 <= k <= 4)
  {
    hide VarData;
    if k == 1 then
      As(Data(), (t: SenderInfo) => if t.MemberInfo? then Some(t.membershipTag) else None,
        (u: seq<Byte>) => Some(MemberInfo(u)))
    else if 2 <= k <= 4 then
      Just(OtherInfo(k))
    else
      Unreadable((t: SenderInfo) => None)
  }

  datatype PublicMessage = PublicMessage(framed: Framed, auth: Auth, info: SenderInfo)

  /** The parts agree on the content type and on the sender's type. */
  predicate PartsAgree(m: PublicMessage) {
    && m.auth.Tag() == m.framed.content.Tag() && (m.auth.PlainAuth? ==> m.auth.ctype != 3)
    && m.info.Tag() == m.framed.sender.Tag() && (m.info.OtherInfo? ==> m.info.stype != 1)
  }

  predicate PublicOk(m: PublicMessage) { FramedOk(m.framed) && PartsAgree(m) }

  function PublicArm(f: Framed): (c: Codec<PublicMessage>)
    ensures Exact(c)
    ensures forall t: PublicMessage :: c.readable(t) <==>
      t.framed == f && AuthArm(f.content.Tag()).readable(t.auth) && InfoFor(f.sender.Tag()).readable(t.info)
  {
    hide AuthArm, InfoFor;
    As(
      Then(AuthArm(f.content.Tag()), InfoFor(f.sender.Tag())),
      (t: PublicMessage) => if t.framed == f then Some((t.auth, t.info)) else None,
      (u: (Auth, SenderInfo)) => Some(PublicMessage(f, u.0, u.1)))
  }

  function FramedPart(t: PublicMessage): Framed { t.framed }

  /** encodePublicMessage: each part is written by its own type. */
  function EncodePublic(framed: Codec<Framed>, t: PublicMessage): Option<seq<Byte>> {
    Both(framed.encode(t.framed), Both(EncodeAuth(t.auth), EncodeInfo(t.info)))
  }

  lemma {:induction false} AuthEncoding(a: Auth)
    requires a.PlainAuth? ==> a.ctype == 1 || a.ctype == 2
    ensures AuthArm(a.Tag()).encode(a) == EncodeAuth(a)
  {
    hide VarData;
  }

  lemma {:induction false} InfoEncoding(i: SenderInfo)
    requires i.OtherInfo? ==> 2 <= i.stype <= 4
    ensures InfoFor(i.Tag()).encode(i) == EncodeInfo(i)
  {
    hide VarData;
  }

  lemma {:induction false} PartsEncoding(t: PublicMessage)
    requires PartsAgree(t)
    ensures PublicArm(t.framed).encode(t) == Both(EncodeAuth(t.auth), EncodeInfo(t.info))
  {
    hide AuthArm, InfoFor, EncodeAuth, EncodeInfo, Both;
    AuthEncoding(t.auth);
    InfoEncoding(t.info);
  }

  lemma {:induction false} PublicEncoding(framed: Codec<Framed>, t: PublicMessage)
    requires PartsAgree(t)
    ensures FlatMap(framed, FramedPart, PublicArm).encode(t) == EncodePublic(framed, t)
  {
    hide AuthArm, InfoFor, EncodeAuth, EncodeInfo, Both, FlatMap;
    PartsEncoding(t);
    FlatMapEncodes(framed, FramedPart, PublicArm, t);
  }

  function PublicOf(framed: Codec<Framed>): (c: Codec<PublicMessage>)
    requires Exact(framed)
    ensures Exact(c) && forall t: PublicMessage :: c.readable(t) <==> framed.readable(t.framed) && PartsAgree(t)
  {
    hide PublicArm, AuthArm, InfoFor, EncodePublic;
    var c := Choose(framed, FramedPart, PublicArm);
    var encode := (t: PublicMessage) => EncodePublic(framed, t);
    assert forall t :: c.readable(t) ==> encode(t) == c.encode(t) by {
      forall t | c.readable(t) ensures encode(t) == c.encode(t) { PublicEncoding(framed, t); }
    }
    EncoderExact(c, encode);
    c.(encode := encode)
  }

  function PublicCodec(): (c: Codec<PublicMessage>)
    ensures Exact(c) && forall t :: c.readable(t) <==> PublicOk(t)
  {
    hide PublicOf, FramedOf, PartsAgree, FramedOk;
    PublicOf(FramedCodec())
  }

  // ---- the other bodies ----

  datatype PrivateMessage = PrivateMessage(
    groupId: seq<Byte>, epoch: int, ctype: int, data: seq<Byte>, senderData: seq<Byte>, ciphertext: seq<Byte>)

  predicate PrivateOk(m: PrivateMessage) { U64(m.epoch) && 1 <= m.ctype <= 3 }

  function PrivateCodec(): (c: Codec<PrivateMessage>)
    ensures Exact(c) && forall t :: c.readable(t) <==> PrivateOk(t)
  {
    hide VarData, Uint64, Closed, Then, Then3, Then4, Then5;
    As(
      Then6(Data(), Number64(), Closed(1, 3), Data(), Data(), Data()),
      (t: PrivateMessage) => Some((t.groupId, t.epoch, t.ctype, t.data, t.senderData, t.ciphertext)),
      (u: (seq<Byte>, int, int, seq<Byte>, seq<Byte>, seq<Byte>)) => Some(PrivateMessage(u.0, u.1, u.2, u.3, u.4, u.5)))
  }

  datatype EncryptedSecrets = EncryptedSecrets(newMember: seq<Byte>, secrets: HpkeCiphertext)

  datatype Welcome = Welcome(suite: Code, secrets: seq<EncryptedSecrets>, info: seq<Byte>)

  function EncryptedSecretsCodec(): (c: Codec<EncryptedSecrets>)
    ensures Exact(c) && Solid(c) && forall t :: c.readable(t)
  {
    hide VarData;
    As(
      Then(Data(), CiphertextCodec()),
      (t: EncryptedSecrets) => Some((t.newMember, t.secrets)),
      (u: (seq<Byte>, HpkeCiphertext)) => Some(EncryptedSecrets(u.0, u.1)))
  }

  function WelcomeCodec(): (c: Codec<Welcome>)
    ensures Exact(c) && forall t :: c.readable(t) <==> CodeOk(KnownSuite, t.suite)
  {
    hide VarData, Then, Open;
    As(
      Then3(Open(KnownSuite), List(EncryptedSecretsCodec()), Data()),
      (t: Welcome) => Some((t.suite, t.secrets, t.info)),
      (u: (Code, seq<EncryptedSecrets>, seq<Byte>)) => Some(Welcome(u.0, u.1, u.2)))
  }

  datatype GroupContext = GroupContext(
    version: int, suite: Code, groupId: seq<Byte>, epoch: int, treeHash: seq<Byte>, transcript: seq<Byte>,
    extensions: seq<Extension>)

  datatype GroupInfo = GroupInfo(
    context: GroupContext, extensions: seq<Extension>, confirmationTag: seq<Byte>, signer: int, signature: seq<Byte>)

  predicate ContextOk(g: GroupContext) {
    KnownVersion(g.version) && CodeOk(KnownSuite, g.suite) && U64(g.epoch) && ExtensionsOk(g.extensions)
  }

  predicate GroupInfoOk(g: GroupInfo) { ContextOk(g.context) && ExtensionsOk(g.extensions) }

  function ContextCodec(): (c: Codec<GroupContext>)
    ensures Exact(c) && forall t :: c.readable(t) <==> ContextOk(t)
  {
    hide VarData, Uint64, Closed, Open, List, Then, Then3, Then4, Then5, ExtensionsOk;
    As(
      Then(Closed(2, 1), Then6(Open(KnownSuite), Data(), Number64(), Data(), Data(), Extensions())),
      (t: GroupContext) => Some((t.version, (t.suite, t.groupId, t.epoch, t.treeHash, t.transcript, t.extensions))),
      (u: (int, (Code, seq<Byte>, int, seq<Byte>, seq<Byte>, seq<Extension>))) =>
        Some(GroupContext(u.0, u.1.0, u.1.1, u.1.2, u.1.3, u.1.4, u.1.5)))
  }

  function GroupInfoOf(
      context: Codec<GroupContext>, extensions: Codec<seq<Extension>>, data: Codec<seq<Byte>>, signer: Codec<int>):
      (c: Codec<GroupInfo>)
    requires Exact(context) && Exact(extensions) && Exact(data) && Exact(signer)
    ensures Exact(c)
    ensures forall t :: c.readable(t) <==>
      && context.readable(t.context) && extensions.readable(t.extensions) && data.readable(t.confirmationTag)
      && signer.readable(t.signer) && data.readable(t.signature)
  {
    hide Then5, As;
    As(
      Then5(context, extensions, data, signer, data),
      (t: GroupInfo) => Some((t.context, t.extensions, t.confirmationTag, t.signer, t.signature)),
      (u: (GroupContext, seq<Extension>, seq<Byte>, int, seq<Byte>)) => Some(GroupInfo(u.0, u.1, u.2, u.3, u.4)))
  }

  function GroupInfoCodec(): (c: Codec<GroupInfo>)
    ensures Exact(c) && forall t :: c.readable(t) <==> GroupInfoOk(t)
  {
    hide GroupInfoOf, VarData, Number, As, Then, Then6, List, ContextOk, ExtensionsOk;
    GroupInfoOf(ContextCodec(), Extensions(), Data(), Number(4))
  }

  // ---- the message ----

  datatype Body =
    | PublicBody(publicMessage: PublicMessage)
    | PrivateBody(privateMessage: PrivateMessage)
    | WelcomeBody(welcome: Welcome)
    | GroupInfoBody(groupInfo: GroupInfo)
    | KeyPackageBody(keyPackage: KeyPackage)
  {
    function Tag(): int {
      match this
      case PublicBody(_) => 1
      case PrivateBody(_) => 2
      case WelcomeBody(_) => 3
      case GroupInfoBody(_) => 4
      case KeyPackageBody(_) => 5
    }
  }

  datatype Message = Message(version: int, body: Body)

  predicate BodyOk(b: Body) {
    match b
    case PublicBody(m) => PublicOk(m)
    case PrivateBody(m) => PrivateOk(m)
    case WelcomeBody(m) => CodeOk(KnownSuite, m.suite)
    case GroupInfoBody(m) => GroupInfoOk(m)
    case KeyPackageBody(m) => KeyPackageOk(m)
  }

  predicate MessageOk(m: Message) { KnownVersion(m.version) && BodyOk(m.body) }

  function BodyBy(
      k: int, publicMessage: Codec<PublicMessage>, privateMessage: Codec<PrivateMessage>, welcome: Codec<Welcome>,
      groupInfo: Codec<GroupInfo>, keyPackage: Codec<KeyPackage>): (c: Codec<Body>)
    requires Exact(publicMessage) && Exact(privateMessage) && Exact(welcome) && Exact(groupInfo) && Exact(keyPackage)
    ensures Exact(c)
    ensures forall t: Body :: c.readable(t) <==>
      && t.Tag() == k
      && (t.PublicBody? ==> publicMessage.readable(t.publicMessage))
      && (t.PrivateBody? ==> privateMessage.readable(t.privateMessage))
      && (t.WelcomeBody? ==> welcome.readable(t.welcome))
      && (t.GroupInfoBody? ==> groupInfo.readable(t.groupInfo))
      && (t.KeyPackageBody? ==> keyPackage.readable(t.keyPackage))
  {
    if k == 1 then
      As(publicMessage, (t: Body) => if t.PublicBody? then Some(t.publicMessage) else None,
        (u: PublicMessage) => Some(PublicBody(u)))
    else if k == 2 then
      As(privateMessage, (t: Body) => if t.PrivateBody? then Some(t.privateMessage) else None,
        (u: PrivateMessage) => Some(PrivateBody(u)))
    else if k == 3 then
      As(welcome, (t: Body) => if t.WelcomeBody? then Some(t.welcome) else None, (u: Welcome) => Some(WelcomeBody(u)))
    else if k == 4 then
      As(groupInfo, (t: Body) => if t.GroupInfoBody? then Some(t.groupInfo) else None,
        (u: GroupInfo) => Some(GroupInfoBody(u)))
    else if k == 5 then
      As(keyPackage, (t: Body) => if t.KeyPackageBody? then Some(t.keyPackage) else None,
        (u: KeyPackage) => Some(KeyPackageBody(u)))
    else
      Unreadable((t: Body) => None)
  }

  function BodyArm(k: int): (c: Codec<Body>)
    ensures Exact(c) && forall t: Body :: c.readable(t) <==> t.Tag() == k && BodyOk(t)
  {
    hide BodyBy, PublicOf, FramedOf, As, Then, Then3, Then4, Then5, Then6, List, VarData, Uint64, Closed, Open,
      GroupInfoOf, LeafOf, OnlyFrom, LeafFrom, Choose, PublicOk, PrivateOk, GroupInfoOk, KeyPackageOk, CodeOk;
    BodyBy(k, PublicCodec(), PrivateCodec(), WelcomeCodec(), GroupInfoCodec(), KeyPackageCodec())
  }

  function BodyCodec(): (c: Codec<Body>)
    ensures Exact(c) && forall t :: c.readable(t) <==> BodyOk(t)
  {
    hide BodyArm, BodyOk;
    Choose(Closed(2, 5), (t: Body) => t.Tag(), BodyArm)
  }

  /** decodeMlsMessageLoose. */
  function MessageCodec(): (c: Codec<Message>)
    ensures Exact(c) && forall t :: c.readable(t) <==> MessageOk(t)
  {
    hide BodyArm, BodyOk, Choose;
    As(
      Then(Closed(2, 1), BodyCodec()),
      (t: Message) => Some((t.version, t.body)),
      (u: (int, Body)) => Some(Message(u.0, u.1)))
  }

  const MAX_MESSAGE_SIZE: nat := 64 * 1024 * 1024

  function EncodeMessage(m: Message): Option<seq<Byte>> { MessageCodec().encode(m) }

  /** decodeMlsMessage: bounded input, and no byte left over. */
  function DecodeMessage(b: seq<Byte>, o: nat): Decoded<Message> {
    if |b| - o > MAX_MESSAGE_SIZE then Refused else
    match MessageCodec().decode(b, o)
    case Read(m, n) => if o + n != |b| then Refused else Read(m, n)
    case Refused => Refused
    case Thrown => Thrown
  }

  /** A buffer is read as a message exactly when everything from the offset on is
      the encoding of that message, it is well formed, and it is not too long. */
  lemma {:induction false} MessageRead(b: seq<Byte>, o: nat, m: Message, n: nat)
    requires o <= |b|
    ensures DecodeMessage(b, o) == Read(m, n)
      <==> MessageOk(m) && EncodeMessage(m) == Some(b[o..]) && n == |b| - o && n <= MAX_MESSAGE_SIZE
  {
    hide BodyArm, MessageOk, As, Then, Choose, Closed;
    var c := MessageCodec();
    assert Exact(c);
    assert c.readable(m) <==> MessageOk(m);
    ExactAt(c, b, o, m, n);
    if EncodeMessage(m).Some? && n == |EncodeMessage(m).value| && o + n == |b| {
      assert b[o..o + n] == b[o..];
    }
  }

  /** A byte after the message, or a message past the limit, and nothing is read. */
  lemma {:induction false} MessageRoundTrip(before: seq<Byte>, m: Message, after: seq<Byte>)
    requires EncodeMessage(m).Some?
    ensures var e := EncodeMessage(m).value;
      DecodeMessage(before + e + after, |before|) == Read(m, |e|) <==>
      MessageOk(m) && after == [] && |e| <= MAX_MESSAGE_SIZE
  {
    hide BodyArm, MessageOk, EncodeMessage, DecodeMessage;
    var e := EncodeMessage(m).value;
    var b := before + e + after;
    MessageRead(b, |before|, m, |e|);
    assert b[|before|..] == e + after;
    if after == [] { assert e + after == e; }
  }
}

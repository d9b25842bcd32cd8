/** The padded content of a private message (src/private-message.ts,
    src/padding-config.ts). */
module PrivateContents {
  import opened Options
  import opened Codecs
  import opened WireForms
  import opened Wire
  import opened WireMessages
  import opened WireBodies

  datatype PaddingConfig = PadUntilLength(floor: nat) | AlwaysPad(length: nat)

  function ByteLengthToPad(encodedLength: nat, config: PaddingConfig): nat {
    if config.AlwaysPad? then config.length
    else if encodedLength >= config.floor then 0
    else config.floor - encodedLength
  }

  function Zeros(n: nat): (z: seq<Byte>)
    ensures |z| == n && forall i | 0 <= i < n :: z[i] == 0
  {
    seq(n, i => 0)
  }

  predicate ZeroFrom(b: seq<Byte>, start: nat) {
    forall i | start <= i < |b| :: b[i] == 0
  }

  function Padded(e: seq<Byte>, config: PaddingConfig): seq<Byte> {
    e + Zeros(ByteLengthToPad(|e|, config))
  }

  /** What decoderWithPadding makes of a buffer. The size it reports is the length
      of the whole buffer, wherever it started. */
  function ReadPadded<T>(c: Codec<T>, b: seq<Byte>, o: nat): Decoded<T> {
    match c.decode(b, o)
    case Read(t, n) => if ZeroFrom(b, o + n) then Read(t, |b|) else Refused
    case Refused => Refused
    case Thrown => Thrown
  }

  method EncoderWithPadding(encoded: seq<Byte>, config: PaddingConfig) returns (result: array<Byte>)
    ensures result[..] == Padded(encoded, config)
  {
    result := new Byte[|encoded| + ByteLengthToPad(|encoded|, config)](i => 0);
    forall i | 0 <= i < |encoded| {
      result[i] := encoded[i];
    }
  }

  lemma {:induction false} ZeroBits(x: Byte)
    ensures x as bv8 == 0 <==> x == 0
  {
    if x as bv8 == 0 { assert (x as bv8) as int == x; }
  }

  lemma {:induction false} OrZero(x: bv8, y: bv8)
    ensures x | y == 0 <==> x == 0 && y == 0
  {
  }

  /** The scan looks at every byte, so that its time tells nothing. */
  method DecoderWithPadding<T>(c: Codec<T>, b: seq<Byte>, o: nat) returns (r: Decoded<T>)
    ensures r == ReadPadded(c, b, o)
  {
    var inner := c.decode(b, o);
    match inner {
      case Refused => return Refused;
      case Thrown => return Thrown;
      case Read(t, n) =>
        var diff: bv8 := 0;
        var i := o + n;
        while i < |b|
          invariant o + n <= i && (o + n <= |b| ==> i <= |b|)
          invariant diff == 0 <==> forall j | o + n <= j < i && j < |b| :: b[j] == 0
        {
          ZeroBits(b[i]);
          OrZero(diff, b[i] as bv8);
          diff := diff | b[i] as bv8;
          i := i + 1;
        }
        return if diff != 0 then Refused else Read(t, |b|);
    }
  }

  // ---- what the padding hides and what it costs ----

  /** A padded length is the larger of length and floor, or a constant more. */
  lemma {:induction false} PaddedLength(e: seq<Byte>, config: PaddingConfig)
    ensures config.PadUntilLength? ==> |Padded(e, config)| == if |e| < config.floor then config.floor else |e|
    ensures config.AlwaysPad? ==> |Padded(e, config)| == |e| + config.length
  {
    assert |Padded(e, config)| == |e| + ByteLengthToPad(|e|, config);
  }

  /** Two lengths are told apart unless a floor is above both. */
  lemma {:induction false} LengthHidden(e: seq<Byte>, f: seq<Byte>, config: PaddingConfig)
    ensures |Padded(e, config)| == |Padded(f, config)|
      <==> |e| == |f| || (config.PadUntilLength? && |e| <= config.floor && |f| <= config.floor)
  {
    PaddedLength(e, config);
    PaddedLength(f, config);
  }

  /** A buffer is read exactly when it is the encoding with zeros after it. */
  lemma {:induction false} PaddedRead<T(!new)>(c: Codec<T>, b: seq<Byte>, t: T, n: nat)
    requires Exact(c)
    ensures ReadPadded(c, b, 0) == Read(t, n)
      <==> c.readable(t) && c.encode(t).Some? && n == |b| && c.encode(t).value <= b && ZeroFrom(b, |c.encode(t).value|)
  {
    hide Exact;
    if c.decode(b, 0).Read? { ExactAt(c, b, 0, c.decode(b, 0).value, c.decode(b, 0).size); }
    if c.encode(t).Some? { ExactAt(c, b, 0, t, |c.encode(t).value|); }
  }

  /** One byte that is not zero after the content, and the whole is refused. */
  lemma {:induction false} PaddingTampered<T(!new)>(c: Codec<T>, t: T, tail: seq<Byte>, i: nat)
    requires Exact(c) && c.readable(t) && c.encode(t).Some? && i < |tail| && tail[i] != 0
    ensures ReadPadded(c, c.encode(t).value + tail, 0) == Refused
  {
    var e := c.encode(t).value;
    var b := e + tail;
    ExactAt(c, b, 0, t, |e|);
    assert b[0..|e|] == e && b[|e| + i] == tail[i];
  }

  // ---- the content of a private message ----

  datatype PrivateContent = PrivateContent(content: Content, auth: Auth)

  /** The signature's part is of the content's type. */
  predicate PrivateContentOk(m: PrivateContent) {
    ContentOk(m.content) && m.auth.Tag() == m.content.Tag() && (m.auth.PlainAuth? ==> m.auth.ctype != 3)
  }

  function EncodePrivate(content: Codec<Content>, m: PrivateContent): Option<seq<Byte>> {
    Both(content.encode(m.content), EncodeAuth(m.auth))
  }

  function PrivateContentOf(k: int, content: Codec<Content>): (c: Codec<PrivateContent>)
    requires Exact(content)
    ensures Exact(c)
    ensures forall t: PrivateContent :: c.readable(t) <==>
      content.readable(t.content) && t.auth.Tag() == k && (t.auth.PlainAuth? ==> k == 1 || k == 2)
    ensures forall t: PrivateContent :: c.encode(t) == EncodePrivate(content, t)
  {
    hide AuthArm, EncodeAuth;
    var c := As(
      Then(content, AuthArm(k)),
      (t: PrivateContent) => Some((t.content, t.auth)),
      (u: (Content, Auth)) => Some(PrivateContent(u.0, u.1)));
    var encode := (t: PrivateContent) => EncodePrivate(content, t);
    assert forall t :: c.readable(t) ==> encode(t) == c.encode(t) by {
      forall t | c.readable(t) ensures encode(t) == c.encode(t) { AuthEncoding(t.auth); }
    }
    EncoderExact(c, encode);
    c.(encode := encode)
  }

  /** The content of one type, before padding. */
  function PrivateContentCodec(k: int): (c: Codec<PrivateContent>)
    ensures Exact(c)
    ensures forall t: PrivateContent :: c.readable(t) <==> t.content.Tag() == k && PrivateContentOk(t)
    ensures forall t: PrivateContent :: c.encode(t) == EncodePrivate(ContentArm(k), t)
  {
    hide ContentArm, ContentOk, EncodePrivate, PrivateContentOf;
    PrivateContentOf(k, ContentArm(k))
  }

  /** encodePrivateMessageContent: None where the encoder throws. */
  function EncodePrivateMessageContent(config: PaddingConfig, m: PrivateContent): Option<seq<Byte>> {
    var e := PrivateContentCodec(m.content.Tag()).encode(m);
    if e.None? then None else Some(Padded(e.value, config))
  }

  /** decodePrivateMessageContent, on a whole buffer. */
  function DecodePrivateMessageContent(k: int, b: seq<Byte>): Decoded<PrivateContent> {
    ReadPadded(PrivateContentCodec(k), b, 0)
  }

  lemma {:induction false} PaddingIsZero(e: seq<Byte>, config: PaddingConfig)
    ensures e <= Padded(e, config) && ZeroFrom(Padded(e, config), |e|)
  {
    var z := Zeros(ByteLengthToPad(|e|, config));
    forall i | |e| <= i < |e + z| ensures (e + z)[i] == 0 {
      assert (e + z)[i] == z[i - |e|];
    }
  }

  lemma {:induction false} ZerosAre(e: seq<Byte>, b: seq<Byte>)
    requires e <= b && ZeroFrom(b, |e|)
    ensures Padded(e, AlwaysPad(|b| - |e|)) == b
  {
    assert b == e + Zeros(|b| - |e|);
  }

  /** With any padding, content comes back and every byte is used, exactly when it
      is well formed. */
  lemma {:induction false} PrivateContentRoundTrip(config: PaddingConfig, m: PrivateContent)
    requires EncodePrivateMessageContent(config, m).Some?
    ensures var b := EncodePrivateMessageContent(config, m).value;
      DecodePrivateMessageContent(m.content.Tag(), b) == Read(m, |b|) <==> PrivateContentOk(m)
  {
    hide ContentArm, PrivateContentOf, PrivateContentOk, Exact, ReadPadded, Padded, ZeroFrom;
    var c, b := PrivateContentCodec(m.content.Tag()), EncodePrivateMessageContent(config, m).value;
    PaddingIsZero(c.encode(m).value, config);
    PaddedRead(c, b, m, |b|);
  }

  lemma {:induction false} ReadIsEncoded(k: int, b: seq<Byte>, m: PrivateContent, n: nat)
    requires DecodePrivateMessageContent(k, b) == Read(m, n)
    ensures PrivateContentOk(m) && m.content.Tag() == k && n == |b|
    ensures var e := PrivateContentCodec(k).encode(m); e.Some? && e.value <= b && ZeroFrom(b, |e.value|)
  {
    hide PrivateContentCodec, PrivateContentOk, ReadPadded, ZeroFrom, Exact;
    var c := PrivateContentCodec(k);
    assert Exact(c);
    PaddedRead(c, b, m, n);
  }

  /** Whatever is read was padded content: its encoding, and zeros. */
  lemma {:induction false} PrivateContentRead(k: int, b: seq<Byte>, m: PrivateContent, n: nat)
    requires DecodePrivateMessageContent(k, b) == Read(m, n)
    ensures PrivateContentOk(m) && m.content.Tag() == k && n == |b|
    ensures exists config :: EncodePrivateMessageContent(config, m) == Some(b)
  {
    hide PrivateContentCodec, PrivateContentOk, DecodePrivateMessageContent, Padded, ZeroFrom, Exact;
    ReadIsEncoded(k, b, m, n);
    var e := PrivateContentCodec(k).encode(m).value;
    ZerosAre(e, b);
    assert EncodePrivateMessageContent(AlwaysPad(|b| - |e|), m) == Some(b);
  }
}

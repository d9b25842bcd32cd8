/** The octets of every structure on the wire, field by field, as RFC 9420 lays
    them out, and that the encoders write exactly these. */
module WireLayout {
  import opened Options
  import opened Codecs
  import opened WireForms
  import opened Wire
  import opened WireMessages
  import opened WireBodies
  import opened PrivateContents

  /** What is written, or None where the encoder throws. */
  type Octets = Option<seq<Byte>>

  // ---- integers ----

  /** Octet `i` of `k`, the most significant first. */
  function OctetOf(n: int, k: nat, i: nat): Byte
    requires i < k
  {
    n / Power256(k - 1 - i) % 256
  }

  function Num(n: int, k: nat): Octets {
    if 0 <= n < Power256(k) then Some(seq(k, i requires 0 <= i < k => OctetOf(n, k, i))) else None
  }

  lemma {:induction false} DivideTwice(n: int, p: nat)
    requires p > 0
    ensures n / 256 / p == n / (256 * p)
  {
    var q, r := n / (256 * p), n % (256 * p);
    assert n == 256 * p * q + r;
    assert n == 256 * (p * q) + r;
    assert n / 256 == p * q + r / 256;
    assert 0 <= r / 256 < p;
    QuotientIs(p * q + r / 256, p, q, r / 256);
  }

  lemma {:induction false} AtLeast(p: int, d: int)
    requires p > 0 && d >= 1
    ensures p * d >= p
  {
  }

  lemma {:induction false} QuotientIs(m: int, p: nat, q: int, r: int)
    requires m == p * q + r && 0 <= r < p
    ensures m / p == q
  {
    var d := m / p - q;
    assert p * d == p * (m / p) - p * q == r - m % p;
    if d >= 1 { AtLeast(p, d); }
    if d <= -1 { AtLeast(p, -d); }
  }

  lemma {:induction false} BigEndianOctet(n: nat, k: nat, i: nat)
    requires i < k
    ensures BigEndian(n, k)[i] == OctetOf(n, k, i)
  {
    if i < k - 1 {
      BigEndianOctet(n / 256, k - 1, i);
      DivideTwice(n, Power256(k - 2 - i));
    } else {
      assert Power256(0) == 1;
    }
  }

  /** encodeUint8, encodeUint16 and encodeUint32: octet `i` of a number in range is
      its digit to base 256 of weight `k - 1 - i`; out of range nothing is written. */
  lemma {:induction false} UintOctets(k: nat, n: int)
    ensures Uint(k).encode(n).Some? <==> 0 <= n < Power256(k)
    ensures 0 <= n < Power256(k) ==>
      && |Uint(k).encode(n).value| == k
      && forall i | 0 <= i < k :: Uint(k).encode(n).value[i] == n / Power256(k - 1 - i) % 256
  {
    if 0 <= n < Power256(k) {
      forall i | 0 <= i < k ensures BigEndian(n, k)[i] == OctetOf(n, k, i) { BigEndianOctet(n, k, i); }
    }
  }

  lemma {:induction false} PowerSplit(j: nat, k: nat)
    ensures Power256(j + k) == Power256(j) * Power256(k)
  {
    if j > 0 { PowerSplit(j - 1, k); }
  }

  lemma {:induction false} SplitQuotient(n: int, p: nat, w: nat, m: nat)
    requires p == w * m && w > 0 && m > 0 && p > 0
    ensures n / w == m * (n / p) + (n % p) / w
  {
    var q, r := n / p, n % p;
    var d := r / w;
    assert n == p * q + r && r == w * d + r % w;
    assert p * q == w * (m * q) by { MulAssociates(w, m, q); }
    assert n == w * (m * q + d) + r % w by { MulDistributes(w, m * q, d); }
    QuotientIs(n, w, m * q + d, r % w);
  }

  lemma {:induction false} MulAssociates(w: int, m: int, q: int)
    ensures (w * m) * q == w * (m * q)
  {
  }

  lemma {:induction false} MulDistributes(w: int, x: int, y: int)
    ensures w * (x + y) == w * x + w * y
  {
  }

  lemma {:induction false} SameLow(h: nat, q: int, d: int)
    ensures (256 * h * q + d) % 256 == d % 256
  {
    MulAssociates(256, h, q);
    var x := h * q;
    assert (256 * x + d) % 256 == d % 256;
  }

  /** Taking the low octets leaves each of them as it was. */
  lemma {:induction false} LowOctet(n: int, k: nat, i: nat)
    requires i < k
    ensures OctetOf(n % Power256(k), k, i) == OctetOf(n, k, i)
  {
    var w, h := Power256(k - 1 - i), Power256(i);
    PowerSplit(k - 1 - i, i + 1);
    assert Power256(i + 1) == 256 * h;
    SplitQuotient(n, Power256(k), w, 256 * h);
    SameLow(h, n / Power256(k), (n % Power256(k)) / w);
  }

  /** encodeUint64 writes every integer: its low eight octets, most significant first. */
  lemma {:induction false} Uint64Octets(n: int)
    ensures Uint64().encode(n).Some? && |Uint64().encode(n).value| == 8
    ensures forall i | 0 <= i < 8 :: Uint64().encode(n).value[i] == n / Power256(7 - i) % 256
  {
    var w := Wrapped(n, Power256(8));
    forall i | 0 <= i < 8 ensures BigEndian(w, 8)[i] == n / Power256(7 - i) % 256 {
      BigEndianOctet(w, 8, i);
      LowOctet(n, 8, i);
    }
  }

  // ---- lengths ----

  /** The length field of section 16 of RFC 9000, in the fewest octets: the top two
      bits say how many, and eight octets are never written. */
  function Header(n: nat): Octets {
    if n < 64 then Num(n, 1)
    else if n < 16384 then Num(0x4000 + n, 2)
    else if n < 0x4000_0000 then Num(0x8000_0000 + n, 4)
    else None
  }

  lemma {:induction false} Powers()
    ensures Power256(0) == 1 && Power256(1) == 256 && Power256(2) == 0x1_0000
    ensures Power256(3) == 0x100_0000 && Power256(4) == 0x1_0000_0000
  {
  }

  lemma {:induction false} NumIs(n: nat)
    ensures n < 256 ==> Num(n, 1) == Some([n])
    ensures n < 0x1_0000 ==> Num(n, 2) == Some([n / 256 % 256, n % 256])
    ensures n < 0x1_0000_0000 ==>
      Num(n, 4) == Some([n / 0x100_0000 % 256, n / 0x1_0000 % 256, n / 256 % 256, n % 256])
  {
    hide Power256;
    Powers();
    if n < 256 { assert Num(n, 1).value == [n]; }
    if n < 0x1_0000 { assert Num(n, 2).value == [n / 256 % 256, n % 256]; }
    if n < 0x1_0000_0000 {
      assert Num(n, 4).value == [n / 0x100_0000 % 256, n / 0x1_0000 % 256, n / 256 % 256, n % 256];
    }
  }

  lemma {:induction false} TwoMore(n: nat)
    requires n < 16384
    ensures (0x4000 + n) / 256 % 256 == 64 + n / 256 && (0x4000 + n) % 256 == n % 256
  {
  }

  lemma {:induction false} FourMore(n: nat)
    requires n < 0x4000_0000
    ensures (0x8000_0000 + n) / 0x100_0000 % 256 == 128 + n / 0x100_0000
    ensures (0x8000_0000 + n) / 0x1_0000 % 256 == n / 0x1_0000 % 256
    ensures (0x8000_0000 + n) / 256 % 256 == n / 256 % 256 && (0x8000_0000 + n) % 256 == n % 256
  {
    assert (0x8000_0000 + n) / 0x100_0000 == 128 + n / 0x100_0000;
    assert (0x8000_0000 + n) / 0x1_0000 == 0x8000 + n / 0x1_0000;
    assert (0x8000_0000 + n) / 256 == 0x80_0000 + n / 256;
  }

  /** The encoder's shifts and masks write this field. */
  lemma {:induction false} HeaderIs(n: nat)
    ensures EncodeLength(n) == Header(n)
  {
    hide Num;
    if n < 64 {
      NumIs(n);
    } else if n < 16384 {
      NumIs(0x4000 + n);
      TwoMore(n);
    } else if n < 0x4000_0000 {
      NumIs(0x8000_0000 + n);
      FourMore(n);
    }
  }

  // ---- what structures are made of ----

  /** One after the other. */
  function Cat(parts: seq<Octets>): Octets {
    if parts == [] then Some([]) else
    var rest := Cat(parts[1..]);
    if parts[0].None? || rest.None? then None else Some(parts[0].value + rest.value)
  }

  /** Behind a length field. */
  function Vec(d: Octets): Octets {
    if d.None? then None else Cat([Header(|d.value|), d])
  }

  function Opaque(d: seq<Byte>): Octets {
    Vec(Some(d))
  }

  function VecOf<T>(item: T -> Octets, s: seq<T>): Octets {
    Vec(Cat(seq(|s|, i requires 0 <= i < |s| => item(s[i]))))
  }

  function OptionalOf<T>(item: T -> Octets, t: Option<T>): Octets {
    if t.None? then Num(0, 1) else Cat([Num(1, 1), item(t.value)])
  }

  lemma {:induction false} CatNext(a: Octets, rest: seq<Octets>)
    ensures Cat([a] + rest) == Both(a, Cat(rest)) && Cat([]) == Some([])
  {
    assert ([a] + rest)[1..] == rest;
  }

  lemma {:induction false} CatOne(a: Octets)
    ensures Cat([a]) == a
  {
    CatNext(a, []);
    assert [a] + [] == [a];
    if a.Some? { assert a.value + [] == a.value; }
  }

  lemma {:induction false} CatTwo(a: Octets, b: Octets)
    ensures Cat([a, b]) == Both(a, b)
  {
    hide Cat;
    CatOne(b);
    CatNext(a, [b]);
    assert [a] + [b] == [a, b];
  }

  lemma {:induction false} DataIs(d: seq<Byte>)
    ensures Data().encode(d) == Opaque(d)
  {
    hide EncodeLength, Header, Cat;
    HeaderIs(|d|);
    CatTwo(Header(|d|), Some(d));
  }

  lemma {:induction false} NumberIs(k: nat, n: int)
    requires k > 0
    ensures Number(k).encode(n) == Num(n, k)
  {
    hide Power256, BigEndian;
    UintOctets(k, n);
    if 0 <= n < Power256(k) { assert Number(k).encode(n).value == Num(n, k).value; }
  }

  /** Eight octets for any integer, reduced to 64 bits. */
  function Num64(n: int): Octets {
    Some(seq(8, i requires 0 <= i < 8 => OctetOf(n, 8, i)))
  }

  lemma {:induction false} Number64Is(n: int)
    ensures Number64().encode(n) == Num64(n)
  {
    hide Power256, BigEndian, Wrapped;
    Uint64Octets(n);
    assert Number64().encode(n).value == Num64(n).value;
  }

  lemma {:induction false} ThenIs<A(!new), B(!new)>(a: Codec<A>, b: Codec<B>, t: (A, B))
    requires Exact(a) && Exact(b)
    ensures Then(a, b).encode(t) == Cat([a.encode(t.0), b.encode(t.1)])
  {
    hide Cat, Both;
    CatTwo(a.encode(t.0), b.encode(t.1));
  }

  lemma {:induction false} Then3Is<A(!new), B(!new), C(!new)>(
      a: Codec<A>, b: Codec<B>, c: Codec<C>, t: (A, B, C))
    requires Exact(a) && Exact(b) && Exact(c)
    ensures Then3(a, b, c).encode(t) == Cat([a.encode(t.0), b.encode(t.1), c.encode(t.2)])
  {
    hide Cat, Both, Then;
    ThenIs(b, c, (t.1, t.2));
    ThenIs(a, Then(b, c), (t.0, (t.1, t.2)));
    CatBehind(a.encode(t.0), [b.encode(t.1), c.encode(t.2)]);
    assert [a.encode(t.0)] + [b.encode(t.1), c.encode(t.2)] == [a.encode(t.0), b.encode(t.1), c.encode(t.2)];
  }

  lemma {:induction false} CatBehind(a: Octets, rest: seq<Octets>)
    ensures Cat([a, Cat(rest)]) == Cat([a] + rest)
  {
    hide Cat, Both;
    CatTwo(a, Cat(rest));
    CatNext(a, rest);
  }

  lemma {:induction false} Then4Is<A(!new), B(!new), C(!new), D(!new)>(
      a: Codec<A>, b: Codec<B>, c: Codec<C>, d: Codec<D>, t: (A, B, C, D))
    requires Exact(a) && Exact(b) && Exact(c) && Exact(d)
    ensures Then4(a, b, c, d).encode(t) == Cat([a.encode(t.0), b.encode(t.1), c.encode(t.2), d.encode(t.3)])
  {
    hide Cat, Both, Then, Then3;
    Then3Is(b, c, d, (t.1, t.2, t.3));
    ThenIs(a, Then3(b, c, d), (t.0, (t.1, t.2, t.3)));
    var rest := [b.encode(t.1), c.encode(t.2), d.encode(t.3)];
    CatBehind(a.encode(t.0), rest);
    assert [a.encode(t.0)] + rest == [a.encode(t.0), b.encode(t.1), c.encode(t.2), d.encode(t.3)];
  }

  lemma {:induction false} Then5Is<A(!new), B(!new), C(!new), D(!new), E(!new)>(
      a: Codec<A>, b: Codec<B>, c: Codec<C>, d: Codec<D>, e: Codec<E>, t: (A, B, C, D, E))
    requires Exact(a) && Exact(b) && Exact(c) && Exact(d) && Exact(e)
    ensures Then5(a, b, c, d, e).encode(t)
      == Cat([a.encode(t.0), b.encode(t.1), c.encode(t.2), d.encode(t.3), e.encode(t.4)])
  {
    hide Cat, Both, Then, Then3, Then4;
    Then4Is(b, c, d, e, (t.1, t.2, t.3, t.4));
    ThenIs(a, Then4(b, c, d, e), (t.0, (t.1, t.2, t.3, t.4)));
    var rest := [b.encode(t.1), c.encode(t.2), d.encode(t.3), e.encode(t.4)];
    CatBehind(a.encode(t.0), rest);
    assert [a.encode(t.0)] + rest == [a.encode(t.0), b.encode(t.1), c.encode(t.2), d.encode(t.3), e.encode(t.4)];
  }

  lemma {:induction false} Then6Is<A(!new), B(!new), C(!new), D(!new), E(!new), F(!new)>(
      a: Codec<A>, b: Codec<B>, c: Codec<C>, d: Codec<D>, e: Codec<E>, f: Codec<F>, t: (A, B, C, D, E, F))
    requires Exact(a) && Exact(b) && Exact(c) && Exact(d) && Exact(e) && Exact(f)
    ensures Then6(a, b, c, d, e, f).encode(t)
      == Cat([a.encode(t.0), b.encode(t.1), c.encode(t.2), d.encode(t.3), e.encode(t.4), f.encode(t.5)])
  {
    hide Cat, Both, Then, Then3, Then4, Then5;
    Then5Is(b, c, d, e, f, (t.1, t.2, t.3, t.4, t.5));
    ThenIs(a, Then5(b, c, d, e, f), (t.0, (t.1, t.2, t.3, t.4, t.5)));
    var rest := [b.encode(t.1), c.encode(t.2), d.encode(t.3), e.encode(t.4), f.encode(t.5)];
    CatBehind(a.encode(t.0), rest);
    assert [a.encode(t.0)] + rest ==
      [a.encode(t.0), b.encode(t.1), c.encode(t.2), d.encode(t.3), e.encode(t.4), f.encode(t.5)];
  }

  lemma {:induction false} ItemsAre<T(!new)>(c: Codec<T>, item: T -> Octets, s: seq<T>)
    requires forall t :: c.encode(t) == item(t)
    ensures EncodeAll(c, s) == Cat(seq(|s|, i requires 0 <= i < |s| => item(s[i])))
  {
    var items := seq(|s|, i requires 0 <= i < |s| => item(s[i]));
    if s == [] {
      assert items == [];
    } else {
      ItemsAre(c, item, s[1..]);
      var rest := seq(|s| - 1, i requires 0 <= i < |s| - 1 => item(s[1..][i]));
      assert items == [item(s[0])] + rest;
      CatNext(item(s[0]), rest);
    }
  }

  lemma {:induction false} ListIs<T(!new)>(c: Codec<T>, item: T -> Octets, s: seq<T>)
    requires Exact(c) && Solid(c) && forall t :: c.encode(t) == item(t)
    ensures List(c).encode(s) == VecOf(item, s)
  {
    hide EncodeAll, Cat, Exact, Solid, VarData, Header;
    ItemsAre(c, item, s);
    var e := EncodeAll(c, s);
    if e.Some? { DataIs(e.value); }
  }

  lemma {:induction false} MaybeIs<T(!new)>(c: Codec<T>, item: T -> Octets, t: Option<T>)
    requires Exact(c) && (t.Some? ==> c.encode(t.value) == item(t.value))
    ensures Maybe(c).encode(t) == OptionalOf(item, t)
  {
    hide Num, Cat, Exact;
    NumIs(0);
    NumIs(1);
    if t.Some? { CatTwo(Some([1]), item(t.value)); }
  }

  lemma {:induction false} ChooseIs<T(!new), K(!new)>(tag: Codec<K>, key: T -> K, arm: K -> Codec<T>, t: T)
    requires Exact(tag) && ArmsExact(key, arm)
    ensures Choose(tag, key, arm).encode(t) == Cat([tag.encode(key(t)), arm(key(t)).encode(t)])
  {
    hide Cat, Exact, ArmsExact, Both;
    CatTwo(tag.encode(key(t)), arm(key(t)).encode(t));
  }

  /** A number from 1 to `top`; the encoder has no other. */
  function Enum(n: int, k: nat, top: int): Octets {
    if 1 <= n <= top then Num(n, k) else None
  }

  /** A number, by name or bare; a name is one of the table's. */
  function CodeOctets(known: int -> bool, c: Code): Octets {
    if c.Name? && !known(c.code) then None else Num(c.code, 2)
  }

  lemma {:induction false} ClosedIs(width: nat, top: int, n: int)
    requires width > 0
    ensures Closed(width, top).encode(n) == Enum(n, width, top)
  {
    hide Number, Num;
    NumberIs(width, n);
  }

  lemma {:induction false} OpenIs(known: int -> bool, c: Code)
    ensures Open(known).encode(c) == CodeOctets(known, c)
  {
    hide Number, Num;
    NumberIs(2, c.code);
  }

  // ---- extensions and credentials ----

  function ExtensionOctets(e: Extension): Octets {
    Cat([CodeOctets(KnownExtension, e.etype), Opaque(e.data)])
  }

  lemma {:induction false} ExtensionIs(e: Extension)
    ensures ExtensionCodec().encode(e) == ExtensionOctets(e)
  {
    hide Open, VarData, Then, Cat, Opaque, CodeOctets;
    ThenIs(Open(KnownExtension), Data(), (e.etype, e.data));
    OpenIs(KnownExtension, e.etype);
    DataIs(e.data);
  }

  function ExtensionsOctets(s: seq<Extension>): Octets {
    VecOf(ExtensionOctets, s)
  }

  lemma {:induction false} ExtensionsIs(s: seq<Extension>)
    ensures Extensions().encode(s) == ExtensionsOctets(s)
  {
    hide List, VecOf, Cat, CodeOctets, Opaque, Then, Open, VarData;
    forall e ensures ExtensionCodec().encode(e) == ExtensionOctets(e) { ExtensionIs(e); }
    ListIs(ExtensionCodec(), ExtensionOctets, s);
  }

  function CredentialOctets(c: Credential): Octets {
    match c
    case Basic(identity) => Cat([Num(1, 2), Opaque(identity)])
    case X509(certificates) => Cat([Num(2, 2), VecOf(Opaque, certificates)])
    case OtherCredential(other, data) =>
      if other == Name(1) || other == Name(2) then None else Cat([CodeOctets(KnownCredential, other), Opaque(data)])
  }

  lemma {:induction false} CertificatesIs(s: seq<seq<Byte>>)
    ensures List(Data()).encode(s) == VecOf(Opaque, s)
  {
    hide List, VarData, Opaque, VecOf;
    forall d ensures Data().encode(d) == Opaque(d) { DataIs(d); }
    ListIs(Data(), Opaque, s);
  }

  lemma {:induction false} CredentialArmIs(c: Credential)
    ensures CredentialArm(c.Tag()).encode(c) ==
      match c
      case Basic(identity) => Opaque(identity)
      case X509(certificates) => VecOf(Opaque, certificates)
      case OtherCredential(other, data) => if other == Name(1) || other == Name(2) then None else Opaque(data)
  {
    hide VarData, Vector, Opaque, VecOf;
    match c
    case Basic(identity) => DataIs(identity);
    case X509(certificates) => CertificatesIs(certificates);
    case OtherCredential(other, data) => DataIs(data);
  }

  lemma {:induction false} CredentialIs(c: Credential)
    ensures CredentialCodec().encode(c) == CredentialOctets(c)
  {
    hide Choose, CredentialArm, Open, Opaque, VecOf, Num, CodeOctets, Cat;
    ChooseIs(Open(KnownCredential), (t: Credential) => t.Tag(), CredentialArm, c);
    OpenIs(KnownCredential, c.Tag());
    CredentialArmIs(c);
    CatNone(CodeOctets(KnownCredential, c.Tag()));
    NamesKnown();
  }

  lemma {:induction false} CatNone(a: Octets)
    ensures Cat([a, None]) == None
  {
    CatTwo(a, None);
  }

  lemma {:induction false} NamesKnown()
    ensures CodeOctets(KnownCredential, Name(1)) == Num(1, 2) && CodeOctets(KnownCredential, Name(2)) == Num(2, 2)
  {
  }

  // ---- leaves ----

  function VersionOctets(c: Code): Octets { CodeOctets(KnownVersion, c) }
  function SuiteOctets(c: Code): Octets { CodeOctets(KnownSuite, c) }
  function CredentialTypeOctets(c: Code): Octets { CodeOctets(KnownCredential, c) }
  function Num16(n: int): Octets { Num(n, 2) }

  function CapabilitiesOctets(c: Capabilities): Octets {
    Cat([
      VecOf(VersionOctets, c.versions), VecOf(SuiteOctets, c.suites), VecOf(Num16, c.extensions),
      VecOf(Num16, c.proposals), VecOf(CredentialTypeOctets, c.credentials)])
  }

  lemma {:induction false} CodesAre(known: int -> bool, item: Code -> Octets, s: seq<Code>)
    requires forall c :: item(c) == CodeOctets(known, c)
    ensures Codes(known).encode(s) == VecOf(item, s)
  {
    hide List, VecOf, CodeOctets, Open;
    forall c ensures Open(known).encode(c) == item(c) { OpenIs(known, c); }
    ListIs(Open(known), item, s);
  }

  lemma {:induction false} Numbers16Are(s: seq<int>)
    ensures List(Number(2)).encode(s) == VecOf(Num16, s)
  {
    hide List, VecOf, Num, Number;
    forall n ensures Number(2).encode(n) == Num16(n) { NumberIs(2, n); }
    ListIs(Number(2), Num16, s);
  }

  lemma {:induction false} CapabilitiesIs(c: Capabilities)
    ensures CapabilitiesCodec().encode(c) == CapabilitiesOctets(c)
  {
    hide Codes, List, Number, Then5, Cat, VecOf, Num, CodeOctets;
    CodesAre(KnownVersion, VersionOctets, c.versions);
    CodesAre(KnownSuite, SuiteOctets, c.suites);
    CodesAre(KnownCredential, CredentialTypeOctets, c.credentials);
    Numbers16Are(c.extensions);
    Numbers16Are(c.proposals);
    Then5Is(
      Codes(KnownVersion), Codes(KnownSuite), List(Number(2)), List(Number(2)), Codes(KnownCredential),
      (c.versions, c.suites, c.extensions, c.proposals, c.credentials));
  }

  function LeafDataOctets(d: LeafData): Octets {
    Cat([Opaque(d.hpkeKey), Opaque(d.sigKey), CredentialOctets(d.credential), CapabilitiesOctets(d.capabilities)])
  }

  lemma {:induction false} LeafDataIs(d: LeafData)
    ensures LeafDataCodec().encode(d) == LeafDataOctets(d)
  {
    hide VarData, Choose, Then4, Then5, Cat, Opaque, CredentialOctets, CapabilitiesOctets;
    DataIs(d.hpkeKey);
    DataIs(d.sigKey);
    CredentialIs(d.credential);
    CapabilitiesIs(d.capabilities);
    Then4Is(
      Data(), Data(), CredentialCodec(), CapabilitiesCodec(), (d.hpkeKey, d.sigKey, d.credential, d.capabilities));
  }

  function InfoOctets(i: LeafInfo): Octets {
    match i
    case KeyPackageInfo(notBefore, notAfter) => Cat([Num(1, 1), Num64(notBefore), Num64(notAfter)])
    case UpdateInfo => Num(2, 1)
    case CommitInfo(parentHash) => Cat([Num(3, 1), Opaque(parentHash)])
  }

  lemma {:induction false} InfoIs(i: LeafInfo)
    ensures InfoCodec().encode(i) == InfoOctets(i)
  {
    hide Choose, InfoArm, Closed, Cat, Opaque, Num, Num64;
    ChooseIs(Closed(1, 3), (t: LeafInfo) => t.Source(), InfoArm, i);
    ClosedIs(1, 3, i.Source());
    InfoArmIs(i);
    if i.KeyPackageInfo? { CatBehindTwo(Num(1, 1), Num64(i.notBefore), Num64(i.notAfter)); }
    if i.UpdateInfo? { CatEmpty(Num(2, 1)); }
  }

  lemma {:induction false} CatBehindTwo(a: Octets, b: Octets, c: Octets)
    ensures Cat([a, Cat([b, c])]) == Cat([a, b, c])
  {
    hide Cat;
    CatBehind(a, [b, c]);
    assert [a] + [b, c] == [a, b, c];
  }

  lemma {:induction false} CatEmpty(a: Octets)
    ensures Cat([a, Some([])]) == a
  {
    hide Cat;
    CatTwo(a, Some([]));
    if a.Some? { assert a.value + [] == a.value; }
  }

  lemma {:induction false} InfoArmIs(i: LeafInfo)
    ensures InfoArm(i.Source()).encode(i) ==
      match i
      case KeyPackageInfo(notBefore, notAfter) => Cat([Num64(notBefore), Num64(notAfter)])
      case UpdateInfo => Some([])
      case CommitInfo(parentHash) => Opaque(parentHash)
  {
    hide VarData, Uint64, Pair, Cat, Opaque, Num64;
    match i
    case KeyPackageInfo(notBefore, notAfter) =>
      Number64Is(notBefore);
      Number64Is(notAfter);
      ThenIs(Number64(), Number64(), (notBefore, notAfter));
    case UpdateInfo =>
    case CommitInfo(parentHash) => DataIs(parentHash);
  }

  function LeafOctets(l: LeafNode): Octets {
    Cat([LeafDataOctets(l.data), InfoOctets(l.info), ExtensionsOctets(l.extensions), Opaque(l.signature)])
  }

  lemma {:induction false} LeafIs(l: LeafNode)
    ensures LeafCodec().encode(l) == LeafOctets(l)
  {
    hide VarData, Choose, List, Then4, Cat, Opaque, LeafDataOctets, InfoOctets, ExtensionsOctets;
    LeafDataIs(l.data);
    InfoIs(l.info);
    ExtensionsIs(l.extensions);
    DataIs(l.signature);
    Then4Is(LeafDataCodec(), InfoCodec(), Extensions(), Data(), (l.data, l.info, l.extensions, l.signature));
  }

  /** The encoder of a leaf of a named source is that of any leaf. */
  lemma {:induction false} LeafFromIs(source: int, l: LeafNode)
    ensures LeafFrom(source).encode(l) == LeafOctets(l)
  {
    hide LeafOf, LeafOctets;
    LeafIs(l);
  }

  function KeyPackageOctets(k: KeyPackage): Octets {
    Cat([
      Enum(k.version, 2, 1), SuiteOctets(k.suite), Opaque(k.initKey), LeafOctets(k.leaf),
      ExtensionsOctets(k.extensions), Opaque(k.signature)])
  }

  lemma {:induction false} KeyPackageIs(k: KeyPackage)
    ensures KeyPackageCodec().encode(k) == KeyPackageOctets(k)
  {
    hide VarData, Closed, Open, LeafFrom, List, Then6, Cat, Enum, CodeOctets, Opaque, LeafOctets, ExtensionsOctets;
    ClosedIs(2, 1, k.version);
    OpenIs(KnownSuite, k.suite);
    DataIs(k.initKey);
    LeafFromIs(1, k.leaf);
    ExtensionsIs(k.extensions);
    DataIs(k.signature);
    Then6Is(
      Closed(2, 1), Open(KnownSuite), Data(), LeafFrom(1), Extensions(), Data(),
      (k.version, k.suite, k.initKey, k.leaf, k.extensions, k.signature));
  }

  // ---- proposals ----

  function PskOctets(p: PskId): Octets {
    match p.info
    case ExternalPsk(id) => Cat([Num(1, 1), Opaque(id), Opaque(p.nonce)])
    case ResumptionPsk(usage, groupId, epoch) =>
      Cat([Num(2, 1), Enum(usage, 1, 3), Opaque(groupId), Num64(epoch), Opaque(p.nonce)])
  }

  lemma {:induction false} PskArmIs(i: PskInfo)
    ensures PskArm(i.Tag()).encode(i) ==
      match i
      case ExternalPsk(id) => Opaque(id)
      case ResumptionPsk(usage, groupId, epoch) => Cat([Enum(usage, 1, 3), Opaque(groupId), Num64(epoch)])
  {
    hide VarData, Uint64, Closed, Then3, Cat, Opaque, Num64, Enum;
    match i
    case ExternalPsk(id) => DataIs(id);
    case ResumptionPsk(usage, groupId, epoch) =>
      ClosedIs(1, 3, usage);
      DataIs(groupId);
      Number64Is(epoch);
      Then3Is(Closed(1, 3), Data(), Number64(), (usage, groupId, epoch));
  }

  lemma {:induction false} BothAssociates(a: Octets, b: Octets, c: Octets)
    ensures Both(Both(a, b), c) == Both(a, Both(b, c))
  {
    if a.Some? && b.Some? && c.Some? { assert (a.value + b.value) + c.value == a.value + (b.value + c.value); }
  }

  /** A list of parts may be cut anywhere. */
  lemma {:induction false} CatJoin(a: seq<Octets>, b: seq<Octets>)
    ensures Cat(a + b) == Both(Cat(a), Cat(b))
  {
    hide Both;
    if a == [] {
      assert a + b == b;
      CatNext(None, []);
      BothNothing(Cat(b));
    } else {
      assert a + b == [a[0]] + (a[1..] + b);
      assert a == [a[0]] + a[1..];
      CatNext(a[0], a[1..] + b);
      CatNext(a[0], a[1..]);
      CatJoin(a[1..], b);
      BothAssociates(a[0], Cat(a[1..]), Cat(b));
    }
  }

  lemma {:induction false} BothNothing(a: Octets)
    ensures Both(Some([]), a) == a
  {
    if a.Some? { assert [] + a.value == a.value; }
  }

  lemma {:induction false} PskInfoIs(c: Codec<PskInfo>, i: PskInfo)
    requires c == Choose(Closed(1, 2), (t: PskInfo) => t.Tag(), PskArm)
    ensures c.encode(i) == Cat([Enum(i.Tag(), 1, 2), PskArm(i.Tag()).encode(i)])
  {
    hide Choose, PskArm, Closed, Cat, Enum;
    ChooseIs(Closed(1, 2), (t: PskInfo) => t.Tag(), PskArm, i);
    ClosedIs(1, 2, i.Tag());
  }

  lemma {:induction false} CatFront(a: seq<Octets>, b: seq<Octets>)
    ensures Cat([Cat(a)] + b) == Cat(a + b)
  {
    hide Cat, Both;
    CatJoin(a, b);
    CatNext(Cat(a), b);
  }

  lemma {:induction false} PskJoined(p: PskId)
    ensures Cat([
        match p.info
        case ExternalPsk(id) => Cat([Num(1, 1), Opaque(id)])
        case ResumptionPsk(usage, groupId, epoch) =>
          Cat([Num(2, 1), Cat([Enum(usage, 1, 3), Opaque(groupId), Num64(epoch)])]),
        Opaque(p.nonce)]) == PskOctets(p)
  {
    hide Cat, Opaque, Num64, Num, Enum;
    var nonce := [Opaque(p.nonce)];
    match p.info
    case ExternalPsk(id) =>
      var front := [Num(1, 1), Opaque(id)];
      CatFront(front, nonce);
      assert [Cat(front)] + nonce == [Cat(front), Opaque(p.nonce)];
      assert front + nonce == [Num(1, 1), Opaque(id), Opaque(p.nonce)];
    case ResumptionPsk(usage, groupId, epoch) =>
      var rest := [Enum(usage, 1, 3), Opaque(groupId), Num64(epoch)];
      CatBehind(Num(2, 1), rest);
      var front := [Num(2, 1)] + rest;
      CatFront(front, nonce);
      assert [Cat(front)] + nonce == [Cat(front), Opaque(p.nonce)];
      assert front + nonce == [Num(2, 1), Enum(usage, 1, 3), Opaque(groupId), Num64(epoch), Opaque(p.nonce)];
  }

  lemma {:induction false} PskIs(p: PskId)
    ensures PskCodec().encode(p) == PskOctets(p)
  {
    hide VarData, Choose, PskArm, Closed, Then, Cat, Opaque, Num64, Num, PskOctets;
    var tagged := Choose(Closed(1, 2), (t: PskInfo) => t.Tag(), PskArm);
    ThenIs(tagged, Data(), (p.info, p.nonce));
    PskInfoIs(tagged, p.info);
    PskArmIs(p.info);
    DataIs(p.nonce);
    PskJoined(p);
  }

  function ProposalOctets(p: Proposal): Octets {
    match p
    case Add(keyPackage) => Cat([Num(1, 2), KeyPackageOctets(keyPackage)])
    case Update(leaf) => Cat([Num(2, 2), LeafOctets(leaf)])
    case Remove(removed) => Cat([Num(3, 2), Num(removed, 4)])
    case Psk(psk) => Cat([Num(4, 2), PskOctets(psk)])
    case Reinit(groupId, version, suite, extensions) =>
      Cat([Num(5, 2), Opaque(groupId), Enum(version, 2, 1), SuiteOctets(suite), ExtensionsOctets(extensions)])
    case ExternalInit(kemOutput) => Cat([Num(6, 2), Opaque(kemOutput)])
    case GroupContextExtensions(extensions) => Cat([Num(7, 2), ExtensionsOctets(extensions)])
    case Custom(ctype, data) => Cat([Num(ctype, 2), Opaque(data)])
  }

  lemma {:induction false} ReinitIs(p: Proposal)
    requires p.Reinit?
    ensures ReinitCodec().encode(p) ==
      Cat([Opaque(p.groupId), Enum(p.version, 2, 1), SuiteOctets(p.suite), ExtensionsOctets(p.extensions)])
  {
    hide VarData, Closed, Open, List, Then4, Cat, Opaque, Enum, CodeOctets, ExtensionsOctets;
    DataIs(p.groupId);
    ClosedIs(2, 1, p.version);
    OpenIs(KnownSuite, p.suite);
    ExtensionsIs(p.extensions);
    Then4Is(
      Data(), Closed(2, 1), Open(KnownSuite), Extensions(), (p.groupId, p.version, p.suite, p.extensions));
  }

  /** The codecs of a proposal's parts can be read back. */
  lemma {:induction false} ReadBack()
    ensures Exact(Data()) && Exact(Extensions()) && Exact(PskCodec()) && Exact(KeyPackageCodec())
    ensures Exact(ProposalCodec())
  {
    hide As, Choose, EncodeProposal, List, Then, Then6;
    VarDataExact();
  }

  lemma {:induction false} MemberArms(k: Codec<KeyPackage>, l: Codec<LeafNode>, n: Codec<int>, p: Proposal)
    requires Exact(k) && Exact(l) && Exact(n)
    ensures p.Add? ==> AddCodec(k).encode(p) == k.encode(p.keyPackage)
    ensures p.Update? ==> UpdateCodec(l).encode(p) == l.encode(p.leaf)
    ensures p.Remove? ==> RemoveCodec(n).encode(p) == n.encode(p.removed)
  {
    hide Exact;
  }

  lemma {:induction false} OtherArms(i: Codec<PskId>, d: Codec<seq<Byte>>, e: Codec<seq<Extension>>, p: Proposal)
    requires Exact(i) && Exact(d) && Exact(e)
    ensures p.Psk? ==> PskProposalCodec(i).encode(p) == i.encode(p.psk)
    ensures p.ExternalInit? ==> ExternalInitCodec(d).encode(p) == d.encode(p.kemOutput)
    ensures p.GroupContextExtensions? ==> ContextExtensionsCodec(e).encode(p) == e.encode(p.contextExtensions)
  {
    hide Exact;
  }

  lemma {:induction false} ProposalArmIs(p: Proposal)
    requires !p.Custom?
    ensures ProposalArm(p.Tag()).encode(p) ==
      match p
      case Add(keyPackage) => KeyPackageOctets(keyPackage)
      case Update(leaf) => LeafOctets(leaf)
      case Remove(removed) => Num(removed, 4)
      case Psk(psk) => PskOctets(psk)
      case Reinit(groupId, version, suite, extensions) =>
        Cat([Opaque(groupId), Enum(version, 2, 1), SuiteOctets(suite), ExtensionsOctets(extensions)])
      case ExternalInit(kemOutput) => Opaque(kemOutput)
      case GroupContextExtensions(extensions) => ExtensionsOctets(extensions)
      case Custom(_, _) => None
  {
    hide VarData, List, Then, Then4, Then6, LeafFrom, Choose, Closed, Open, Number, KeyPackageOctets, LeafOctets, As,
      PskOctets, Cat, Opaque, Enum, CodeOctets, ExtensionsOctets, Num, Exact, Solid, AddCodec, UpdateCodec, RemoveCodec,
      PskProposalCodec, ExternalInitCodec, ContextExtensionsCodec, CustomCodec;
    ReadBack();
    MemberArms(KeyPackageCodec(), LeafFrom(2), Number(4), p);
    OtherArms(PskCodec(), Data(), Extensions(), p);
    match p
    case Add(keyPackage) => KeyPackageIs(keyPackage);
    case Update(leaf) => LeafFromIs(2, leaf);
    case Remove(removed) => NumberIs(4, removed);
    case Psk(psk) => PskIs(psk);
    case Reinit(_, _, _, _) => ReinitIs(p);
    case ExternalInit(kemOutput) => DataIs(kemOutput);
    case GroupContextExtensions(extensions) => ExtensionsIs(extensions);
  }

  /** Every proposal the encoder writes, a custom one of any 16-bit number included. */
  lemma {:induction false} ProposalIs(p: Proposal)
    ensures ProposalCodec().encode(p) == ProposalOctets(p)
  {
    hide Choose, ProposalArm, Number, VarData, Pair, KeyPackageOctets, LeafOctets, PskOctets, Cat, Opaque, Enum,
      CodeOctets, ExtensionsOctets, Num, FlatMap;
    NumberIs(2, p.Tag());
    if p.Custom? {
      DataIs(p.data);
      PairIs(Number(2), Data(), (p.ctype, p.data));
    } else {
      FlatMapEncodes(Number(2), ProposalKey, ProposalArm, p);
      ProposalArmIs(p);
      CatTwo(Num(p.Tag(), 2), ProposalArm(p.Tag()).encode(p));
      if p.Reinit? {
        CatBehind(
          Num(5, 2),
          [Opaque(p.groupId), Enum(p.version, 2, 1), SuiteOctets(p.suite), ExtensionsOctets(p.extensions)]);
        assert [Num(5, 2)] +
          [Opaque(p.groupId), Enum(p.version, 2, 1), SuiteOctets(p.suite), ExtensionsOctets(p.extensions)] ==
          [Num(5, 2), Opaque(p.groupId), Enum(p.version, 2, 1), SuiteOctets(p.suite), ExtensionsOctets(p.extensions)];
      }
    }
  }

  lemma {:induction false} PairIs<A(!new), B(!new)>(a: Codec<A>, b: Codec<B>, t: (A, B))
    ensures Pair(a, b).encode(t) == Cat([a.encode(t.0), b.encode(t.1)])
  {
    hide Cat, Both;
    CatTwo(a.encode(t.0), b.encode(t.1));
  }

  // ---- commits ----

  function ProposalOrRefOctets(p: ProposalOrRef): Octets {
    match p
    case ByValue(proposal) => Cat([Num(1, 1), ProposalOctets(proposal)])
    case ByRef(reference) => Cat([Num(2, 1), Opaque(reference)])
  }

  lemma {:induction false} ReferenceArms(c: Codec<Proposal>, d: Codec<seq<Byte>>, p: ProposalOrRef)
    requires Exact(c) && Exact(d)
    ensures p.ByValue? ==> ByValueCodec(c).encode(p) == c.encode(p.proposal)
    ensures p.ByRef? ==> ByRefCodec(d).encode(p) == d.encode(p.reference)
  {
    hide Exact;
  }

  lemma {:induction false} ProposalOrRefIs(p: ProposalOrRef)
    ensures ProposalOrRefCodec().encode(p) == ProposalOrRefOctets(p)
  {
    hide Choose, ByValueCodec, ByRefCodec, Closed, EncodeProposal, ProposalOctets, Cat, Opaque, Num, VarData, As, Exact,
      Solid;
    ReadBack();
    ChooseOrRef(p);
    ClosedIs(1, 2, p.Tag());
    ReferenceArms(ProposalCodec(), Data(), p);
    match p
    case ByValue(proposal) => ProposalIs(proposal);
    case ByRef(reference) => DataIs(reference);
  }

  lemma {:induction false} ChooseOrRef(p: ProposalOrRef)
    ensures ProposalOrRefCodec().encode(p) ==
      Cat([Closed(1, 2).encode(p.Tag()), ProposalOrRefArm(p.Tag()).encode(p)])
  {
    hide Choose, ProposalOrRefArm, Closed, Cat;
    ChooseIs(Closed(1, 2), (t: ProposalOrRef) => t.Tag(), ProposalOrRefArm, p);
  }

  function CiphertextOctets(c: HpkeCiphertext): Octets {
    Cat([Opaque(c.kemOutput), Opaque(c.ciphertext)])
  }

  lemma {:induction false} CiphertextIs(c: HpkeCiphertext)
    ensures CiphertextCodec().encode(c) == CiphertextOctets(c)
  {
    hide VarData, Pair, Cat, Opaque;
    DataIs(c.kemOutput);
    DataIs(c.ciphertext);
    ThenIs(Data(), Data(), (c.kemOutput, c.ciphertext));
  }

  function PathNodeOctets(n: UpdatePathNode): Octets {
    Cat([Opaque(n.hpkeKey), VecOf(CiphertextOctets, n.secrets)])
  }

  lemma {:induction false} PathNodeIs(n: UpdatePathNode)
    ensures PathNodeCodec().encode(n) == PathNodeOctets(n)
  {
    hide VarData, Pair, Cat, Opaque, Vector, VecOf;
    DataIs(n.hpkeKey);
    forall c ensures CiphertextCodec().encode(c) == CiphertextOctets(c) { CiphertextIs(c); }
    ListIs(CiphertextCodec(), CiphertextOctets, n.secrets);
    ThenIs(Data(), List(CiphertextCodec()), (n.hpkeKey, n.secrets));
  }

  function PathOctets(p: UpdatePath): Octets {
    Cat([LeafOctets(p.leaf), VecOf(PathNodeOctets, p.nodes)])
  }

  lemma {:induction false} PathIs(p: UpdatePath)
    ensures PathCodec().encode(p) == PathOctets(p)
  {
    hide VarData, Pair, Cat, Opaque, Vector, VecOf, LeafFrom, LeafOctets, CiphertextOctets, Then;
    LeafFromIs(3, p.leaf);
    forall n ensures PathNodeCodec().encode(n) == PathNodeOctets(n) { PathNodeIs(n); }
    ListIs(PathNodeCodec(), PathNodeOctets, p.nodes);
    ThenIs(LeafFrom(3), List(PathNodeCodec()), (p.leaf, p.nodes));
  }

  function CommitOctets(c: Commit): Octets {
    Cat([VecOf(ProposalOrRefOctets, c.proposals), OptionalOf(PathOctets, c.path)])
  }

  lemma {:induction false} CommitIs(c: Commit)
    ensures CommitCodec().encode(c) == CommitOctets(c)
  {
    hide Then, Cat, List, VecOf, Maybe, OptionalOf, ProposalOrRefArm, ProposalOctets, LeafFrom, PathOf, LeafOctets,
      Opaque, Num, Choose;
    forall p ensures ProposalOrRefCodec().encode(p) == ProposalOrRefOctets(p) { ProposalOrRefIs(p); }
    ListIs(ProposalOrRefCodec(), ProposalOrRefOctets, c.proposals);
    if c.path.Some? { PathIs(c.path.value); }
    MaybeIs(PathCodec(), PathOctets, c.path);
    ThenIs(List(ProposalOrRefCodec()), Maybe(PathCodec()), (c.proposals, c.path));
  }

  // ---- framed content ----

  function SenderOctets(s: Sender): Octets {
    match s
    case Member(leafIndex) => Cat([Num(1, 1), Num(leafIndex, 4)])
    case External(senderIndex) => Cat([Num(2, 1), Num(senderIndex, 4)])
    case NewMemberProposal => Num(3, 1)
    case NewMemberCommit => Num(4, 1)
  }

  lemma {:induction false} SenderArmIs(s: Sender)
    ensures SenderArm(s.Tag()).encode(s) ==
      match s
      case Member(leafIndex) => Num(leafIndex, 4)
      case External(senderIndex) => Num(senderIndex, 4)
      case _ => Some([])
  {
    hide Number, Num;
    if s.Member? { NumberIs(4, s.leafIndex); }
    if s.External? { NumberIs(4, s.senderIndex); }
  }

  lemma {:induction false} SenderIs(s: Sender)
    ensures SenderCodec().encode(s) == SenderOctets(s)
  {
    hide SenderArm, Closed, Choose, Cat, Num;
    ChooseIs(Closed(1, 4), (t: Sender) => t.Tag(), SenderArm, s);
    ClosedIs(1, 4, s.Tag());
    SenderArmIs(s);
    CatEmpty(Num(s.Tag(), 1));
  }

  /** The content behind its type. */
  function ContentOctets(c: Content): Octets {
    match c
    case ApplicationContent(data) => Cat([Num(1, 1), Opaque(data)])
    case ProposalContent(proposal) => Cat([Num(2, 1), ProposalOctets(proposal)])
    case CommitContent(commit) => Cat([Num(3, 1), CommitOctets(commit)])
  }

  lemma {:induction false} ContentByIs(
      data: Codec<seq<Byte>>, proposal: Codec<Proposal>, commit: Codec<Commit>, c: Content)
    requires Exact(data) && Exact(proposal) && Exact(commit)
    ensures ContentBy(data, proposal, commit, c.Tag()).encode(c) ==
      match c
      case ApplicationContent(d) => data.encode(d)
      case ProposalContent(p) => proposal.encode(p)
      case CommitContent(m) => commit.encode(m)
  {
    hide Exact;
  }

  lemma {:induction false} BareContentIs(c: Content)
    ensures ContentArm(c.Tag()).encode(c) ==
      match c
      case ApplicationContent(data) => Opaque(data)
      case ProposalContent(proposal) => ProposalOctets(proposal)
      case CommitContent(commit) => CommitOctets(commit)
  {
    hide ContentBy, Opaque, ProposalOctets, CommitOctets, EncodeProposal, CommitOf, Exact, VarData, As;
    ReadBack();
    CommitReadBack();
    ContentByIs(Data(), ProposalCodec(), CommitCodec(), c);
    match c
    case ApplicationContent(data) => DataIs(data);
    case ProposalContent(proposal) => ProposalIs(proposal);
    case CommitContent(commit) => CommitIs(commit);
  }

  lemma {:induction false} ContentIs(c: Content)
    ensures ContentCodec().encode(c) == ContentOctets(c)
  {
    hide ContentArm, Closed, Choose, Cat, Num, Opaque, ProposalOctets, CommitOctets;
    ContentChosen(c);
    ClosedIs(1, 3, c.Tag());
    BareContentIs(c);
  }

  lemma {:induction false} CommitReadBack()
    ensures Exact(CommitCodec())
  {
    hide CommitOf, List, Maybe, PathOf, Choose;
  }

  lemma {:induction false} ContentChosen(c: Content)
    ensures ContentCodec().encode(c) == Cat([Closed(1, 3).encode(c.Tag()), ContentArm(c.Tag()).encode(c)])
  {
    hide Choose, ContentArm, Closed, Cat;
    ChooseIs(Closed(1, 3), (t: Content) => t.Tag(), ContentArm, c);
  }

  function FramedOctets(f: Framed): Octets {
    Cat([Opaque(f.groupId), Num64(f.epoch), SenderOctets(f.sender), Opaque(f.data), ContentOctets(f.content)])
  }

  lemma {:induction false} FramedIs(f: Framed)
    ensures FramedCodec().encode(f) == FramedOctets(f)
  {
    hide VarData, Uint64, Choose, Then5, Cat, Opaque, Num64, SenderOctets, ContentOctets, SenderArm, ContentArm, Closed;
    DataIs(f.groupId);
    Number64Is(f.epoch);
    SenderIs(f.sender);
    DataIs(f.data);
    ContentIs(f.content);
    Then5Is(
      Data(), Number64(), SenderCodec(), Data(), ContentCodec(),
      (f.groupId, f.epoch, f.sender, f.data, f.content));
  }

  // ---- bodies ----

  /** A commit adds its confirmation tag behind the signature. */
  function AuthOctets(a: Auth): Octets {
    match a
    case PlainAuth(_, signature) => Opaque(signature)
    case CommitAuth(signature, confirmationTag) => Cat([Opaque(signature), Opaque(confirmationTag)])
  }

  function SenderInfoOctets(i: SenderInfo): Octets {
    match i
    case MemberInfo(membershipTag) => Opaque(membershipTag)
    case OtherInfo(_) => Some([])
  }

  function PublicOctets(m: PublicMessage): Octets {
    Cat([FramedOctets(m.framed), AuthOctets(m.auth), SenderInfoOctets(m.info)])
  }

  lemma {:induction false} PublicIs(m: PublicMessage)
    ensures PublicCodec().encode(m) == PublicOctets(m)
  {
    hide VarData, Cat, Opaque, FramedOctets, Choose, FramedOf, Pair, EncodeInfo, AuthOctets, SenderInfoOctets,
      EncodeAuth;
    FramedIs(m.framed);
    AuthIs(m.auth);
    SenderInfoIs(m.info);
    var a, i := AuthOctets(m.auth), SenderInfoOctets(m.info);
    CatTwo(a, i);
    CatTwo(FramedOctets(m.framed), Cat([a, i]));
    CatBehindTwo(FramedOctets(m.framed), a, i);
  }

  lemma {:induction false} AuthIs(a: Auth)
    ensures EncodeAuth(a) == AuthOctets(a)
  {
    hide VarData, Cat, Opaque, Pair;
    DataIs(a.signature);
    if a.CommitAuth? {
      DataIs(a.confirmationTag);
      PairIs(Data(), Data(), (a.signature, a.confirmationTag));
    }
  }

  lemma {:induction false} SenderInfoIs(i: SenderInfo)
    ensures EncodeInfo(i) == SenderInfoOctets(i)
  {
    hide VarData, Opaque;
    if i.MemberInfo? { DataIs(i.membershipTag); }
  }

  function PrivateOctets(m: PrivateMessage): Octets {
    Cat([
      Opaque(m.groupId), Num64(m.epoch), Enum(m.ctype, 1, 3), Opaque(m.data), Opaque(m.senderData),
      Opaque(m.ciphertext)])
  }

  lemma {:induction false} PrivateIs(m: PrivateMessage)
    ensures PrivateCodec().encode(m) == PrivateOctets(m)
  {
    hide VarData, Uint64, Closed, Then6, Cat, Opaque, Num64, Enum;
    DataIs(m.groupId);
    Number64Is(m.epoch);
    ClosedIs(1, 3, m.ctype);
    DataIs(m.data);
    DataIs(m.senderData);
    DataIs(m.ciphertext);
    Then6Is(
      Data(), Number64(), Closed(1, 3), Data(), Data(), Data(),
      (m.groupId, m.epoch, m.ctype, m.data, m.senderData, m.ciphertext));
  }

  function EncryptedSecretsOctets(e: EncryptedSecrets): Octets {
    Cat([Opaque(e.newMember), CiphertextOctets(e.secrets)])
  }

  lemma {:induction false} EncryptedSecretsIs(e: EncryptedSecrets)
    ensures EncryptedSecretsCodec().encode(e) == EncryptedSecretsOctets(e)
  {
    hide VarData, Pair, Cat, Opaque, CiphertextOctets;
    DataIs(e.newMember);
    CiphertextIs(e.secrets);
    ThenIs(Data(), CiphertextCodec(), (e.newMember, e.secrets));
  }

  function WelcomeOctets(w: Welcome): Octets {
    Cat([SuiteOctets(w.suite), VecOf(EncryptedSecretsOctets, w.secrets), Opaque(w.info)])
  }

  lemma {:induction false} WelcomeIs(w: Welcome)
    ensures WelcomeCodec().encode(w) == WelcomeOctets(w)
  {
    hide VarData, Pair, Then3, Cat, Opaque, CiphertextOctets, Open, CodeOctets, Vector, VecOf;
    OpenIs(KnownSuite, w.suite);
    forall e ensures EncryptedSecretsCodec().encode(e) == EncryptedSecretsOctets(e) { EncryptedSecretsIs(e); }
    ListIs(EncryptedSecretsCodec(), EncryptedSecretsOctets, w.secrets);
    DataIs(w.info);
    Then3Is(Open(KnownSuite), List(EncryptedSecretsCodec()), Data(), (w.suite, w.secrets, w.info));
  }

  function ContextOctets(g: GroupContext): Octets {
    Cat([
      Enum(g.version, 2, 1), SuiteOctets(g.suite), Opaque(g.groupId), Num64(g.epoch), Opaque(g.treeHash),
      Opaque(g.transcript), ExtensionsOctets(g.extensions)])
  }

  lemma {:induction false} ContextIs(g: GroupContext)
    ensures ContextCodec().encode(g) == ContextOctets(g)
  {
    hide VarData, Uint64, Closed, Open, List, Then, Then6, Cat, Opaque, Num64, Enum, CodeOctets, ExtensionsOctets;
    ClosedIs(2, 1, g.version);
    OpenIs(KnownSuite, g.suite);
    DataIs(g.groupId);
    Number64Is(g.epoch);
    DataIs(g.treeHash);
    DataIs(g.transcript);
    ExtensionsIs(g.extensions);
    var rest := (g.suite, g.groupId, g.epoch, g.treeHash, g.transcript, g.extensions);
    Then6Is(Open(KnownSuite), Data(), Number64(), Data(), Data(), Extensions(), rest);
    ThenIs(
      Closed(2, 1), Then6(Open(KnownSuite), Data(), Number64(), Data(), Data(), Extensions()), (g.version, rest));
    var parts := [
      SuiteOctets(g.suite), Opaque(g.groupId), Num64(g.epoch), Opaque(g.treeHash), Opaque(g.transcript),
      ExtensionsOctets(g.extensions)];
    CatBehind(Enum(g.version, 2, 1), parts);
    assert [Enum(g.version, 2, 1)] + parts == [
      Enum(g.version, 2, 1), SuiteOctets(g.suite), Opaque(g.groupId), Num64(g.epoch), Opaque(g.treeHash),
      Opaque(g.transcript), ExtensionsOctets(g.extensions)];
  }

  function GroupInfoOctets(g: GroupInfo): Octets {
    Cat([
      ContextOctets(g.context), ExtensionsOctets(g.extensions), Opaque(g.confirmationTag), Num(g.signer, 4),
      Opaque(g.signature)])
  }

  lemma {:induction false} GroupInfoIs(g: GroupInfo)
    ensures GroupInfoCodec().encode(g) == GroupInfoOctets(g)
  {
    hide VarData, List, Number, Then, Then5, Then6, Cat, Opaque, Num, ContextOctets, ExtensionsOctets;
    ContextIs(g.context);
    ExtensionsIs(g.extensions);
    DataIs(g.confirmationTag);
    NumberIs(4, g.signer);
    DataIs(g.signature);
    Then5Is(
      ContextCodec(), Extensions(), Data(), Number(4), Data(),
      (g.context, g.extensions, g.confirmationTag, g.signer, g.signature));
  }

  // ---- the message ----

  lemma {:induction false} BodyByIs(
      p: Codec<PublicMessage>, q: Codec<PrivateMessage>, w: Codec<Welcome>, g: Codec<GroupInfo>, k: Codec<KeyPackage>,
      b: Body)
    requires Exact(p) && Exact(q) && Exact(w) && Exact(g) && Exact(k)
    ensures BodyBy(b.Tag(), p, q, w, g, k).encode(b) ==
      match b
      case PublicBody(m) => p.encode(m)
      case PrivateBody(m) => q.encode(m)
      case WelcomeBody(m) => w.encode(m)
      case GroupInfoBody(m) => g.encode(m)
      case KeyPackageBody(m) => k.encode(m)
  {
    hide Exact;
  }

  function BodyOctets(b: Body): Octets {
    match b
    case PublicBody(m) => PublicOctets(m)
    case PrivateBody(m) => PrivateOctets(m)
    case WelcomeBody(m) => WelcomeOctets(m)
    case GroupInfoBody(m) => GroupInfoOctets(m)
    case KeyPackageBody(m) => KeyPackageOctets(m)
  }

  function MessageOctets(m: Message): Octets {
    Cat([Enum(m.version, 2, 1), Num(m.body.Tag(), 2), BodyOctets(m.body)])
  }

  lemma {:induction false} BodiesReadBack()
    ensures Exact(PublicCodec()) && Exact(PrivateCodec()) && Exact(WelcomeCodec()) && Exact(GroupInfoCodec())
    ensures Exact(KeyPackageCodec())
  {
    hide PublicOf, FramedOf, As, Then, Then3, Then6, List, VarData, Uint64, Closed, Open, GroupInfoOf, Choose;
  }

  lemma {:induction false} BodyArmIs(b: Body)
    ensures BodyArm(b.Tag()).encode(b) == BodyOctets(b)
  {
    hide BodyBy, PublicOf, FramedOf, As, Then, Then3, Then6, List, VarData, Uint64, Closed, Open, GroupInfoOf, Choose,
      Exact, PublicOctets, PrivateOctets, WelcomeOctets, GroupInfoOctets, KeyPackageOctets;
    BodiesReadBack();
    BodyByIs(PublicCodec(), PrivateCodec(), WelcomeCodec(), GroupInfoCodec(), KeyPackageCodec(), b);
    match b
    case PublicBody(m) => PublicIs(m);
    case PrivateBody(m) => PrivateIs(m);
    case WelcomeBody(m) => WelcomeIs(m);
    case GroupInfoBody(m) => GroupInfoIs(m);
    case KeyPackageBody(m) => KeyPackageIs(m);
  }

  lemma {:induction false} BodyIs(b: Body)
    ensures BodyCodec().encode(b) == Cat([Num(b.Tag(), 2), BodyOctets(b)])
  {
    hide Choose, BodyArm, Closed, Cat, Num, BodyOctets;
    ChooseIs(Closed(2, 5), (t: Body) => t.Tag(), BodyArm, b);
    ClosedIs(2, 5, b.Tag());
    BodyArmIs(b);
  }

  /** The whole message, to the last octet; None is the encoder's exception. */
  lemma {:induction false} MessageIs(m: Message)
    ensures EncodeMessage(m) == MessageOctets(m)
  {
    hide Choose, BodyArm, Closed, Then, Cat, Num, Enum, BodyOctets;
    ClosedIs(2, 1, m.version);
    BodyIs(m.body);
    ThenIs(Closed(2, 1), BodyCodec(), (m.version, m.body));
    CatBehindTwo(Enum(m.version, 2, 1), Num(m.body.Tag(), 2), BodyOctets(m.body));
  }

  /** A buffer is read as a message exactly when its rest is that message laid out. */
  lemma {:induction false} LaidOutRead(b: seq<Byte>, o: nat, m: Message, n: nat)
    requires o <= |b|
    ensures DecodeMessage(b, o) == Read(m, n)
      <==> MessageOk(m) && MessageOctets(m) == Some(b[o..]) && n == |b| - o && n <= MAX_MESSAGE_SIZE
  {
    hide DecodeMessage, EncodeMessage, MessageOctets, MessageOk;
    MessageRead(b, o, m, n);
    MessageIs(m);
  }

  // ---- inside a private message ----

  /** What is encrypted: the content without its type, which the frame has, then the
      signature and a commit's tag. */
  function PrivateContentOctets(m: PrivateContent): Octets {
    Cat([
      match m.content
      case ApplicationContent(data) => Opaque(data)
      case ProposalContent(proposal) => ProposalOctets(proposal)
      case CommitContent(commit) => CommitOctets(commit),
      AuthOctets(m.auth)])
  }

  /** The plaintext of a private message: these octets, then as many zeros as the padding asks for. */
  lemma {:induction false} PrivateContentIs(config: PaddingConfig, m: PrivateContent)
    ensures EncodePrivateMessageContent(config, m) ==
      var e := PrivateContentOctets(m);
      if e.None? then None else
      Some(e.value + seq(
        if config.AlwaysPad? then config.length
        else if |e.value| < config.floor then config.floor - |e.value| else 0, i => 0))
  {
    hide ContentArm, EncodeAuth, AuthOctets, Cat, Opaque, ProposalOctets, CommitOctets, PrivateContentOf;
    BareContentIs(m.content);
    AuthIs(m.auth);
    CatTwo(ContentArm(m.content.Tag()).encode(m.content), AuthOctets(m.auth));
  }
}

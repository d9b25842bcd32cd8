/** Encoders and decoders of the TLS presentation language (src/codec).

    A decoder reads at an offset and gives the value with the number of bytes it
    took; or it refuses, the source's `undefined`; or it throws a CodecError. An
    encoder gives bytes or throws. `readable` is the set of values whose encoding
    can be read back: the source encodes more than that. */
module Codecs {
  import opened Options

  type Byte = x: int | 0 <= x < 256

  datatype Decoded<+T> = Read(value: T, size: nat) | Refused | Thrown

  datatype Codec<!T> = Codec(
    readable: T -> bool, encode: T -> Option<seq<Byte>>, decode: (seq<Byte>, nat) -> Decoded<T>)

  ghost predicate StandsAt(b: seq<Byte>, o: nat, e: seq<Byte>) {
    o + |e| <= |b| && b[o..o + |e|] == e
  }

  lemma {:induction false} StandsSplit(b: seq<Byte>, o: nat, e: seq<Byte>, f: seq<Byte>)
    ensures StandsAt(b, o, e + f) <==> StandsAt(b, o, e) && StandsAt(b, o + |e|, f)
  {
    if o + |e + f| <= |b| {
      assert b[o..o + |e + f|] == b[o..o + |e|] + b[o + |e|..o + |e| + |f|];
      assert (e + f)[..|e|] == e && (e + f)[|e|..] == f;
      assert b[o..o + |e + f|][..|e|] == b[o..o + |e|];
      assert b[o..o + |e + f|][|e|..] == b[o + |e|..o + |e| + |f|];
    }
  }

  /** The bytes of `b` from `o` start with the encoding of the readable value `t`. */
  ghost predicate Written<T>(c: Codec<T>, b: seq<Byte>, o: nat, t: T) {
    c.readable(t) && c.encode(t).Some? && StandsAt(b, o, c.encode(t).value)
  }

  /** The decoder is the exact inverse of the encoder: it finds every readable
      value wherever its encoding stands, whatever is before and after, and
      from no place inside a buffer does it accept other bytes. So there is one encoding for each value. */
  ghost predicate Exact<T(!new)>(c: Codec<T>) {
    && (forall b: seq<Byte>, o: nat, t :: Written(c, b, o, t) ==> c.decode(b, o) == Read(t, |c.encode(t).value|))
    && (forall b: seq<Byte>, o: nat :: o <= |b| && c.decode(b, o).Read? ==>
          && Written(c, b, o, c.decode(b, o).value)
          && c.decode(b, o).size == |c.encode(c.decode(b, o).value).value|)
  }

  /** What `Exact` says of one buffer. */
  lemma {:induction false} ExactAt<T(!new)>(c: Codec<T>, b: seq<Byte>, o: nat, t: T, n: nat)
    requires Exact(c) && o <= |b|
    ensures c.decode(b, o) == Read(t, n)
      <==> c.readable(t) && c.encode(t).Some? && n == |c.encode(t).value| && StandsAt(b, o, c.encode(t).value)
  {
    assert Written(c, b, o, t) <==> c.readable(t) && c.encode(t).Some? && StandsAt(b, o, c.encode(t).value);
  }

  /** A value makes the round trip exactly when it is readable. */
  lemma {:induction false} RoundTrip<T(!new)>(c: Codec<T>, before: seq<Byte>, t: T, after: seq<Byte>)
    requires Exact(c) && c.encode(t).Some?
    ensures var e := c.encode(t).value;
      c.decode(before + e + after, |before|) == Read(t, |e|) <==> c.readable(t)
  {
    var e := c.encode(t).value;
    assert StandsAt(before + e + after, |before|, e);
    ExactAt(c, before + e + after, |before|, t, |e|);
  }

  /** No two readable values share an encoding, and none is a prefix of another. */
  lemma {:induction false} PrefixFree<T(!new)>(c: Codec<T>, t: T, u: T)
    requires Exact(c) && c.readable(t) && c.readable(u) && c.encode(t).Some? && c.encode(u).Some?
    requires c.encode(t).value <= c.encode(u).value
    ensures t == u
  {
    var b := c.encode(u).value;
    ExactAt(c, b, 0, t, |c.encode(t).value|);
    ExactAt(c, b, 0, u, |b|);
  }

  // ---- integers ----

  function Power256(k: nat): (p: nat)
    ensures p > 0
  {
    if k == 0 then 1 else 256 * Power256(k - 1)
  }

  function BigEndian(n: nat, k: nat): (e: seq<Byte>)
    ensures |e| == k
  {
    if k == 0 then [] else BigEndian(n / 256, k - 1) + [n % 256]
  }

  function FromBigEndian(e: seq<Byte>): nat {
    if e == [] then 0 else 256 * FromBigEndian(e[..|e| - 1]) + e[|e| - 1]
  }

  lemma {:induction false} BigEndianRead(n: nat, k: nat)
    requires n < Power256(k)
    ensures FromBigEndian(BigEndian(n, k)) == n
  {
    if k > 0 {
      BigEndianRead(n / 256, k - 1);
      assert BigEndian(n, k)[..k - 1] == BigEndian(n / 256, k - 1);
    }
  }

  lemma {:induction false} BigEndianWritten(e: seq<Byte>)
    ensures FromBigEndian(e) < Power256(|e|) && BigEndian(FromBigEndian(e), |e|) == e
  {
    if e != [] { BigEndianWritten(e[..|e| - 1]); }
  }

  /** encodeUint8, encodeUint16, encodeUint32: `k` bytes, and a range check that throws. */
  function Uint(k: nat): Codec<int> {
    Codec(
      n => true,
      n => if 0 <= n < Power256(k) then Some(BigEndian(n, k)) else None,
      (b: seq<Byte>, o: nat) => if o + k <= |b| then Read(FromBigEndian(b[o..o + k]), k) else Refused)
  }

  function Wrapped(n: int, p: nat): (w: nat)
    requires p > 0
    ensures w < p && (0 <= n < p ==> w == n)
  {
    n % p
  }

  /** encodeUint64: no range check, `setBigUint64` keeps the low 64 bits. */
  function Uint64(): Codec<int> {
    Codec(
      n => 0 <= n < Power256(8),
      n => Some(BigEndian(Wrapped(n, Power256(8)), 8)),
      Uint(8).decode)
  }

  lemma {:induction false} UintExact(k: nat)
    ensures Exact(Uint(k))
  {
    hide Power256, BigEndian, FromBigEndian;
    var c := Uint(k);
    forall b: seq<Byte>, o: nat, t | Written(c, b, o, t) ensures c.decode(b, o) == Read(t, |c.encode(t).value|) {
      BigEndianRead(t, k);
    }
    forall b: seq<Byte>, o: nat | o <= |b| && c.decode(b, o).Read?
      ensures Written(c, b, o, c.decode(b, o).value) && c.decode(b, o).size == |c.encode(c.decode(b, o).value).value| {
      BigEndianWritten(b[o..o + k]);
    }
  }

  lemma {:induction false} Uint64Exact()
    ensures Exact(Uint64())
  {
    hide Power256, BigEndian, FromBigEndian, Wrapped;
    var c := Uint64();
    forall b: seq<Byte>, o: nat, t | Written(c, b, o, t) ensures c.decode(b, o) == Read(t, |c.encode(t).value|) {
      BigEndianRead(t, 8);
    }
    forall b: seq<Byte>, o: nat | o <= |b| && c.decode(b, o).Read?
      ensures Written(c, b, o, c.decode(b, o).value) && c.decode(b, o).size == |c.encode(c.decode(b, o).value).value| {
      BigEndianWritten(b[o..o + 8]);
    }
  }

  // ---- variable-length data ----

  function EncodeLength(n: nat): Option<seq<Byte>> {
    if n < 64 then Some([n])
    else if n < 16384 then Some([64 + n / 256, n % 256])
    else if n < 0x4000_0000 then Some([128 + n / 0x100_0000, n / 0x1_0000 % 256, n / 256 % 256, n % 256])
    else None
  }

  /** determineLength: a field longer than the length needs is refused. */
  function DecodeLength(b: seq<Byte>, o: nat): Decoded<nat> {
    if o >= |b| then Thrown else
    var first: int := b[o];
    if first < 64 then Read(first, 1)
    else if first < 128 then
      if o + 2 > |b| then Thrown else
      var n: int := (first - 64) * 256 + b[o + 1] as int;
      if n < 64 then Thrown else Read(n, 2)
    else if first < 192 then
      if o + 4 > |b| then Thrown else
      var n: int := (first - 128) * 0x100_0000 + b[o + 1] as int * 0x1_0000 + b[o + 2] as int * 256 + b[o + 3] as int;
      if n < 16384 then Thrown else Read(n, 4)
    else Thrown
  }

  lemma {:induction false} StandsByte(b: seq<Byte>, o: nat, e: seq<Byte>, i: nat)
    requires StandsAt(b, o, e) && i < |e|
    ensures b[o + i] == e[i]
  {
    assert b[o..o + |e|][i] == b[o + i];
  }

  lemma {:induction false} ShortLengthRead(b: seq<Byte>, o: nat, n: nat)
    requires n < 16384 && StandsAt(b, o, EncodeLength(n).value)
    ensures DecodeLength(b, o) == Read(n, |EncodeLength(n).value|)
  {
    var e := EncodeLength(n).value;
    StandsByte(b, o, e, 0);
    if 64 <= n { StandsByte(b, o, e, 1); }
  }

  lemma {:induction false} LongLengthRead(b: seq<Byte>, o: nat, n: nat)
    requires 16384 <= n < 0x4000_0000 && StandsAt(b, o, EncodeLength(n).value)
    ensures DecodeLength(b, o) == Read(n, 4)
  {
    var e := EncodeLength(n).value;
    StandsByte(b, o, e, 0);
    StandsByte(b, o, e, 1);
    StandsByte(b, o, e, 2);
    StandsByte(b, o, e, 3);
    hide StandsAt;
    var x, y, z, w := b[o] as int - 128, b[o + 1] as int, b[o + 2] as int, b[o + 3] as int;
    assert x == n / 0x100_0000 && y == n / 0x1_0000 % 256 && z == n / 256 % 256 && w == n % 256;
    assert x * 256 + y == n / 0x1_0000;
    assert x * 0x1_0000 + y * 256 + z == n / 256;
  }

  lemma {:induction false} LengthRead(b: seq<Byte>, o: nat, n: nat)
    requires EncodeLength(n).Some? && StandsAt(b, o, EncodeLength(n).value)
    ensures DecodeLength(b, o) == Read(n, |EncodeLength(n).value|)
  {
    hide DecodeLength, StandsAt;
    if n < 16384 { ShortLengthRead(b, o, n); } else { LongLengthRead(b, o, n); }
  }

  lemma {:induction false} TwoOctets(n: nat, x: nat, y: nat)
    requires n == (x - 64) * 256 + y && 64 <= x && y < 256
    ensures x == 64 + n / 256 && y == n % 256
  {
  }

  lemma {:induction false} FourOctets(n: nat, x: nat, y: nat, z: nat, w: nat)
    requires n == x * 0x100_0000 + y * 0x1_0000 + z * 256 + w && y < 256 && z < 256 && w < 256
    ensures x == n / 0x100_0000 && y == n / 0x1_0000 % 256 && z == n / 256 % 256 && w == n % 256
  {
    assert n / 256 == x * 0x1_0000 + y * 256 + z && n % 256 == w;
    assert n / 0x1_0000 == x * 256 + y;
  }

  lemma {:induction false} LengthWritten(b: seq<Byte>, o: nat)
    requires DecodeLength(b, o).Read?
    ensures var e := EncodeLength(DecodeLength(b, o).value);
      e.Some? && |e.value| == DecodeLength(b, o).size && StandsAt(b, o, e.value)
  {
    var n, size := DecodeLength(b, o).value, DecodeLength(b, o).size;
    if size == 1 {
      assert b[o..o + 1] == [n];
    } else if size == 2 {
      TwoOctets(n, b[o] as int, b[o + 1] as int);
      assert b[o..o + 2] == [b[o], b[o + 1]];
    } else {
      FourOctets(n, b[o] as int - 128, b[o + 1] as int, b[o + 2] as int, b[o + 3] as int);
      assert b[o..o + 4] == [b[o], b[o + 1], b[o + 2], b[o + 3]];
    }
  }

  function VarData(): Codec<seq<Byte>> {
    Codec(
      d => true,
      (d: seq<Byte>) => Both(EncodeLength(|d|), Some(d)),
      (b: seq<Byte>, o: nat) =>
        match DecodeLength(b, o)
        case Read(n, field) =>
          if o + field + n > |b| then Thrown else Read(b[o + field..o + field + n], field + n)
        case Refused => Refused
        case Thrown => Thrown)
  }

  lemma {:induction false} VarDataExact()
    ensures Exact(VarData())
  {
    hide EncodeLength, DecodeLength;
    var c := VarData();
    forall b: seq<Byte>, o: nat, t | Written(c, b, o, t) ensures c.decode(b, o) == Read(t, |c.encode(t).value|) {
      var h := EncodeLength(|t|).value;
      StandsSplit(b, o, h, t);
      LengthRead(b, o, |t|);
    }
    forall b: seq<Byte>, o: nat | o <= |b| && c.decode(b, o).Read?
      ensures Written(c, b, o, c.decode(b, o).value) && c.decode(b, o).size == |c.encode(c.decode(b, o).value).value| {
      LengthWritten(b, o);
      var n, field := DecodeLength(b, o).value, DecodeLength(b, o).size;
      StandsSplit(b, o, EncodeLength(n).value, b[o + field..o + field + n]);
    }
  }

  // ---- combinators ----

  function Both(x: Option<seq<Byte>>, y: Option<seq<Byte>>): Option<seq<Byte>> {
    if x.None? || y.None? then None else Some(x.value + y.value)
  }

  /** One after the other: a step of mapDecoders and contramapEncoders. */
  function Pair<A, B>(a: Codec<A>, c: Codec<B>): Codec<(A, B)> {
    Codec(
      (t: (A, B)) => a.readable(t.0) && c.readable(t.1),
      (t: (A, B)) => Both(a.encode(t.0), c.encode(t.1)),
      (b: seq<Byte>, o: nat) =>
        match a.decode(b, o)
        case Read(x, n) =>
          (match c.decode(b, o + n)
           case Read(y, m) => Read((x, y), n + m)
           case Refused => Refused
           case Thrown => Thrown)
        case Refused => Refused
        case Thrown => Thrown)
  }

  lemma {:induction false} PairExact<A(!new), B(!new)>(a: Codec<A>, c: Codec<B>)
    requires Exact(a) && Exact(c)
    ensures Exact(Pair(a, c))
  {
    var p := Pair(a, c);
    forall b: seq<Byte>, o: nat, t | Written(p, b, o, t) ensures p.decode(b, o) == Read(t, |p.encode(t).value|) {
      StandsSplit(b, o, a.encode(t.0).value, c.encode(t.1).value);
      assert Written(a, b, o, t.0) && Written(c, b, o + |a.encode(t.0).value|, t.1);
    }
    forall b: seq<Byte>, o: nat | o <= |b| && p.decode(b, o).Read?
      ensures Written(p, b, o, p.decode(b, o).value) && p.decode(b, o).size == |p.encode(p.decode(b, o).value).value| {
      var t := p.decode(b, o).value;
      assert Written(a, b, o, t.0) && Written(c, b, o + |a.encode(t.0).value|, t.1);
      StandsSplit(b, o, a.encode(t.0).value, c.encode(t.1).value);
    }
  }

  /** contramapEncoder with mapDecoderOption. `from` gives None where the decoder
      refuses what it read; `to` gives None for a value of another variant. */
  function Mapped<T(==), U>(c: Codec<U>, to: T -> Option<U>, from: U -> Option<T>): Codec<T> {
    Codec(
      t => to(t).Some? && c.readable(to(t).value) && from(to(t).value) == Some(t),
      t => if to(t).None? then None else c.encode(to(t).value),
      (b: seq<Byte>, o: nat) =>
        match c.decode(b, o)
        case Read(u, n) => if from(u).None? then Refused else Read(from(u).value, n)
        case Refused => Refused
        case Thrown => Thrown)
  }

  ghost predicate Keeps<T(!new), U(!new)>(to: T -> Option<U>, from: U -> Option<T>) {
    forall u :: from(u).Some? ==> to(from(u).value) == Some(u)
  }

  lemma {:induction false} MappedExact<T(!new), U(!new)>(c: Codec<U>, to: T -> Option<U>, from: U -> Option<T>)
    requires Exact(c) && Keeps(to, from)
    ensures Exact(Mapped(c, to, from))
  {
    var m := Mapped(c, to, from);
    forall b: seq<Byte>, o: nat, t | Written(m, b, o, t) ensures m.decode(b, o) == Read(t, |m.encode(t).value|) {
      assert Written(c, b, o, to(t).value);
    }
    forall b: seq<Byte>, o: nat | o <= |b| && m.decode(b, o).Read?
      ensures Written(m, b, o, m.decode(b, o).value) && m.decode(b, o).size == |m.encode(m.decode(b, o).value).value| {
      var u := c.decode(b, o).value;
      assert to(from(u).value) == Some(u) && Written(c, b, o, u);
    }
  }

  /** flatMapDecoder: the tag chooses the decoder of the rest. */
  function FlatMap<T, K>(tag: Codec<K>, key: T -> K, arm: K -> Codec<T>): Codec<T> {
    Codec(
      t => tag.readable(key(t)) && arm(key(t)).readable(t),
      t => Both(tag.encode(key(t)), arm(key(t)).encode(t)),
      (b: seq<Byte>, o: nat) =>
        match tag.decode(b, o)
        case Read(k, n) =>
          (match arm(k).decode(b, o + n)
           case Read(t, m) => Read(t, n + m)
           case Refused => Refused
           case Thrown => Thrown)
        case Refused => Refused
        case Thrown => Thrown)
  }

  /** Every arm is exact and reads only the values that carry its tag. */
  ghost predicate ArmsExact<T(!new), K(!new)>(key: T -> K, arm: K -> Codec<T>) {
    && (forall k :: Exact(arm(k)))
    && (forall k, t :: arm(k).readable(t) ==> key(t) == k)
  }

  lemma {:induction false} FlatMapEncodes<T, K>(tag: Codec<K>, key: T -> K, arm: K -> Codec<T>, t: T)
    ensures FlatMap(tag, key, arm).encode(t) == Both(tag.encode(key(t)), arm(key(t)).encode(t))
  {
  }

  lemma {:induction false} FlatMapExact<T(!new), K(!new)>(tag: Codec<K>, key: T -> K, arm: K -> Codec<T>)
    requires Exact(tag) && ArmsExact(key, arm)
    ensures Exact(FlatMap(tag, key, arm))
  {
    var f := FlatMap(tag, key, arm);
    forall b: seq<Byte>, o: nat, t | Written(f, b, o, t) ensures f.decode(b, o) == Read(t, |f.encode(t).value|) {
      var k := key(t);
      StandsSplit(b, o, tag.encode(k).value, arm(k).encode(t).value);
      assert Exact(arm(k)) && Written(tag, b, o, k) && Written(arm(k), b, o + |tag.encode(k).value|, t);
    }
    forall b: seq<Byte>, o: nat | o <= |b| && f.decode(b, o).Read?
      ensures Written(f, b, o, f.decode(b, o).value) && f.decode(b, o).size == |f.encode(f.decode(b, o).value).value| {
      var k, t := tag.decode(b, o).value, f.decode(b, o).value;
      assert Exact(arm(k)) && Written(tag, b, o, k) && Written(arm(k), b, o + |tag.encode(k).value|, t);
      assert key(t) == k;
      StandsSplit(b, o, tag.encode(k).value, arm(k).encode(t).value);
    }
  }

  /** succeedDecoder, and an encoder that writes nothing. */
  function Succeed<T(==)>(t: T): Codec<T> {
    Codec(u => u == t, u => Some([]), (b: seq<Byte>, o: nat) => Read(t, 0))
  }

  /** A variant the source encodes and has no decoder for. */
  function EncodeOnly<T>(encode: T -> Option<seq<Byte>>): Codec<T> {
    Codec(t => false, encode, (b: seq<Byte>, o: nat) => Refused)
  }

  lemma {:induction false} EncodeOnlyExact<T(!new)>(encode: T -> Option<seq<Byte>>)
    ensures Exact(EncodeOnly(encode))
  {
  }

  /** encodeOptional and decodeOptional: a presence octet, 0 or 1. */
  function Optional<T>(c: Codec<T>): Codec<Option<T>> {
    Codec(
      (t: Option<T>) => t.None? || c.readable(t.value),
      (t: Option<T>) =>
        if t.None? then Some([0]) else Both(Some([1]), c.encode(t.value)),
      (b: seq<Byte>, o: nat) =>
        if o >= |b| then Refused
        else if b[o] == 1 then
          (match c.decode(b, o + 1)
           case Read(t, n) => Read(Some(t), n + 1)
           case Refused => Refused
           case Thrown => Thrown)
        else if b[o] == 0 then Read(None, 1)
        else Refused)
  }

  lemma {:induction false} OptionalExact<T(!new)>(c: Codec<T>)
    requires Exact(c)
    ensures Exact(Optional(c))
  {
    var p := Optional(c);
    forall b: seq<Byte>, o: nat, t | Written(p, b, o, t) ensures p.decode(b, o) == Read(t, |p.encode(t).value|) {
      StandsByte(b, o, p.encode(t).value, 0);
      if t.Some? {
        StandsSplit(b, o, [1], c.encode(t.value).value);
        assert Written(c, b, o + 1, t.value);
      }
    }
    forall b: seq<Byte>, o: nat | o <= |b| && p.decode(b, o).Read?
      ensures Written(p, b, o, p.decode(b, o).value) && p.decode(b, o).size == |p.encode(p.decode(b, o).value).value| {
      var t := p.decode(b, o).value;
      assert b[o..o + 1] == [b[o]];
      if t.Some? {
        assert Written(c, b, o + 1, t.value);
        StandsSplit(b, o, [1], c.encode(t.value).value);
      }
    }
  }

  // ---- vectors ----

  function EncodeAll<T>(c: Codec<T>, s: seq<T>): Option<seq<Byte>> {
    if s == [] then Some([]) else Both(c.encode(s[0]), EncodeAll(c, s[1..]))
  }

  /** An item that takes no bytes is refused: it would never end. */
  function DecodeAll<T>(c: Codec<T>, b: seq<Byte>, cursor: nat): Decoded<seq<T>>
    decreases if cursor < |b| then |b| - cursor else 0
  {
    if cursor >= |b| then Read([], 0) else
    match c.decode(b, cursor)
    case Read(t, n) =>
      if n == 0 then Refused else
      (match DecodeAll(c, b, cursor + n)
       case Read(rest, m) => Read([t] + rest, n + m)
       case Refused => Refused
       case Thrown => Thrown)
    case Refused => Refused
    case Thrown => Thrown
  }

  predicate AllReadable<T>(c: Codec<T>, s: seq<T>) {
    forall i | 0 <= i < |s| :: c.readable(s[i])
  }

  /** encodeVarLenType and decodeVarLenType. */
  function Vector<T>(c: Codec<T>): Codec<seq<T>> {
    Codec(
      (s: seq<T>) => AllReadable(c, s),
      (s: seq<T>) => var e := EncodeAll(c, s); if e.None? then None else VarData().encode(e.value),
      (b: seq<Byte>, o: nat) =>
        match VarData().decode(b, o)
        case Read(inner, n) =>
          (match DecodeAll(c, inner, 0)
           case Read(s, _) => Read(s, n)
           case Refused => Refused
           case Thrown => Thrown)
        case Refused => Refused
        case Thrown => Thrown)
  }

  /** Every encoding takes at least one byte. */
  ghost predicate Solid<T(!new)>(c: Codec<T>) {
    forall t :: c.encode(t).Some? ==> c.encode(t).value != []
  }

  lemma {:induction false} FirstRead<T(!new)>(c: Codec<T>, t: T, b: seq<Byte>, cursor: nat, rest: seq<Byte>)
    requires Exact(c) && Solid(c) && c.readable(t) && c.encode(t).Some? && cursor <= |b|
    requires b[cursor..] == c.encode(t).value + rest
    ensures var n := |c.encode(t).value|;
      0 < n && cursor + n <= |b| && c.decode(b, cursor) == Read(t, n) && b[cursor + n..] == rest
  {
    var e := c.encode(t).value;
    assert b[cursor..cursor + |e|] == b[cursor..][..|e|] == e;
    assert b[cursor + |e|..] == b[cursor..][|e|..];
    assert Written(c, b, cursor, t);
  }

  lemma {:induction false} AllRead<T(!new)>(c: Codec<T>, s: seq<T>, b: seq<Byte>, cursor: nat)
    requires Exact(c) && Solid(c) && AllReadable(c, s) && cursor <= |b| && EncodeAll(c, s) == Some(b[cursor..])
    ensures DecodeAll(c, b, cursor) == Read(s, |b| - cursor)
    decreases |s|
  {
    hide Exact, Solid;
    if s != [] {
      var e, rest := c.encode(s[0]).value, EncodeAll(c, s[1..]).value;
      FirstRead(c, s[0], b, cursor, rest);
      AllRead(c, s[1..], b, cursor + |e|);
      assert [s[0]] + s[1..] == s;
    }
  }

  lemma {:induction false} AllWritten<T(!new)>(c: Codec<T>, b: seq<Byte>, cursor: nat)
    requires Exact(c) && cursor <= |b| && DecodeAll(c, b, cursor).Read?
    ensures AllReadable(c, DecodeAll(c, b, cursor).value)
    ensures EncodeAll(c, DecodeAll(c, b, cursor).value) == Some(b[cursor..])
    decreases |b| - cursor
  {
    hide Solid, EncodeLength, DecodeLength;
    if cursor < |b| {
      var s, t, n := DecodeAll(c, b, cursor).value, c.decode(b, cursor).value, c.decode(b, cursor).size;
      assert Written(c, b, cursor, t);
      AllWritten(c, b, cursor + n);
      assert s[0] == t && s[1..] == DecodeAll(c, b, cursor + n).value;
      assert c.encode(s[0]) == Some(b[cursor..cursor + n]);
      assert b[cursor..] == b[cursor..cursor + n] + b[cursor + n..];
    } else {
      assert b[cursor..] == [];
    }
  }

  lemma {:induction false} VectorExact<T(!new)>(c: Codec<T>)
    requires Exact(c) && Solid(c)
    ensures Exact(Vector(c))
  {
    var v := Vector(c);
    VarDataExact();
    hide VarData;
    forall b: seq<Byte>, o: nat, s | Written(v, b, o, s) ensures v.decode(b, o) == Read(s, |v.encode(s).value|) {
      var e := EncodeAll(c, s).value;
      assert Written(VarData(), b, o, e) by { VarDataReads(e); }
      assert e[0..] == e;
      AllRead(c, s, e, 0);
    }
    forall b: seq<Byte>, o: nat | o <= |b| && v.decode(b, o).Read?
      ensures Written(v, b, o, v.decode(b, o).value) && v.decode(b, o).size == |v.encode(v.decode(b, o).value).value| {
      var inner := VarData().decode(b, o).value;
      assert Written(VarData(), b, o, inner);
      AllWritten(c, inner, 0);
      assert inner[0..] == inner;
    }
  }

  lemma {:induction false} VarDataReads(d: seq<Byte>)
    ensures VarData().readable(d)
  {
  }

  /** A codec may encode as it likes what cannot be read back. */
  lemma {:induction false} EncoderExact<T(!new)>(c: Codec<T>, encode: T -> Option<seq<Byte>>)
    requires Exact(c) && forall t :: c.readable(t) ==> encode(t) == c.encode(t)
    ensures Exact(c.(encode := encode))
  {
    var d := c.(encode := encode);
    forall b: seq<Byte>, o: nat, t | Written(d, b, o, t) ensures d.decode(b, o) == Read(t, |d.encode(t).value|) {
      assert Written(c, b, o, t);
    }
    forall b: seq<Byte>, o: nat | o <= |b| && d.decode(b, o).Read?
      ensures Written(d, b, o, d.decode(b, o).value) && d.decode(b, o).size == |d.encode(d.decode(b, o).value).value| {
      assert Written(c, b, o, c.decode(b, o).value);
    }
  }

  // ---- no empty encodings ----

  lemma {:induction false} SucceedExact<T(!new)>(t: T)
    ensures Exact(Succeed(t))
  {
    var c := Succeed(t);
    forall b: seq<Byte>, o: nat | o <= |b| ensures StandsAt(b, o, []) {
      assert b[o..o] == [];
    }
    assert c.encode(t) == Some([]);
  }

  lemma {:induction false} BothSolid(x: Option<seq<Byte>>, y: Option<seq<Byte>>)
    requires Both(x, y).Some? && (x.value != [] || y.value != [])
    ensures Both(x, y).value != []
  {
    assert |x.value + y.value| == |x.value| + |y.value|;
  }

  lemma {:induction false} PairSolid<A(!new), B(!new)>(a: Codec<A>, c: Codec<B>)
    ensures Solid(a) ==> Solid(Pair(a, c))
  {
    var p := Pair(a, c);
    if Solid(a) {
      forall t | p.encode(t).Some? ensures p.encode(t).value != [] {
        BothSolid(a.encode(t.0), c.encode(t.1));
      }
    }
  }

  lemma {:induction false} OptionalSolid<T(!new)>(c: Codec<T>)
    ensures Solid(Optional(c))
  {
    var p := Optional(c);
    forall t | p.encode(t).Some? ensures p.encode(t).value != [] {
      if t.Some? { BothSolid(Some([1]), c.encode(t.value)); }
    }
  }

  lemma {:induction false} FlatMapSolid<T(!new), K(!new)>(tag: Codec<K>, key: T -> K, arm: K -> Codec<T>)
    ensures Solid(tag) ==> Solid(FlatMap(tag, key, arm))
  {
    var f := FlatMap(tag, key, arm);
    if Solid(tag) {
      forall t | f.encode(t).Some? ensures f.encode(t).value != [] {
        BothSolid(tag.encode(key(t)), arm(key(t)).encode(t));
      }
    }
  }

  lemma {:induction false} VarDataSolid()
    ensures Solid(VarData())
  {
    var c := VarData();
    forall d | c.encode(d).Some? ensures c.encode(d).value != [] {
      BothSolid(EncodeLength(|d|), Some(d));
    }
  }

  lemma {:induction false} VectorSolid<T(!new)>(c: Codec<T>)
    ensures Solid(Vector(c))
  {
    hide EncodeAll, VarData;
    var v := Vector(c);
    VarDataSolid();
    forall s | v.encode(s).Some? ensures v.encode(s).value != [] {
      assert v.encode(s) == VarData().encode(EncodeAll(c, s).value);
    }
  }
}

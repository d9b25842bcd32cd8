/** Exact codecs built from exact codecs. Each function says what it can read
    back, so the wire structures need not look inside a codec. */
module WireForms {
  import opened Options
  import opened Codecs

  function Number(k: nat): (c: Codec<int>)
    requires k > 0
    ensures Exact(c) && Solid(c) && forall n :: c.readable(n)
  {
    UintExact(k);
    Uint(k)
  }

  function Number64(): (c: Codec<int>)
    ensures Exact(c) && Solid(c) && forall n :: c.readable(n) <==> 0 <= n < Power256(8)
  {
    Uint64Exact();
    Uint64()
  }

  function Data(): (c: Codec<seq<Byte>>)
    ensures Exact(c) && Solid(c) && forall d :: c.readable(d)
  {
    VarDataExact();
    VarData()
  }

  function Just<T(!new, ==)>(t: T): (c: Codec<T>)
    ensures Exact(c) && forall u :: c.readable(u) <==> u == t
  {
    SucceedExact(t);
    Succeed(t)
  }

  function Then<A(!new), B(!new)>(a: Codec<A>, b: Codec<B>): (c: Codec<(A, B)>)
    requires Exact(a) && Exact(b)
    ensures Exact(c) && (Solid(a) ==> Solid(c))
    ensures forall t :: c.readable(t) <==> a.readable(t.0) && b.readable(t.1)
  {
    PairExact(a, b);
    PairSolid(a, b);
    Pair(a, b)
  }

  function List<T(!new)>(c: Codec<T>): (v: Codec<seq<T>>)
    requires Exact(c) && Solid(c)
    ensures Exact(v) && Solid(v)
    ensures forall s :: v.readable(s) <==> AllReadable(c, s)
  {
    VectorExact(c);
    VectorSolid(c);
    Vector(c)
  }

  function Maybe<T(!new)>(c: Codec<T>): (p: Codec<Option<T>>)
    requires Exact(c)
    ensures Exact(p) && Solid(p)
    ensures forall t :: p.readable(t) <==> (t.Some? ==> c.readable(t.value))
  {
    OptionalExact(c);
    OptionalSolid(c);
    Optional(c)
  }

  function As<T(!new, ==), U(!new)>(c: Codec<U>, to: T -> Option<U>, from: U -> Option<T>): (m: Codec<T>)
    requires Exact(c) && Keeps(to, from)
    ensures Exact(m) && (Solid(c) ==> Solid(m))
    ensures forall t ::
      m.readable(t) <==> to(t).Some? && c.readable(to(t).value) && from(to(t).value) == Some(t)
  {
    MappedExact(c, to, from);
    Mapped(c, to, from)
  }

  function Then3<A(!new, ==), B(!new, ==), C(!new, ==)>(a: Codec<A>, b: Codec<B>, c: Codec<C>): (r: Codec<(A, B, C)>)
    requires Exact(a) && Exact(b) && Exact(c)
    ensures Exact(r) && (Solid(a) ==> Solid(r))
    ensures forall t :: r.readable(t) <==> a.readable(t.0) && b.readable(t.1) && c.readable(t.2)
  {
    As(
      Then(a, Then(b, c)),
      (t: (A, B, C)) => Some((t.0, (t.1, t.2))),
      (u: (A, (B, C))) => Some((u.0, u.1.0, u.1.1)))
  }

  function Then4<A(!new, ==), B(!new, ==), C(!new, ==), D(!new, ==)>(
      a: Codec<A>, b: Codec<B>, c: Codec<C>, d: Codec<D>): (r: Codec<(A, B, C, D)>)
    requires Exact(a) && Exact(b) && Exact(c) && Exact(d)
    ensures Exact(r) && (Solid(a) ==> Solid(r))
    ensures forall t :: r.readable(t) <==> a.readable(t.0) && b.readable(t.1) && c.readable(t.2) && d.readable(t.3)
  {
    hide Then, As, Then3, Mapped;
    As(
      Then(a, Then3(b, c, d)),
      (t: (A, B, C, D)) => Some((t.0, (t.1, t.2, t.3))),
      (u: (A, (B, C, D))) => Some((u.0, u.1.0, u.1.1, u.1.2)))
  }

  function Then5<A(!new, ==), B(!new, ==), C(!new, ==), D(!new, ==), E(!new, ==)>(
      a: Codec<A>, b: Codec<B>, c: Codec<C>, d: Codec<D>, e: Codec<E>): (r: Codec<(A, B, C, D, E)>)
    requires Exact(a) && Exact(b) && Exact(c) && Exact(d) && Exact(e)
    ensures Exact(r) && (Solid(a) ==> Solid(r))
    ensures forall t :: r.readable(t) <==>
      a.readable(t.0) && b.readable(t.1) && c.readable(t.2) && d.readable(t.3) && e.readable(t.4)
  {
    hide Then, As, Then3, Then4, Mapped;
    As(
      Then(a, Then4(b, c, d, e)),
      (t: (A, B, C, D, E)) => Some((t.0, (t.1, t.2, t.3, t.4))),
      (u: (A, (B, C, D, E))) => Some((u.0, u.1.0, u.1.1, u.1.2, u.1.3)))
  }

  function Then6<A(!new, ==), B(!new, ==), C(!new, ==), D(!new, ==), E(!new, ==), F(!new, ==)>(
      a: Codec<A>, b: Codec<B>, c: Codec<C>, d: Codec<D>, e: Codec<E>, f: Codec<F>): (r: Codec<(A, B, C, D, E, F)>)
    requires Exact(a) && Exact(b) && Exact(c) && Exact(d) && Exact(e) && Exact(f)
    ensures Exact(r) && (Solid(a) ==> Solid(r))
    ensures forall t :: r.readable(t) <==>
      a.readable(t.0) && b.readable(t.1) && c.readable(t.2) && d.readable(t.3) && e.readable(t.4) && f.readable(t.5)
  {
    hide Then, As, Then3, Then4, Then5, Mapped;
    As(
      Then(a, Then5(b, c, d, e, f)),
      (t: (A, B, C, D, E, F)) => Some((t.0, (t.1, t.2, t.3, t.4, t.5))),
      (u: (A, (B, C, D, E, F))) => Some((u.0, u.1.0, u.1.1, u.1.2, u.1.3, u.1.4)))
  }

  function Choose<T(!new), K(!new)>(tag: Codec<K>, key: T -> K, arm: K -> Codec<T>): (c: Codec<T>)
    requires Exact(tag) && ArmsExact(key, arm)
    ensures Exact(c) && (Solid(tag) ==> Solid(c))
    ensures forall t :: c.readable(t) <==> tag.readable(key(t)) && arm(key(t)).readable(t)
  {
    FlatMapExact(tag, key, arm);
    FlatMapSolid(tag, key, arm);
    FlatMap(tag, key, arm)
  }

  function Unreadable<T(!new)>(encode: T -> Option<seq<Byte>>): (c: Codec<T>)
    ensures Exact(c) && forall t :: !c.readable(t)
  {
    EncodeOnlyExact(encode);
    EncodeOnly(encode)
  }

  // ---- enumerations ----

  /** A closed enumeration with codes 1 to `top`: another code is refused. */
  function Closed(width: nat, top: int): (c: Codec<int>)
    requires width > 0
    ensures Exact(c) && Solid(c) && forall n :: c.readable(n) <==> 1 <= n <= top
  {
    var inTable := (n: int) => if 1 <= n <= top then Some(n) else None;
    As(Number(width), inTable, inTable)
  }

  /** A code with a name in the source's table, or a bare number. */
  datatype Code = Name(code: int) | Numeric(code: int)

  predicate CodeOk(known: int -> bool, c: Code) {
    c.Name? <==> known(c.code)
  }

  /** An open enumeration: a code in the table is read as its name. */
  function Open(known: int -> bool): (c: Codec<Code>)
    ensures Exact(c) && Solid(c) && forall t :: c.readable(t) <==> CodeOk(known, t)
  {
    As(
      Number(2),
      (t: Code) => if t.Name? && !known(t.code) then None else Some(t.code),
      (n: int) => Some(if known(n) then Name(n) else Numeric(n)))
  }
}

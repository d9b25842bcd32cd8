/** The message ratchet of one leaf (src/secret-tree.ts): keys for messages in any
    order, each once, on buffers of which only the ratchet's own are wiped. */
module Ratchets {
  import opened Options
  import opened Consumed

  datatype Purpose = ForSecret | ForKey | ForNonce

  /** deriveTreeSecret: from a chain secret and its generation. */
  type Derivation = (seq<int>, nat, Purpose) -> seq<int>

  // ---- on values ----

  datatype Keys = Keys(generation: nat, key: seq<int>, nonce: seq<int>)

  /** `unused` holds keys of generations skipped, oldest first. */
  datatype Chain = Chain(secret: seq<int>, generation: nat, unused: seq<Keys>)

  function KeysOf(kdf: Derivation, secret: seq<int>, generation: nat): Keys {
    Keys(generation, kdf(secret, generation, ForKey), kdf(secret, generation, ForNonce))
  }

  function NewestOf<T>(us: seq<T>, max: nat): seq<T> {
    if |us| > max then us[|us| - max..] else us
  }

  /** updateUnusedGenerations. */
  function Retaining(kdf: Derivation, c: Chain, retain: int): seq<Keys> {
    if retain <= 0 then [] else NewestOf(c.unused + [KeysOf(kdf, c.secret, c.generation)], retain)
  }

  function Skip(kdf: Derivation, c: Chain, retain: int): Chain {
    Chain(kdf(c.secret, c.generation, ForSecret), c.generation + 1, Retaining(kdf, c, retain))
  }

  /** ratchetUntil. */
  function SkipMany(kdf: Derivation, c: Chain, steps: nat, retain: int): Chain {
    if steps == 0 then c else Skip(kdf, SkipMany(kdf, c, steps - 1, retain), retain)
  }

  function FindKeys(us: seq<Keys>, g: nat): (i: Option<nat>)
    ensures i.Some? ==> i.value < |us| && us[i.value].generation == g
    ensures i.None? ==> forall u | u in us :: u.generation != g
  {
    if us == [] then None
    else if us[0].generation == g then Some(0)
    else match FindKeys(us[1..], g) case None => None case Some(i) => Some(i + 1)
  }

  datatype Taken = Taken(keys: Keys, next: Chain)

  /** createRatchetResult. */
  function Consume(kdf: Derivation, c: Chain): Taken {
    Taken(
      KeysOf(kdf, c.secret, c.generation),
      c.(secret := kdf(c.secret, c.generation, ForSecret), generation := c.generation + 1))
  }

  /** ratchetToGeneration: the keys of generation `g`, if they can still be had. */
  function Take(kdf: Derivation, c: Chain, g: nat, retain: int, forward: int): Option<Taken> {
    if g < c.generation then
      match FindKeys(c.unused, g)
      case None => None
      case Some(i) => Some(Taken(c.unused[i], c.(unused := c.unused[..i] + c.unused[i + 1..])))
    else if g - c.generation > forward then None
    else Some(Consume(kdf, SkipMany(kdf, c, g - c.generation, retain)))
  }

  // ---- the sender's keys, each once ----

  /** The chain secret of generation `n`, from the first. */
  function SecretAt(kdf: Derivation, first: seq<int>, n: nat): seq<int> {
    if n == 0 then first else kdf(SecretAt(kdf, first, n - 1), n - 1, ForSecret)
  }

  function KeysAt(kdf: Derivation, first: seq<int>, n: nat): Keys {
    KeysOf(kdf, SecretAt(kdf, first, n), n)
  }

  /** The chain is at its generation, and keeps true keys of earlier ones. */
  ghost predicate ChainOk(kdf: Derivation, first: seq<int>, c: Chain) {
    && c.secret == SecretAt(kdf, first, c.generation)
    && (forall i | 0 <= i < |c.unused| ::
          c.unused[i].generation < c.generation && c.unused[i] == KeysAt(kdf, first, c.unused[i].generation))
    && (forall i, j | 0 <= i < j < |c.unused| :: c.unused[i].generation < c.unused[j].generation)
  }

  lemma {:induction false} SkipOk(kdf: Derivation, first: seq<int>, c: Chain, retain: int)
    requires ChainOk(kdf, first, c)
    ensures ChainOk(kdf, first, Skip(kdf, c, retain))
  {
  }

  lemma {:induction false} SkipManyOk(kdf: Derivation, first: seq<int>, c: Chain, steps: nat, retain: int)
    requires ChainOk(kdf, first, c)
    ensures ChainOk(kdf, first, SkipMany(kdf, c, steps, retain))
    ensures SkipMany(kdf, c, steps, retain).generation == c.generation + steps
  {
    hide ChainOk, Retaining;
    if steps > 0 {
      SkipManyOk(kdf, first, c, steps - 1, retain);
      SkipOk(kdf, first, SkipMany(kdf, c, steps - 1, retain), retain);
    }
  }

  /** Whatever came before and in whatever order, the keys taken for a generation
      are the ones its sender used. */
  lemma {:induction false} TakeGives(kdf: Derivation, first: seq<int>, c: Chain, g: nat, retain: int, forward: int)
    requires ChainOk(kdf, first, c) && Take(kdf, c, g, retain, forward).Some?
    ensures var r, secret := Take(kdf, c, g, retain, forward).value, SecretAt(kdf, first, g);
      && r.keys == Keys(g, kdf(secret, g, ForKey), kdf(secret, g, ForNonce))
      && ChainOk(kdf, first, r.next)
  {
    hide SkipMany;
    if g >= c.generation { SkipManyOk(kdf, first, c, g - c.generation, retain); }
  }

  /** Generation `g` is still to come, or its keys were kept. */
  predicate Open(c: Chain, g: nat) {
    g >= c.generation || FindKeys(c.unused, g).Some?
  }

  lemma {:induction false} TakeIff(kdf: Derivation, c: Chain, g: nat, retain: int, forward: int)
    ensures Take(kdf, c, g, retain, forward).Some? <==>
      Open(c, g) && (g >= c.generation ==> g - c.generation <= forward)
  {
  }

  lemma {:induction false} FoundIff(us: seq<Keys>, g: nat)
    ensures FindKeys(us, g).Some? <==> exists i :: 0 <= i < |us| && us[i].generation == g
  {
    if i :| 0 <= i < |us| && us[i].generation == g { assert us[i] in us; }
  }

  /** What a step past a generation leaves open: nothing kept before is kept
      twice, and at most `retain` are kept, the newest. */
  lemma {:induction false} SkipOpen(kdf: Derivation, first: seq<int>, c: Chain, retain: int, h: nat)
    requires ChainOk(kdf, first, c)
    ensures Open(Skip(kdf, c, retain), h) ==> Open(c, h)
    ensures |c.unused| < retain && Open(c, h) ==> Open(Skip(kdf, c, retain), h)
    ensures |Skip(kdf, c, retain).unused| <= (if retain <= 0 then 0 else retain)
    ensures |Skip(kdf, c, retain).unused| <= |c.unused| + 1
  {
    var n := Skip(kdf, c, retain);
    var all := c.unused + [KeysOf(kdf, c.secret, c.generation)];
    FoundIff(c.unused, h);
    FoundIff(n.unused, h);
    if i :| 0 <= i < |n.unused| && n.unused[i].generation == h {
      assert n.unused[i] in all;
      if n.unused[i] in c.unused {
        var k :| 0 <= k < |c.unused| && c.unused[k] == n.unused[i];
      }
    }
    if |c.unused| < retain {
      assert n.unused == all;
      if i :| 0 <= i < |c.unused| && c.unused[i].generation == h { assert all[i] == c.unused[i]; }
      assert all[|c.unused|].generation == c.generation;
    }
  }

  lemma {:induction false} SkipManyOpen(
      kdf: Derivation, first: seq<int>, c: Chain, steps: nat, retain: int, h: nat)
    requires ChainOk(kdf, first, c)
    ensures var n := SkipMany(kdf, c, steps, retain);
      && (Open(n, h) ==> Open(c, h)) && (|c.unused| + steps <= retain && Open(c, h) ==> Open(n, h))
      && |n.unused| <= |c.unused| + steps
  {
    hide ChainOk, Retaining, Open, Skip;
    if steps > 0 {
      SkipManyOpen(kdf, first, c, steps - 1, retain, h);
      SkipManyOk(kdf, first, c, steps - 1, retain);
      SkipOpen(kdf, first, SkipMany(kdf, c, steps - 1, retain), retain, h);
    }
  }

  /** Keys found, and taken from the list, are found no more; the others still are. */
  lemma {:induction false} WithoutOne(us: seq<Keys>, k: nat, h: nat)
    requires k < |us| && forall i, j | 0 <= i < j < |us| :: us[i].generation < us[j].generation
    ensures FindKeys(us[..k] + us[k + 1..], h).Some? <==> FindKeys(us, h).Some? && h != us[k].generation
  {
    var rest := us[..k] + us[k + 1..];
    forall i | 0 <= i < |rest| ensures rest[i] == us[if i < k then i else i + 1] {}
    FoundIff(us, h);
    FoundIff(rest, h);
    if i :| 0 <= i < |us| && us[i].generation == h && i != k {
      assert rest[if i < k then i else i - 1] == us[i];
    }
  }

  /** Taking a generation closes it for good and opens none; no other is lost
      while there is room for those skipped. */
  lemma {:induction false} TakeCloses(
      kdf: Derivation, first: seq<int>, c: Chain, g: nat, retain: int, forward: int, h: nat)
    requires ChainOk(kdf, first, c) && Take(kdf, c, g, retain, forward).Some?
    ensures var n := Take(kdf, c, g, retain, forward).value.next;
      && (Open(n, h) ==> Open(c, h) && h != g)
      && ((g < c.generation || |c.unused| + g - c.generation <= retain) && Open(c, h) && h != g ==> Open(n, h))
  {
    hide SkipMany;
    if g < c.generation {
      WithoutOne(c.unused, FindKeys(c.unused, g).value, h);
    } else {
      SkipManyOpen(kdf, first, c, g - c.generation, retain, h);
      SkipManyOk(kdf, first, c, g - c.generation, retain);
      NotKept(kdf, first, SkipMany(kdf, c, g - c.generation, retain));
    }
  }

  /** The chain keeps no keys of the generation it is at. */
  lemma {:induction false} NotKept(kdf: Derivation, first: seq<int>, c: Chain)
    requires ChainOk(kdf, first, c)
    ensures FindKeys(c.unused, c.generation) == None
  {
    FoundIff(c.unused, c.generation);
  }

  /** The chain after a run of requests; one that is refused changes nothing. */
  function After(kdf: Derivation, c: Chain, gs: seq<nat>, retain: int, forward: int): Chain
    decreases |gs|
  {
    if gs == [] then c else
    var r := Take(kdf, c, gs[0], retain, forward);
    After(kdf, if r.Some? then r.value.next else c, gs[1..], retain, forward)
  }

  lemma {:induction false} AfterOk(
      kdf: Derivation, first: seq<int>, c: Chain, gs: seq<nat>, retain: int, forward: int, h: nat)
    requires ChainOk(kdf, first, c)
    ensures var n := After(kdf, c, gs, retain, forward); ChainOk(kdf, first, n) && (Open(n, h) ==> Open(c, h))
    decreases |gs|
  {
    hide ChainOk, Take, Open;
    if gs != [] {
      var r := Take(kdf, c, gs[0], retain, forward);
      if r.Some? {
        TakeGives(kdf, first, c, gs[0], retain, forward);
        TakeCloses(kdf, first, c, gs[0], retain, forward, h);
      }
      AfterOk(kdf, first, if r.Some? then r.value.next else c, gs[1..], retain, forward, h);
    }
  }

  /** No keys are handed out twice: once taken, a generation is refused after any
      further requests. */
  lemma {:induction false} NeverAgain(
      kdf: Derivation, first: seq<int>, c: Chain, g: nat, gs: seq<nat>, retain: int, forward: int)
    requires ChainOk(kdf, first, c) && Take(kdf, c, g, retain, forward).Some?
    ensures Take(kdf, After(kdf, Take(kdf, c, g, retain, forward).value.next, gs, retain, forward), g, retain, forward)
      == None
  {
    hide ChainOk, Take, Open;
    var n := Take(kdf, c, g, retain, forward).value.next;
    TakeGives(kdf, first, c, g, retain, forward);
    TakeCloses(kdf, first, c, g, retain, forward, g);
    AfterOk(kdf, first, n, gs, retain, forward, g);
    TakeIff(kdf, After(kdf, n, gs, retain, forward), g, retain, forward);
  }

  /** Every request of the run is met. */
  ghost predicate AllTaken(kdf: Derivation, c: Chain, gs: seq<nat>, retain: int, forward: int)
    decreases |gs|
  {
    gs == [] ||
    (Take(kdf, c, gs[0], retain, forward).Some? &&
     AllTaken(kdf, Take(kdf, c, gs[0], retain, forward).value.next, gs[1..], retain, forward))
  }

  lemma {:induction false} TakeRoom(
      kdf: Derivation, first: seq<int>, c: Chain, g: nat, base: nat, retain: int, forward: int)
    requires ChainOk(kdf, first, c) && Take(kdf, c, g, retain, forward).Some? && |c.unused| + base <= c.generation
    ensures var n := Take(kdf, c, g, retain, forward).value.next; |n.unused| + base <= n.generation
  {
    hide SkipMany, ChainOk;
    if g >= c.generation {
      SkipManyOk(kdf, first, c, g - c.generation, retain);
      SkipManyOpen(kdf, first, c, g - c.generation, retain, g);
    }
  }

  /** Messages within the window, late and in any order, all get their keys. */
  lemma {:induction false} AnyOrder(
      kdf: Derivation, first: seq<int>, c: Chain, gs: seq<nat>, base: nat, retain: int, forward: int)
    requires ChainOk(kdf, first, c) && |c.unused| + base <= c.generation
    requires forall i, j | 0 <= i < j < |gs| :: gs[i] != gs[j]
    requires forall g | g in gs :: Open(c, g) && g - base <= retain && g - base <= forward
    ensures AllTaken(kdf, c, gs, retain, forward)
    decreases |gs|
  {
    hide ChainOk, Take, Open;
    if gs != [] {
      var g := gs[0];
      assert g in gs;
      TakeIff(kdf, c, g, retain, forward);
      var n := Take(kdf, c, g, retain, forward).value.next;
      TakeGives(kdf, first, c, g, retain, forward);
      TakeRoom(kdf, first, c, g, base, retain, forward);
      forall h | h in gs[1..] ensures Open(n, h) && h - base <= retain && h - base <= forward {
        var j :| 0 <= j < |gs[1..]| && gs[1..][j] == h;
        assert gs[j + 1] == h && h in gs;
        TakeCloses(kdf, first, c, g, retain, forward, h);
      }
      AnyOrder(kdf, first, n, gs[1..], base, retain, forward);
    }
  }

  // ---- on buffers ----

  function KeyBuffers(us: seq<Generation>): set<Buffer> {
    (set g | g in us :: g.key) + (set g | g in us :: g.nonce)
  }

  function Buffers(r: Ratchet): set<Buffer> {
    {r.secret} + KeyBuffers(r.unused)
  }

  ghost function BytesOf(us: seq<Generation>): (r: seq<Keys>)
    reads KeyBuffers(us)
    ensures |r| == |us|
    ensures forall i | 0 <= i < |us| :: r[i] == Keys(us[i].generation, us[i].key[..], us[i].nonce[..])
  {
    if us == [] then [] else
    KeyBuffersStep(us);
    [Keys(us[0].generation, us[0].key[..], us[0].nonce[..])] + BytesOf(us[1..])
  }

  lemma {:induction false} KeyBuffersStep(us: seq<Generation>)
    requires us != []
    ensures KeyBuffers(us[1..]) <= KeyBuffers(us) && us[0].key in KeyBuffers(us) && us[0].nonce in KeyBuffers(us)
  {
    assert us[0] in us;
    assert forall g | g in us[1..] :: g in us;
  }

  ghost function Bytes(r: Ratchet): Chain
    reads Buffers(r)
  {
    Chain(r.secret[..], r.generation, BytesOf(r.unused))
  }

  method Derive(kdf: Derivation, secret: Buffer, generation: nat, purpose: Purpose) returns (r: Buffer)
    ensures fresh(r) && r[..] == kdf(secret[..], generation, purpose)
  {
    var bytes := kdf(secret[..], generation, purpose);
    r := new int[|bytes|](i requires 0 <= i < |bytes| => bytes[i]);
  }

  lemma {:induction false} BytesAppend(us: seq<Generation>, g: Generation)
    ensures BytesOf(us + [g]) == BytesOf(us) + [Keys(g.generation, g.key[..], g.nonce[..])]
  {
    hide BytesOf;
    var all := us + [g];
    forall i | 0 <= i < |us| ensures BytesOf(all)[i] == BytesOf(us)[i] { assert all[i] == us[i]; }
  }

  lemma {:induction false} BytesWithin(us: seq<Generation>, from: nat, to: nat)
    requires from <= to <= |us|
    ensures BytesOf(us[from..to]) == BytesOf(us)[from..to] && KeyBuffers(us[from..to]) <= KeyBuffers(us)
  {
    hide BytesOf;
    var some := us[from..to];
    forall i | 0 <= i < |some| ensures BytesOf(some)[i] == BytesOf(us)[from + i] { assert some[i] == us[from + i]; }
    forall g | g in some ensures g in us {}
  }

  lemma {:induction false} BuffersAppend(us: seq<Generation>, g: Generation)
    ensures KeyBuffers(us + [g]) == KeyBuffers(us) + {g.key, g.nonce}
  {
    var all := us + [g];
    assert all[|us|] == g;
    forall u | u in us ensures u in all {}
    forall u | u in all ensures u in us || u == g {}
  }

  /** While none of the kept buffers is written, the bytes kept are the same. */
  twostate lemma SameBytes(us: seq<Generation>)
    requires forall g | g in us :: g.key[..] == old(g.key[..]) && g.nonce[..] == old(g.nonce[..])
    ensures BytesOf(us) == old(BytesOf(us))
  {
    hide BytesOf, KeyBuffers;
    forall i | 0 <= i < |us| ensures BytesOf(us)[i] == old(BytesOf(us))[i] { assert us[i] in us; }
  }

  /** updateUnusedGenerations: the keys of the generation stepped past are new buffers. */
  method UpdateUnused(kdf: Derivation, s: Ratchet, retain: int) returns (us: seq<Generation>)
    ensures BytesOf(us) == Retaining(kdf, Bytes(s), retain)
    ensures forall b | b in KeyBuffers(us) :: b in KeyBuffers(s.unused) || fresh(b)
  {
    hide BytesOf, KeyBuffers, NewestOf;
    if retain <= 0 {
      us := [];
      NoBuffers();
      return;
    }
    var key := Derive(kdf, s.secret, s.generation, ForKey);
    var nonce := Derive(kdf, s.secret, s.generation, ForNonce);
    assert BytesOf(s.unused) == old(BytesOf(s.unused)) by { SameBytes(s.unused); }
    var all := s.unused + [Generation(s.generation, key, nonce)];
    BytesAppend(s.unused, Generation(s.generation, key, nonce));
    BuffersAppend(s.unused, Generation(s.generation, key, nonce));
    label built:
    us := RemoveOld(all, retain);
    SameBytes@built(all);
    SameBytes@built(s.unused);
  }

  /** removeOldGenerations, where there is something to remove. */
  method RemoveOld(all: seq<Generation>, retain: nat) returns (us: seq<Generation>)
    ensures BytesOf(us) == NewestOf(BytesOf(all), retain) && KeyBuffers(us) <= KeyBuffers(all)
  {
    hide KeyBuffers, BytesOf;
    if |all| < retain { return all; }
    BytesWithin(all, |all| - retain, |all|);
    us := all[|all| - retain..|all|];
  }

  lemma {:induction false} NoBuffers()
    ensures KeyBuffers([]) == {} && BytesOf([]) == []
  {
  }

  method SkipOne(kdf: Derivation, r: Ratchet, retain: int) returns (step: Ratchet)
    ensures Bytes(step) == Skip(kdf, Bytes(r), retain)
    ensures fresh(step.secret) && step.secret !in KeyBuffers(step.unused)
    ensures forall b | b in KeyBuffers(step.unused) :: b in KeyBuffers(r.unused) || fresh(b)
  {
    hide BytesOf, Retaining;
    var unused := UpdateUnused(kdf, r, retain);
    label kept:
    var next := Derive(kdf, r.secret, r.generation, ForSecret);
    SameBytes@kept(unused);
    SameBytes@kept(r.unused);
    step := Ratchet(next, r.generation + 1, unused);
  }

  /** ratchetUntil: the chain secrets it derives on the way are wiped, the caller's
      is not, and none that is returned. */
  method RatchetUntil(kdf: Derivation, current: Ratchet, steps: nat, retain: int) returns (r: Ratchet)
    ensures Bytes(r) == SkipMany(kdf, Bytes(current), steps, retain)
    ensures forall b | b in Buffers(r) :: b in Buffers(current) || fresh(b)
    ensures if steps == 0 then r == current else fresh(r.secret) && r.secret !in KeyBuffers(r.unused)
  {
    hide BytesOf, Skip;
    r := current;
    ghost var was := Bytes(current);
    for i := 0 to steps
      invariant Bytes(r) == SkipMany(kdf, was, i, retain)
      invariant forall b | b in Buffers(r) :: b in Buffers(current) || fresh(b)
      invariant if i == 0 then r == current else fresh(r.secret) && r.secret !in KeyBuffers(r.unused)
    {
      label top:
      var step := SkipOne(kdf, r, retain);
      SameBytes@top(r.unused);
      label stepped:
      if i > 0 { Fill(r.secret); }
      SameBytes@stepped(step.unused);
      r := step;
    }
    SameBytes(current.unused);
  }

  datatype Result = Result(key: Buffer, nonce: Buffer, next: Ratchet)

  /** createRatchetResult: wipes the chain secret it was given only if it owns it. */
  method ConsumeRatchet(kdf: Derivation, at: Ratchet, own: bool) returns (r: Result)
    requires own ==> at.secret !in KeyBuffers(at.unused)
    modifies if own then {at.secret} else {}
    ensures old(Consume(kdf, Bytes(at))) == Taken(Keys(at.generation, r.key[..], r.nonce[..]), Bytes(r.next))
    ensures fresh(r.key) && fresh(r.nonce) && fresh(r.next.secret) && r.next.unused == at.unused
    ensures r.key !in Buffers(r.next) && r.nonce !in Buffers(r.next)
  {
    hide BytesOf;
    var next := Derive(kdf, at.secret, at.generation, ForSecret);
    var key := Derive(kdf, at.secret, at.generation, ForKey);
    var nonce := Derive(kdf, at.secret, at.generation, ForNonce);
    if own { Fill(at.secret); }
    SameBytes(at.unused);
    r := Result(key, nonce, Ratchet(next, at.generation + 1, at.unused));
  }

  method Copied(b: Buffer) returns (c: Buffer)
    ensures fresh(c) && c[..] == b[..]
  {
    var bytes := b[..];
    c := new int[|bytes|](j requires 0 <= j < |bytes| => bytes[j]);
  }

  lemma {:induction false} BytesWithout(us: seq<Generation>, i: nat)
    requires i < |us|
    ensures BytesOf(us[..i] + us[i + 1..]) == BytesOf(us)[..i] + BytesOf(us)[i + 1..]
    ensures KeyBuffers(us[..i] + us[i + 1..]) <= KeyBuffers(us)
  {
    hide BytesOf;
    var rest := us[..i] + us[i + 1..];
    forall j | 0 <= j < |rest| ensures BytesOf(rest)[j] == BytesOf(us)[if j < i then j else j + 1] {
      assert rest[j] == us[if j < i then j else j + 1];
    }
    forall u | u in rest ensures u in us {}
  }

  lemma {:induction false} SkipManyGeneration(kdf: Derivation, c: Chain, steps: nat, retain: int)
    ensures SkipMany(kdf, c, steps, retain).generation == c.generation + steps
  {
    hide Retaining;
    if steps > 0 { SkipManyGeneration(kdf, c, steps - 1, retain); }
  }

  method FindUnused(us: seq<Generation>, g: nat) returns (i: Option<nat>)
    ensures i == FindKeys(BytesOf(us), g)
  {
    var k := 0;
    while k < |us|
      invariant 0 <= k <= |us|
      invariant forall j | 0 <= j < k :: us[j].generation != g
    {
      if us[k].generation == g {
        FindKeysAt(BytesOf(us), g, k);
        return Some(k);
      }
      k := k + 1;
    }
    FoundIff(BytesOf(us), g);
    return None;
  }

  lemma {:induction false} FindKeysAt(us: seq<Keys>, g: nat, k: nat)
    requires k < |us| && us[k].generation == g && forall j | 0 <= j < k :: us[j].generation != g
    ensures FindKeys(us, g) == Some(k)
    decreases k
  {
    if k > 0 { FindKeysAt(us[1..], g, k - 1); }
  }

  /** The keys kept of an earlier generation, as copies. */
  method TakeKept(ratchet: Ratchet, i: nat) returns (r: Result)
    requires i < |ratchet.unused|
    ensures BytesOf(ratchet.unused)[i] == Keys(ratchet.unused[i].generation, r.key[..], r.nonce[..])
    ensures r.next.secret == ratchet.secret && r.next.generation == ratchet.generation
    ensures BytesOf(r.next.unused) == BytesOf(ratchet.unused)[..i] + BytesOf(ratchet.unused)[i + 1..]
    ensures fresh(r.key) && fresh(r.nonce) && r.key !in Buffers(r.next) && r.nonce !in Buffers(r.next)
    ensures forall b | b in Buffers(r.next) :: b in Buffers(ratchet)
  {
    hide BytesOf;
    var kept := ratchet.unused[i];
    var key := Copied(kept.key);
    var nonce := Copied(kept.nonce);
    BytesWithout(ratchet.unused, i);
    r := Result(key, nonce, ratchet.(unused := ratchet.unused[..i] + ratchet.unused[i + 1..]));
  }

  /** A generation not yet reached. */
  method TakeAhead(kdf: Derivation, ratchet: Ratchet, steps: nat, retain: int) returns (r: Result)
    ensures Consume(kdf, SkipMany(kdf, Bytes(ratchet), steps, retain))
      == Taken(Keys(ratchet.generation + steps, r.key[..], r.nonce[..]), Bytes(r.next))
    ensures fresh(r.key) && fresh(r.nonce) && r.key !in Buffers(r.next) && r.nonce !in Buffers(r.next)
    ensures forall b | b in Buffers(r.next) :: b in Buffers(ratchet) || fresh(b)
  {
    hide BytesOf, SkipMany;
    var at := RatchetUntil(kdf, ratchet, steps, retain);
    SameBytes(ratchet.unused);
    label reached:
    assert at.generation == ratchet.generation + steps by { SkipManyGeneration(kdf, Bytes(ratchet), steps, retain); }
    r := ConsumeRatchet(kdf, at, steps > 0);
    SameBytes@reached(ratchet.unused);
  }

  /** ratchetToGeneration. The keys handed out are the caller's own to wipe: no
      ratchet holds their buffers. */
  method RatchetToGeneration(kdf: Derivation, ratchet: Ratchet, g: nat, retain: int, forward: int)
      returns (r: Option<Result>)
    ensures r.Some? <==> Take(kdf, Bytes(ratchet), g, retain, forward).Some?
    ensures r.Some? ==>
      && Take(kdf, Bytes(ratchet), g, retain, forward).value
         == Taken(Keys(g, r.value.key[..], r.value.nonce[..]), Bytes(r.value.next))
      && fresh(r.value.key) && fresh(r.value.nonce)
      && r.value.key !in Buffers(r.value.next) && r.value.nonce !in Buffers(r.value.next)
      && forall b | b in Buffers(r.value.next) :: b in Buffers(ratchet) || fresh(b)
  {
    hide BytesOf, KeyBuffers, Buffers, SkipMany, Consume;
    if g < ratchet.generation {
      var found := FindUnused(ratchet.unused, g);
      if found.None? { return None; }
      label found:
      var kept := TakeKept(ratchet, found.value);
      SameBytes@found(ratchet.unused);
      return Some(kept);
    }
    if g - ratchet.generation > forward { return None; }
    var ahead := TakeAhead(kdf, ratchet, g - ratchet.generation, retain);
    return Some(ahead);
  }

  // ---- and so over a run ----

  lemma {:induction false} OfGenerationsIs(us: seq<Generation>, b: Buffer)
    ensures b in OfGenerations(us) <==> b in KeyBuffers(us) && b.Length > 0
  {
    if us != [] {
      OfGenerationsIs(us[1..], b);
      BuffersFirst(us);
    } else {
      NoBuffers();
    }
  }

  lemma {:induction false} BuffersFirst(us: seq<Generation>)
    requires us != []
    ensures KeyBuffers(us) == {us[0].key, us[0].nonce} + KeyBuffers(us[1..])
  {
    forall g | g in us ensures g == us[0] || g in us[1..] {}
    forall g | g in us[1..] ensures g in us {}
    assert us[0] in us;
  }

  lemma {:induction false} OfRatchetIs(r: Ratchet, b: Buffer)
    ensures b in OfRatchet(r) <==> b in Buffers(r) && b.Length > 0
  {
    hide KeyBuffers;
    OfGenerationsIs(r.unused, b);
  }

  function OfNode(n: LeafRatchets): set<Buffer> {
    if n.NoRatchets? then {} else OfRatchet(n.application) + OfRatchet(n.handshake)
  }

  lemma {:induction false} OfTreeAt(t: seq<LeafRatchets>, x: nat, n: LeafRatchets)
    requires x < |t|
    ensures OfNode(t[x]) <= OfTree(t) && OfTree(t[x := n]) <= OfTree(t) + OfNode(n)
  {
    hide OfRatchet;
    var u := t[x := n];
    if x > 0 {
      OfTreeAt(t[1..], x - 1, n);
      assert u[1..] == t[1..][x - 1 := n];
    } else {
      assert u[1..] == t[1..];
    }
  }

  /** Deciphering one message changes one ratchet of one leaf. */
  function Deciphered(h: Held, x: nat, application: bool, next: Ratchet): Held
    requires x < |h.secretTree| && h.secretTree[x].LeafRatchets?
  {
    var node := h.secretTree[x];
    h.(secretTree := h.secretTree[x := if application then node.(application := next) else node.(handshake := next)])
  }

  function RatchetAt(h: Held, x: nat, application: bool): Ratchet
    requires x < |h.secretTree| && h.secretTree[x].LeafRatchets?
  {
    if application then h.secretTree[x].application else h.secretTree[x].handshake
  }

  lemma {:induction false} DecipheredHolds(h: Held, x: nat, application: bool, next: Ratchet, b: Buffer)
    requires x < |h.secretTree| && h.secretTree[x].LeafRatchets?
    requires b in Secrets(Deciphered(h, x, application, next)) && b !in Secrets(h)
    ensures b in Buffers(next) && b !in Buffers(RatchetAt(h, x, application))
  {
    hide Many, OfTree, OfUpdates, OfHistory, OfRatchet, Buffers;
    var n := Deciphered(h, x, application, next);
    OfTreeAt(h.secretTree, x, n.secretTree[x]);
    OfRatchetIs(next, b);
    OfRatchetIs(RatchetAt(h, x, application), b);
  }

  lemma {:induction false} RunExtends(held: seq<set<Buffer>>, now: set<Buffer>)
    requires OperationsAllocate(held) && held != []
    requires forall i, b | 0 <= i < |held| && b in now && b in held[i] :: b in held[|held| - 1]
    ensures OperationsAllocate(held + [now])
  {
    var all := held + [now];
    forall i, j | 0 <= i <= j && j + 1 < |all| ensures all[i] * all[j + 1] <= all[j] {
      if j + 1 < |held| { assert held[i] * held[j + 1] <= held[j]; }
    }
  }

  /** A message deciphered in the last state of a run extends the run as
      `OperationsAllocate` asks: what the new state holds, an earlier one held
      only if the last did. */
  method Decipher(
      kdf: Derivation, states: seq<Held>, ghost held: seq<set<Buffer>>, x: nat, application: bool, g: nat, retain: int,
      forward: int) returns (r: Option<Result>, after: Held)
    requires states != [] && |held| == |states| && OperationsAllocate(held)
    requires forall i | 0 <= i < |states| :: held[i] == Secrets(states[i])
    requires x < |states[|states| - 1].secretTree| && states[|states| - 1].secretTree[x].LeafRatchets?
    ensures var last := states[|states| - 1];
      && (r.Some? <==> Take(kdf, Bytes(RatchetAt(last, x, application)), g, retain, forward).Some?)
      && after == if r.Some? then Deciphered(last, x, application, r.value.next) else last
    ensures OperationsAllocate(held + [Secrets(after)])
  {
    hide Secrets, Take, Bytes, Buffers, OperationsAllocate;
    var last := states[|states| - 1];
    r := RatchetToGeneration(kdf, RatchetAt(last, x, application), g, retain, forward);
    after := if r.Some? then Deciphered(last, x, application, r.value.next) else last;
    ghost var now := Secrets(after);
    forall i, b | 0 <= i < |held| && b in now && b in held[i] ensures b in held[|held| - 1] {
      if b !in Secrets(last) { DecipheredHolds(last, x, application, r.value.next, b); }
    }
    RunExtends(held, now);
  }
}

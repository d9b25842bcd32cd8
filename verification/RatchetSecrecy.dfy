/** What the message ratchet of src/secret-tree.ts keeps from whoever sees part of
    it. Deriving is one-way: from a value one gets what is derived from it, for
    any generation and purpose, and nothing else. */
module RatchetSecrecy {
  import opened Options
  import opened Ratchets

  /** Different inputs, different outputs. */
  ghost predicate Injective(kdf: Derivation) {
    forall s, g, p, t, h, q :: kdf(s, g, p) == kdf(t, h, q) ==> s == t && g == h && p == q
  }

  /** The first chain secret comes from elsewhere: no step of this ratchet gives it. */
  ghost predicate Outside(kdf: Derivation, first: seq<int>) {
    forall s, g, p :: kdf(s, g, p) != first
  }

  datatype Step = Step(generation: nat, purpose: Purpose)

  function Derived(kdf: Derivation, x: seq<int>, steps: seq<Step>): seq<int> {
    if steps == [] then x else
    var n := |steps| - 1;
    kdf(Derived(kdf, x, steps[..n]), steps[n].generation, steps[n].purpose)
  }

  /** `y` can be derived from one of the `known`. */
  ghost predicate Learnable(kdf: Derivation, known: iset<seq<int>>, y: seq<int>) {
    exists x, steps :: x in known && Derived(kdf, x, steps) == y
  }

  // ---- what is derived differently differs ----

  /** The steps to the `n`th chain secret. */
  function ChainSteps(n: nat): seq<Step> {
    seq(n, i requires 0 <= i < n => Step(i, ForSecret))
  }

  lemma {:induction false} SecretSteps(kdf: Derivation, first: seq<int>, n: nat)
    ensures SecretAt(kdf, first, n) == Derived(kdf, first, ChainSteps(n))
  {
    if n > 0 {
      SecretSteps(kdf, first, n - 1);
      assert ChainSteps(n)[..n - 1] == ChainSteps(n - 1);
    }
  }

  function KeySteps(n: nat, purpose: Purpose): seq<Step> {
    ChainSteps(n) + [Step(n, purpose)]
  }

  lemma {:induction false} KeyFrom(kdf: Derivation, first: seq<int>, n: nat, purpose: Purpose)
    ensures kdf(SecretAt(kdf, first, n), n, purpose) == Derived(kdf, first, KeySteps(n, purpose))
  {
    SecretSteps(kdf, first, n);
    assert KeySteps(n, purpose)[..n] == ChainSteps(n);
  }

  /** One value, one derivation. */
  lemma {:induction false} StepsUnique(kdf: Derivation, first: seq<int>, a: seq<Step>, b: seq<Step>)
    requires Injective(kdf) && Outside(kdf, first) && Derived(kdf, first, a) == Derived(kdf, first, b)
    ensures a == b
    decreases |a|
  {
    if a != [] && b != [] {
      var m, n := |a| - 1, |b| - 1;
      StepsUnique(kdf, first, a[..m], b[..n]);
      assert a == a[..m] + [a[m]];
      assert b == b[..n] + [b[n]];
    }
  }

  lemma {:induction false} StepsJoin(kdf: Derivation, x: seq<int>, a: seq<Step>, b: seq<Step>)
    ensures Derived(kdf, Derived(kdf, x, a), b) == Derived(kdf, x, a + b)
    decreases |b|
  {
    if b == [] {
      assert a + b == a;
    } else {
      var n := |b| - 1;
      StepsJoin(kdf, x, a, b[..n]);
      assert (a + b)[..|a| + n] == a + b[..n];
    }
  }

  lemma {:induction false} StepsCut(kdf: Derivation, x: seq<int>, a: seq<Step>, k: nat)
    requires k <= |a|
    ensures Derived(kdf, Derived(kdf, x, a[..k]), a[k..]) == Derived(kdf, x, a)
  {
    StepsJoin(kdf, x, a[..k], a[k..]);
    assert a[..k] + a[k..] == a;
  }

  /** The ratchet with this first secret derives all of `known`. */
  ghost predicate AllDerived(kdf: Derivation, first: seq<int>, known: iset<seq<int>>) {
    forall x | x in known :: IsDerived(kdf, first, x)
  }

  ghost predicate IsDerived(kdf: Derivation, first: seq<int>, x: seq<int>) {
    exists steps :: Derived(kdf, first, steps) == x
  }

  /** Of what the ratchet derives, just that is learnt of which some stage on the way is known. */
  lemma {:induction false} LearnableIff(kdf: Derivation, first: seq<int>, known: iset<seq<int>>, a: seq<Step>)
    requires Injective(kdf) && Outside(kdf, first)
    requires AllDerived(kdf, first, known)
    ensures Learnable(kdf, known, Derived(kdf, first, a))
      <==> exists k :: 0 <= k <= |a| && Derived(kdf, first, a[..k]) in known
  {
    hide Injective, Outside, Derived;
    if x, steps :| x in known && Derived(kdf, x, steps) == Derived(kdf, first, a) {
      var s :| Derived(kdf, first, s) == x;
      StepsJoin(kdf, first, s, steps);
      StepsUnique(kdf, first, s + steps, a);
      assert a[..|s|] == s;
    }
    if k :| 0 <= k <= |a| && Derived(kdf, first, a[..k]) in known { StepsCut(kdf, first, a, k); }
  }

  // ---- keys, nonces and chain secrets ----

  function KeyAt(kdf: Derivation, first: seq<int>, n: nat): seq<int> {
    kdf(SecretAt(kdf, first, n), n, ForKey)
  }

  function NonceAt(kdf: Derivation, first: seq<int>, n: nat): seq<int> {
    kdf(SecretAt(kdf, first, n), n, ForNonce)
  }

  /** No key is a nonce or a chain secret, and no two generations share one. The
      first chain secret is unlike the keys if the ratchet does not derive it. */
  lemma {:induction false} KeysApart(kdf: Derivation, first: seq<int>, n: nat, m: nat)
    requires Injective(kdf)
    ensures KeyAt(kdf, first, n) != NonceAt(kdf, first, m)
    ensures n != m ==> KeyAt(kdf, first, n) != KeyAt(kdf, first, m) && NonceAt(kdf, first, n) != NonceAt(kdf, first, m)
    ensures m > 0 || Outside(kdf, first) ==>
      KeyAt(kdf, first, n) != SecretAt(kdf, first, m) && NonceAt(kdf, first, n) != SecretAt(kdf, first, m)
    ensures n != m && ((n > 0 && m > 0) || Outside(kdf, first)) ==>
      SecretAt(kdf, first, n) != SecretAt(kdf, first, m)
  {
  }

  /** One generation's key and nonce tell nothing else: no chain secret, and no
      other generation's key or nonce. */
  lemma {:induction false} KeysTellNothing(kdf: Derivation, first: seq<int>, n: nat, m: nat)
    requires Injective(kdf) && Outside(kdf, first)
    ensures var known := iset{KeyAt(kdf, first, n), NonceAt(kdf, first, n)};
      && !Learnable(kdf, known, SecretAt(kdf, first, m))
      && (Learnable(kdf, known, KeyAt(kdf, first, m)) <==> m == n)
      && (Learnable(kdf, known, NonceAt(kdf, first, m)) <==> m == n)
  {
    hide Injective, Outside, Derived, Learnable, SecretAt, KeySteps;
    var known := iset{KeyAt(kdf, first, n), NonceAt(kdf, first, n)};
    KeyFrom(kdf, first, n, ForKey);
    KeyFrom(kdf, first, n, ForNonce);
    ChainLearnt(kdf, first, known, m);
    forall k: nat ensures SecretAt(kdf, first, k) !in known { KeysApart(kdf, first, n, k); }
    KeyLearnt(kdf, first, known, m, ForKey);
    KeyLearnt(kdf, first, known, m, ForNonce);
    KeysApart(kdf, first, n, m);
    KeysApart(kdf, first, m, n);
  }

  lemma {:induction false} ChainLearnt(kdf: Derivation, first: seq<int>, known: iset<seq<int>>, m: nat)
    requires Injective(kdf) && Outside(kdf, first)
    requires AllDerived(kdf, first, known)
    ensures Learnable(kdf, known, SecretAt(kdf, first, m))
      <==> exists k: nat :: k <= m && SecretAt(kdf, first, k) in known
  {
    hide Injective, Outside, Derived, Learnable, SecretAt;
    SecretSteps(kdf, first, m);
    LearnableIff(kdf, first, known, ChainSteps(m));
    forall k: nat | k <= m ensures SecretAt(kdf, first, k) == Derived(kdf, first, ChainSteps(m)[..k]) {
      SecretSteps(kdf, first, k);
      assert ChainSteps(m)[..k] == ChainSteps(k);
    }
    if k :| 0 <= k <= m && Derived(kdf, first, ChainSteps(m)[..k]) in known {
      assert SecretAt(kdf, first, k as nat) in known;
    }
  }

  lemma {:induction false} KeyLearnt(
      kdf: Derivation, first: seq<int>, known: iset<seq<int>>, m: nat, purpose: Purpose)
    requires Injective(kdf) && Outside(kdf, first)
    requires AllDerived(kdf, first, known)
    ensures Learnable(kdf, known, kdf(SecretAt(kdf, first, m), m, purpose)) <==>
      || kdf(SecretAt(kdf, first, m), m, purpose) in known
      || exists k: nat :: k <= m && SecretAt(kdf, first, k) in known
  {
    hide Injective, Outside, Derived, Learnable, SecretAt;
    var steps := KeySteps(m, purpose);
    KeyFrom(kdf, first, m, purpose);
    LearnableIff(kdf, first, known, steps);
    forall k: nat | k <= m ensures SecretAt(kdf, first, k) == Derived(kdf, first, steps[..k]) {
      SecretSteps(kdf, first, k);
      assert steps[..k] == ChainSteps(k);
    }
    assert steps[..m + 1] == steps;
    if k :| 0 <= k <= m + 1 && Derived(kdf, first, steps[..k]) in known {
      if k <= m { assert SecretAt(kdf, first, k as nat) in known; }
    }
  }

  // ---- what a chain gives away ----

  /** All a chain holds: its secret, and the keys and nonces kept. */
  ghost function Holdings(c: Chain): iset<seq<int>> {
    iset x: seq<int> | Holds(c, x)
  }

  ghost predicate Holds(c: Chain, x: seq<int>) {
    x == c.secret || exists i :: 0 <= i < |c.unused| && (x == c.unused[i].key || x == c.unused[i].nonce)
  }

  lemma {:induction false} HoldingsDerived(kdf: Derivation, first: seq<int>, c: Chain)
    requires ChainOk(kdf, first, c)
    ensures AllDerived(kdf, first, Holdings(c))
  {
    hide Derived, SecretAt;
    forall x | x in Holdings(c) ensures IsDerived(kdf, first, x) {
      SecretSteps(kdf, first, c.generation);
      if x != c.secret {
        var i :| 0 <= i < |c.unused| && (x == c.unused[i].key || x == c.unused[i].nonce);
        KeyFrom(kdf, first, c.unused[i].generation, ForKey);
        KeyFrom(kdf, first, c.unused[i].generation, ForNonce);
      }
    }
  }

  lemma {:induction false} Held(kdf: Derivation, first: seq<int>, c: Chain, m: nat)
    requires Injective(kdf) && Outside(kdf, first) && ChainOk(kdf, first, c)
    ensures SecretAt(kdf, first, m) in Holdings(c) <==> m == c.generation
    ensures KeyAt(kdf, first, m) in Holdings(c) <==> FindKeys(c.unused, m).Some?
    ensures NonceAt(kdf, first, m) in Holdings(c) <==> FindKeys(c.unused, m).Some?
  {
    hide Injective, Outside, SecretAt;
    FoundIff(c.unused, m);
    KeysApart(kdf, first, m, c.generation);
    forall i | 0 <= i < |c.unused|
      ensures c.unused[i].key == KeyAt(kdf, first, c.unused[i].generation)
      ensures c.unused[i].nonce == NonceAt(kdf, first, c.unused[i].generation)
      ensures c.unused[i].key == KeyAt(kdf, first, m) <==> c.unused[i].generation == m
      ensures c.unused[i].nonce == NonceAt(kdf, first, m) <==> c.unused[i].generation == m
      ensures c.unused[i].key != NonceAt(kdf, first, m) && c.unused[i].nonce != KeyAt(kdf, first, m)
      ensures c.unused[i].key != SecretAt(kdf, first, m) && c.unused[i].nonce != SecretAt(kdf, first, m)
    {
      KeysApart(kdf, first, c.unused[i].generation, m);
      KeysApart(kdf, first, m, c.unused[i].generation);
    }
  }

  /** A chain gives away the keys of the generations it can still open, and no
      others; and of the chain secrets those from its own on. */
  lemma {:induction false} ChainGives(kdf: Derivation, first: seq<int>, c: Chain, m: nat)
    requires Injective(kdf) && Outside(kdf, first) && ChainOk(kdf, first, c)
    ensures Learnable(kdf, Holdings(c), KeyAt(kdf, first, m)) <==> Open(c, m)
    ensures Learnable(kdf, Holdings(c), NonceAt(kdf, first, m)) <==> Open(c, m)
    ensures Learnable(kdf, Holdings(c), SecretAt(kdf, first, m)) <==> c.generation <= m
  {
    hide Injective, Outside, ChainOk, Derived, Learnable, SecretAt, Holdings, FindKeys, AllDerived;
    HoldingsDerived(kdf, first, c);
    forall k: nat ensures SecretAt(kdf, first, k) in Holdings(c) <==> k == c.generation { Held(kdf, first, c, k); }
    ChainLearnt(kdf, first, Holdings(c), m);
    KeyLearnt(kdf, first, Holdings(c), m, ForKey);
    KeyLearnt(kdf, first, Holdings(c), m, ForNonce);
    Held(kdf, first, c, m);
    Held(kdf, first, c, c.generation);
  }

  /** Once taken, a generation's key and nonce cannot be had from the chain again,
      by any derivation, after any further requests; nor does the chain ever hold
      a secret equal to one of them. */
  lemma {:induction false} TakenStaysSecret(
      kdf: Derivation, first: seq<int>, c: Chain, g: nat, gs: seq<nat>, retain: int, forward: int)
    requires Injective(kdf) && Outside(kdf, first)
    requires ChainOk(kdf, first, c) && Take(kdf, c, g, retain, forward).Some?
    ensures var r := Take(kdf, c, g, retain, forward).value;
      && r.keys.key != r.keys.nonce && r.keys.key != c.secret && r.keys.nonce != c.secret
      && !Learnable(kdf, Holdings(After(kdf, r.next, gs, retain, forward)), r.keys.key)
      && !Learnable(kdf, Holdings(After(kdf, r.next, gs, retain, forward)), r.keys.nonce)
  {
    var n := Take(kdf, c, g, retain, forward).value.next;
    TakeGives(kdf, first, c, g, retain, forward);
    TakeCloses(kdf, first, c, g, retain, forward, g);
    KeysApart(kdf, first, g, g);
    assert c.secret == SecretAt(kdf, first, c.generation);
    hide Injective, Outside, ChainOk, Take, Open, Learnable, SecretAt, Holdings;
    KeysApart(kdf, first, g, c.generation);
    AfterOk(kdf, first, n, gs, retain, forward, g);
    ChainGives(kdf, first, After(kdf, n, gs, retain, forward), g);
  }
}

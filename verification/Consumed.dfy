/** The secret buffers an operation drops (src/consumed.ts): what is handed back
    to be wiped, and that wiping it never touches a live state. */
module Consumed {

  /** A byte buffer; two buffers with equal bytes are still two buffers. */
  type Buffer = array<int>

  datatype Generation = Generation(generation: nat, key: Buffer, nonce: Buffer)

  /** `unused` is in the order of the generations. */
  datatype Ratchet = Ratchet(secret: Buffer, generation: nat, unused: seq<Generation>)

  datatype LeafRatchets = LeafRatchets(handshake: Ratchet, application: Ratchet) | NoRatchets

  datatype PendingUpdate = PendingUpdate(hpke: Buffer, signature: seq<Buffer>)

  datatype RetainedEpoch = RetainedEpoch(resumption: Buffer, senderData: Buffer, secretTree: seq<LeafRatchets>)

  /** The buffers of a ClientState, field by field; a signature key that is not a
      buffer is an empty list. */
  datatype Held = Held(
    schedule: seq<Buffer>,
    secretTree: seq<LeafRatchets>,
    privateKeys: seq<Buffer>,
    pendingUpdates: seq<PendingUpdate>,
    signatureKey: seq<Buffer>,
    history: seq<RetainedEpoch>)

  // ---- every secret buffer a state references ----

  /** An empty buffer holds no secret. */
  function One(b: Buffer): set<Buffer> {
    if b.Length > 0 then {b} else {}
  }

  function Many(bs: seq<Buffer>): set<Buffer> {
    if bs == [] then {} else One(bs[0]) + Many(bs[1..])
  }

  function OfGenerations(gs: seq<Generation>): set<Buffer> {
    if gs == [] then {} else One(gs[0].key) + One(gs[0].nonce) + OfGenerations(gs[1..])
  }

  function OfRatchet(r: Ratchet): set<Buffer> {
    One(r.secret) + OfGenerations(r.unused)
  }

  function OfTree(t: seq<LeafRatchets>): set<Buffer> {
    if t == [] then {} else
    (if t[0].NoRatchets? then {} else OfRatchet(t[0].application) + OfRatchet(t[0].handshake)) + OfTree(t[1..])
  }

  function OfUpdates(us: seq<PendingUpdate>): set<Buffer> {
    if us == [] then {} else One(us[0].hpke) + Many(us[0].signature) + OfUpdates(us[1..])
  }

  function OfHistory(es: seq<RetainedEpoch>): set<Buffer> {
    if es == [] then {} else
    One(es[0].resumption) + One(es[0].senderData) + OfTree(es[0].secretTree) + OfHistory(es[1..])
  }

  function Secrets(h: Held): set<Buffer> {
    Many(h.schedule) + OfTree(h.secretTree) + Many(h.privateKeys) + OfUpdates(h.pendingUpdates)
      + Many(h.signatureKey) + OfHistory(h.history)
  }

  // ---- the walk that collects them ----

  lemma {:induction false} Next<T>(s: seq<T>, i: nat)
    requires i < |s|
    ensures s[i..][0] == s[i] && s[i..][1..] == s[i + 1..]
  {
  }

  method AddBuffers(out: set<Buffer>, bs: seq<Buffer>) returns (r: set<Buffer>)
    ensures r == out + Many(bs)
  {
    r := out;
    for i := 0 to |bs|
      invariant r + Many(bs[i..]) == out + Many(bs)
    {
      Next(bs, i);
      if bs[i].Length > 0 { r := r + {bs[i]}; }
    }
  }

  method AddRatchet(out: set<Buffer>, ratchet: Ratchet) returns (r: set<Buffer>)
    ensures r == out + OfRatchet(ratchet)
  {
    r := out + One(ratchet.secret);
    for i := 0 to |ratchet.unused|
      invariant r + OfGenerations(ratchet.unused[i..]) == out + OfRatchet(ratchet)
    {
      Next(ratchet.unused, i);
      r := r + One(ratchet.unused[i].key);
      r := r + One(ratchet.unused[i].nonce);
    }
  }

  method AddSecretTree(out: set<Buffer>, tree: seq<LeafRatchets>) returns (r: set<Buffer>)
    ensures r == out + OfTree(tree)
  {
    r := out;
    for i := 0 to |tree|
      invariant r + OfTree(tree[i..]) == out + OfTree(tree)
    {
      Next(tree, i);
      if !tree[i].NoRatchets? {
        ghost var before := r;
        r := AddRatchet(r, tree[i].application);
        r := AddRatchet(r, tree[i].handshake);
        assert r == before + (OfRatchet(tree[i].application) + OfRatchet(tree[i].handshake));
      }
    }
  }

  method StateSecrets(h: Held) returns (r: set<Buffer>)
    ensures r == Secrets(h)
  {
    r := AddBuffers({}, h.schedule);
    r := AddSecretTree(r, h.secretTree);
    r := AddBuffers(r, h.privateKeys);
    ghost var before := r;
    for i := 0 to |h.pendingUpdates|
      invariant r + OfUpdates(h.pendingUpdates[i..]) == before + OfUpdates(h.pendingUpdates)
    {
      Next(h.pendingUpdates, i);
      r := r + One(h.pendingUpdates[i].hpke);
      r := AddBuffers(r, h.pendingUpdates[i].signature);
    }
    r := AddBuffers(r, h.signatureKey);
    before := r;
    for i := 0 to |h.history|
      invariant r + OfHistory(h.history[i..]) == before + OfHistory(h.history)
    {
      Next(h.history, i);
      r := r + One(h.history[i].resumption) + One(h.history[i].senderData);
      r := AddSecretTree(r, h.history[i].secretTree);
    }
  }

  ghost predicate NoRepeats(bs: seq<Buffer>) {
    forall i, j | 0 <= i < j < |bs| :: bs[i] != bs[j]
  }

  /** consumedSecrets: each buffer `before` holds and `after` does not, once. */
  method ConsumedSecrets(before: Held, after: Held) returns (list: seq<Buffer>)
    ensures NoRepeats(list)
    ensures (set b | b in list) == Secrets(before) - Secrets(after)
  {
    if before == after { return []; }
    var kept := StateSecrets(after);
    var left := StateSecrets(before);
    list := [];
    ghost var done: set<Buffer> := {};
    while left != {}
      invariant done !! left && done + left == Secrets(before)
      invariant NoRepeats(list)
      invariant forall b :: b in list <==> b in done && b !in kept
      decreases left
    {
      var b :| b in left;
      if b !in kept { list := list + [b]; }
      left, done := left - {b}, done + {b};
    }
  }

  // ---- wiping ----

  ghost predicate Wiped(b: Buffer)
    reads b
  {
    forall i | 0 <= i < b.Length :: b[i] == 0
  }

  method Fill(b: Buffer)
    modifies b
    ensures Wiped(b)
  {
    for i := 0 to b.Length
      invariant forall k | 0 <= k < i :: b[k] == 0
    {
      b[i] := 0;
    }
  }

  method WipeAll(list: seq<Buffer>)
    modifies set b | b in list
    ensures forall b | b in list :: Wiped(b)
  {
    for i := 0 to |list|
      invariant forall k | 0 <= k < i :: Wiped(list[k])
    {
      Fill(list[i]);
      assert Wiped(list[i]);
    }
  }

  // ---- over a run ----

  /** Once `after` is kept, what it dropped is wiped. */
  method Retire(before: Held, after: Held, ghost dropped: set<Buffer>)
    requires dropped == Secrets(before) - Secrets(after)
    modifies dropped
    ensures AllWiped(dropped)
  {
    hide Secrets;
    var list := ConsumedSecrets(before, after);
    forall b | b in list ensures b in dropped {}
    WipeAll(list);
    forall b | b in dropped ensures b in list {}
  }

  ghost predicate AllWiped(bs: set<Buffer>)
    reads bs
  {
    forall b | b in bs :: Wiped(b)
  }

  /** `held[i]` is what the `i`th state of a run holds. Each operation's new state
      holds buffers of the state before it or newly allocated ones, which no
      earlier state can have held. */
  ghost predicate OperationsAllocate(held: seq<set<Buffer>>) {
    forall i, j | 0 <= i <= j && j + 1 < |held| :: held[i] * held[j + 1] <= held[j]
  }

  /** `b` is on the list operation `k` hands back. */
  predicate DroppedAt(held: seq<set<Buffer>>, k: nat, b: Buffer) {
    k + 1 < |held| && b in held[k] && b !in held[k + 1]
  }

  ghost predicate EverHeld(held: seq<set<Buffer>>, n: nat, b: Buffer)
    requires n <= |held|
  {
    exists i :: 0 <= i < n && b in held[i]
  }

  /** A dropped buffer stays dropped. */
  lemma {:induction false} StaysDropped(held: seq<set<Buffer>>, k: nat, j: nat, b: Buffer)
    requires OperationsAllocate(held) && k + 1 <= j < |held| && DroppedAt(held, k, b)
    ensures b !in held[j]
    decreases j
  {
    if j > k + 1 {
      var m := j - 1;
      StaysDropped(held, k, m, b);
      assert held[k] * held[m + 1] <= held[m];
    }
  }

  /** Every buffer a run ever held and no longer holds was handed back, once. */
  lemma {:induction false} DroppedOnce(held: seq<set<Buffer>>, n: nat, b: Buffer)
    requires OperationsAllocate(held) && n < |held| && EverHeld(held, n + 1, b) && b !in held[n]
    ensures exists k :: 0 <= k < n && DroppedAt(held, k, b)
    ensures forall k, m | 0 <= k < n && 0 <= m < n && DroppedAt(held, k, b) && DroppedAt(held, m, b) :: k == m
    decreases n
  {
    var last := n - 1;
    if b in held[last] {
      assert DroppedAt(held, last, b);
    } else {
      DroppedOnce(held, last, b);
      var k :| 0 <= k < last && DroppedAt(held, k, b);
    }
    forall k, m | 0 <= k < n && 0 <= m < n && DroppedAt(held, k, b) && DroppedAt(held, m, b) ensures k == m {
      if k < m { StaysDropped(held, k, m, b); }
      if m < k { StaysDropped(held, m, k, b); }
    }
  }

  /** What a later state holds was not dropped on the way there. */
  lemma {:induction false} HeldNotDropped(held: seq<set<Buffer>>, n: nat, j: nat)
    requires OperationsAllocate(held) && n + 1 <= j < |held|
    ensures held[j] !! (held[n] - held[n + 1])
  {
    forall b | b in held[j] ensures b !in held[n] - held[n + 1] {
      if DroppedAt(held, n, b) { StaysDropped(held, n, j, b); }
    }
  }

  /** What was dropped before a step is not dropped by it. */
  lemma {:induction false} DroppedBefore(held: seq<set<Buffer>>, i: nat, n: nat)
    requires OperationsAllocate(held) && i <= n && n + 1 < |held|
    ensures held[i] - held[n + 1] <= (held[i] - held[n]) + (held[n] - held[n + 1])
    ensures (held[i] - held[n]) !! (held[n] - held[n + 1])
  {
  }

  /** Wiping every list a run hands back leaves the bytes of its last state as
      they were, and everything else it ever held wiped. */
  method WipeAlong(states: seq<Held>, ghost held: seq<set<Buffer>>)
    requires states != [] && |held| == |states| && OperationsAllocate(held)
    requires forall i | 0 <= i < |states| :: held[i] == Secrets(states[i])
    modifies set i, b | 0 <= i < |held| && b in held[i] :: b
    ensures forall b | b in held[|held| - 1] :: b[..] == old(b[..])
    ensures forall i | 0 <= i < |held| :: AllWiped(held[i] - held[|held| - 1])
  {
    hide Secrets, Wiped;
    var n := 0;
    while n + 1 < |states|
      invariant n < |states|
      invariant forall i | 0 <= i <= n :: AllWiped(held[i] - held[n])
      invariant forall j, b | n <= j < |held| && b in held[j] :: b[..] == old(b[..])
    {
      ghost var dropped := held[n] - held[n + 1];
      forall j | n + 1 <= j < |held| ensures held[j] !! dropped { HeldNotDropped(held, n, j); }
      assert dropped <= held[n];
      label before:
      Retire(states[n], states[n + 1], dropped);
      forall i | 0 <= i <= n + 1 ensures AllWiped(held[i] - held[n + 1]) {
        if i <= n {
          DroppedBefore(held, i, n);
          assert old@before(AllWiped(held[i] - held[n]));
          assert AllWiped(held[i] - held[n]);
        }
      }
      n := n + 1;
    }
  }
}

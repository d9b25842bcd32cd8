/** How many keys of its own pending Updates a client keeps (src/pending-update-keys.ts
    with src/unapplied-proposals.ts). */
module UpdateKeys {
  import opened Options
  import opened Terms
  import opened TreeMath
  import opened RatchetTree
  import opened UpdatePaths
  import opened LeafValidation
  import opened ClientStates
  import opened FilterPending
  import opened Commits
  import opened Messages
  import opened Lifecycle

  predicate Listed(pending: seq<Pending>, r: Ref) {
    exists p :: p in pending && p.ref == r
  }

  /** Every key belongs to a proposal that is still pending. */
  ghost predicate KeysListed(st: ClientState) {
    forall r | r in st.updateKeys :: Listed(st.pending, r)
  }

  function RefSet(pending: seq<Pending>): (s: set<Ref>)
    ensures |s| <= |pending|
    ensures forall r :: r in s <==> Listed(pending, r)
  {
    if pending == [] then {} else
    assert pending == [pending[0]] + pending[1..];
    {pending[0].ref} + RefSet(pending[1..])
  }

  lemma {:induction false} FewerIn(s: set<Ref>, t: set<Ref>)
    requires s <= t
    ensures |s| <= |t|
  {
    if s != {} {
      var r :| r in s;
      FewerIn(s - {r}, t - {r});
    }
  }

  /** Then there are no more keys than pending proposals. */
  lemma {:induction false} KeysWithin(st: ClientState)
    requires KeysListed(st)
    ensures |st.updateKeys| <= |st.pending|
  {
    FewerIn(st.updateKeys.Keys, RefSet(st.pending));
  }

  lemma {:induction false} AddLists(pending: seq<Pending>, p: Pending, r: Ref)
    requires r == p.ref || Listed(pending, r)
    ensures Listed(AddPending(pending, p), r)
    decreases |pending|
  {
    if pending != [] && pending[0].ref != p.ref {
      assert pending == [pending[0]] + pending[1..];
      if r == p.ref || Listed(pending[1..], r) { AddLists(pending[1..], p, r); }
    }
    assert AddPending(pending, p) != [];
  }

  /** The keys left without a pending proposal. */
  function Orphans(st: ClientState): set<Ref> {
    set r | r in st.updateKeys && !Listed(st.pending, r)
  }

  lemma {:induction false} StoringOrphans(st: ClientState, n: ClientState, p: Pending)
    requires n.pending == AddPending(st.pending, p)
    requires forall r | r in n.updateKeys :: r in st.updateKeys || r == p.ref
    ensures Orphans(n) <= Orphans(st)
  {
    forall r | r in Orphans(n) ensures r in Orphans(st) {
      if r == p.ref || Listed(st.pending, r) { AddLists(st.pending, p, r); }
    }
  }

  lemma {:induction false} ReceiveOrphans(env: Env, st: ClientState, m: Incoming, accept: bool)
    requires StateOk(st) && Receive(env, st, m, accept).Ok?
    ensures Orphans(Receive(env, st, m, accept).value) <= Orphans(st)
  {
    hide ProcessCommit, OnReceipt, Listed, Valid;
    assert Valid(st.tree);
    var stepped := if m.wireformat.PublicWire? then st else st.(secretTree := Stepped(st.secretTree));
    if m.wireformat.PrivateWire? && m.epoch < st.context.epoch {
    } else if m.body.Committed? {
      CommitStep(env, stepped, m.body.message, accept);
    } else if m.body.Proposed? && accept {
      var p := Pending(Ref(st.context.epoch, m.body.id), m.body.item);
      StoringOrphans(stepped, ProcessProposal(env, stepped, m.body.item, m.body.id).value, p);
    }
  }

  lemma {:induction false} DiscardOrphans(st: ClientState, ref: Ref)
    ensures Orphans(DiscardPending(st, ref)) == Orphans(st) + (if ref in st.updateKeys then {ref} else {})
  {
    var n := DiscardPending(st, ref);
    forall r | r in st.updateKeys && r != ref ensures Listed(n.pending, r) <==> Listed(st.pending, r) {
      if Listed(st.pending, r) {
        var p :| p in st.pending && p.ref == r;
        assert p in n.pending;
      }
    }
  }

  /** One step leaves no key behind, except that discarding the pending proposal
      of one of the client's own Updates leaves that Update's key. */
  lemma {:induction false} OrphansStep(env: Env, st: ClientState, i: Input)
    requires StateOk(st)
    ensures i.Discards? ==>
      Orphans(Next(env, st, i)) == Orphans(st) + (if i.ref in st.updateKeys then {i.ref} else {})
    ensures !i.Discards? ==> Orphans(Next(env, st, i)) <= Orphans(st)
    ensures Advances(env, st, i) ==> Orphans(Next(env, st, i)) == {}
  {
    hide Receive, CreateCommit, OnReceipt, UpdatedLeaf, SendError, Listed, NextRetained, Valid;
    assert Valid(st.tree) by { OkValid(st); }
    match i
    case Receives(m, accept) =>
      if Receive(env, st, m, accept).Ok? {
        ReceiveOrphans(env, st, m, accept);
        AdvanceDropsKeys(env, st, i);
      }
    case Proposes(wire, p, id) =>
      var n := SendProposal(env, st, wire, p, id);
      if n.Ok? { StoringOrphans(st, n.value, Pending(Ref(st.context.epoch, id), OwnItemOf(st, p))); }
    case ProposesUpdate(wire, hpke, patch, id) =>
      var n := CreateUpdate(env, st, wire, hpke, patch, id);
      if n.Ok? {
        var leaf := UpdatedLeaf(st, LeafAt(st.tree, st.privatePath.leaf).value, hpke, patch);
        StoringOrphans(st, n.value, Pending(Ref(st.context.epoch, id), OwnItemOf(st, Update(leaf))));
      }
    case Commits(o, seed) => AdvanceDropsKeys(env, st, i);
    case SendsApplication =>
    case Discards(ref) => DiscardOrphans(st, ref);
  }

  /** A new epoch starts with no keys. */
  lemma {:induction false} AdvanceDropsKeys(env: Env, st: ClientState, i: Input)
    requires StateOk(st)
    ensures Valid(st.tree) && (Advances(env, st, i) ==> Next(env, st, i).updateKeys == map[])
  {
    hide Next, Advances, NextRetained;
    OkValid(st);
    NextStep(env, st, i);
  }

  lemma {:induction false} ListedIffNoOrphans(st: ClientState)
    ensures KeysListed(st) <==> Orphans(st) == {}
  {
    if !KeysListed(st) {
      var r :| r in st.updateKeys && !Listed(st.pending, r);
      assert r in Orphans(st);
    }
    if r :| r in Orphans(st) { assert !KeysListed(st); }
  }

  /** One step keeps each key's proposal pending, unless it discards the pending
      proposal of one of the client's own Updates: that leaves the key. */
  lemma {:induction false} KeysListedIff(env: Env, st: ClientState, i: Input)
    requires StateOk(st) && KeysListed(st)
    ensures KeysListed(Next(env, st, i)) <==> !(i.Discards? && i.ref in st.updateKeys)
  {
    hide Next, Valid, KeysListed, Orphans;
    assert Valid(st.tree) by { OkValid(st); }
    OrphansStep(env, st, i);
    ListedIffNoOrphans(st);
    ListedIffNoOrphans(Next(env, st, i));
  }

  /** No step of the run discards a proposal one of the client's keys is for. */
  ghost predicate KeepsOwnUpdates(env: Env, st: ClientState, inputs: seq<Input>)
    requires StateOk(st)
    decreases |inputs|
  {
    inputs == [] ||
    (NextStep(env, st, inputs[0]);
     && !(inputs[0].Discards? && inputs[0].ref in st.updateKeys)
     && KeepsOwnUpdates(env, Next(env, st, inputs[0]), inputs[1..]))
  }

  /** Over such a run the keys stay within the limit on pending proposals. */
  lemma {:induction false} RunKeepsKeysWithin(env: Env, st: ClientState, inputs: seq<Input>)
    requires StateOk(st) && KeysListed(st) && KeepsOwnUpdates(env, st, inputs)
    ensures var n := Run(env, st, inputs);
      KeysListed(n) && |n.updateKeys| <= |n.pending| && (n.maxPending > 0 ==> |n.updateKeys| <= n.maxPending)
    decreases |inputs|
  {
    hide Next, Valid;
    if inputs == [] {
      KeysWithin(st);
    } else {
      NextStep(env, st, inputs[0]);
      KeysListedIff(env, st, inputs[0]);
      RunKeepsKeysWithin(env, Next(env, st, inputs[0]), inputs[1..]);
    }
  }

  function DroppedNow(st: ClientState, i: Input): nat {
    if i.Discards? && i.ref in st.updateKeys then 1 else 0
  }

  /** How many of its own pending Updates the client has discarded since its
      epoch last advanced, `n` of them before the run. */
  ghost function Dropped(env: Env, st: ClientState, inputs: seq<Input>, n: nat): nat
    requires StateOk(st)
    decreases |inputs|
  {
    if inputs == [] then n else
    NextStep(env, st, inputs[0]);
    Dropped(
      env, Next(env, st, inputs[0]), inputs[1..],
      if Advances(env, st, inputs[0]) then 0 else n + DroppedNow(st, inputs[0]))
  }

  lemma {:induction false} KeysCount(st: ClientState)
    ensures |st.updateKeys| <= |st.pending| + |Orphans(st)|
  {
    FewerIn(st.updateKeys.Keys, RefSet(st.pending) + Orphans(st));
    assert |st.updateKeys| == |st.updateKeys.Keys|;
  }

  lemma {:induction false} OrphansCount(env: Env, st: ClientState, i: Input)
    requires StateOk(st)
    ensures Valid(st.tree)
    ensures |Orphans(Next(env, st, i))| <= if Advances(env, st, i) then 0 else |Orphans(st)| + DroppedNow(st, i)
  {
    hide Next, Advances, Orphans, StateOk, Valid;
    OkValid(st);
    OrphansStep(env, st, i);
    if !Advances(env, st, i) {
      FewerIn(Orphans(Next(env, st, i)), Orphans(st) + (if i.Discards? && i.ref in st.updateKeys then {i.ref} else {}));
    }
  }

  /** Over any run a client holds no more keys than pending proposals and Updates
      of its own it discarded in this epoch. */
  lemma {:induction false} RunKeysBound(env: Env, st: ClientState, inputs: seq<Input>, n: nat)
    requires StateOk(st) && |Orphans(st)| <= n
    ensures var m := Run(env, st, inputs);
      |Orphans(m)| <= Dropped(env, st, inputs, n) && |m.updateKeys| <= |m.pending| + Dropped(env, st, inputs, n)
    decreases |inputs|
  {
    hide Next, Advances, Orphans, StateOk, Valid, DroppedNow, Moves;
    OkValid(st);
    KeysCount(st);
    if inputs != [] {
      NextStep(env, st, inputs[0]);
      OrphansCount(env, st, inputs[0]);
      RunKeysBound(
        env, Next(env, st, inputs[0]), inputs[1..],
        if Advances(env, st, inputs[0]) then 0 else n + DroppedNow(st, inputs[0]));
    }
  }

  // ---- the bound is reached ----

  /** An Update proposed and its proposal discarded, `k` times over. */
  function ProposeAndDiscard(epoch: nat, hpke: Secret, patch: LeafPatch, k: nat): seq<Input> {
    if k == 0 then [] else
    ProposeAndDiscard(epoch, hpke, patch, k - 1)
      + [ProposesUpdate(true, hpke, patch, k - 1), Discards(Ref(epoch, k - 1))]
  }

  lemma {:induction false} RunAppend(env: Env, st: ClientState, a: seq<Input>, b: seq<Input>)
    requires StateOk(st)
    ensures StateOk(Run(env, st, a)) && Run(env, st, a + b) == Run(env, Run(env, st, a), b)
    decreases |a|
  {
    hide StateOk, Next, Valid;
    OkValid(st);
    RunKeeps(env, st, a);
    if a == [] {
      assert a + b == b;
    } else {
      assert (a + b)[1..] == a[1..] + b;
      NextStep(env, st, a[0]);
      RunAppend(env, Next(env, st, a[0]), a[1..], b);
    }
  }

  /** One round leaves everything as it was, and one key more. */
  lemma {:induction false} OneRound(env: Env, st: ClientState, n: ClientState, hpke: Secret, patch: LeafPatch, id: nat)
    requires StateOk(n) && n == st.(updateKeys := n.updateKeys) && st.pending == []
    requires Valid(st.tree) && CreateUpdate(env, st, true, hpke, patch, 0).Ok?
    ensures var r := Ref(st.context.epoch, id);
      Run(env, n, [ProposesUpdate(true, hpke, patch, id), Discards(r)])
        == n.(updateKeys := n.updateKeys[r := PendingKey(hpke, patch.signature)])
  {
    hide OnReceipt, UpdatedLeaf, StateOk, Receive, CreateCommit, Advances, Moves, LeafAt, Valid;
    var r, key := Ref(st.context.epoch, id), PendingKey(hpke, patch.signature);
    var first: Input, last := ProposesUpdate(true, hpke, patch, id), Discards(r);
    NextStep(env, n, first);
    var m := Next(env, n, first);
    assert UpdatedLeaf(n, LeafAt(n.tree, n.privatePath.leaf).value, hpke, patch)
      == UpdatedLeaf(st, LeafAt(st.tree, st.privatePath.leaf).value, hpke, patch) by {
      SameUpdatedLeaf(st, n, hpke, patch);
    }
    var leaf := UpdatedLeaf(n, LeafAt(n.tree, n.privatePath.leaf).value, hpke, patch);
    assert m.pending == [Pending(r, OwnItemOf(n, Update(leaf)))];
    assert m.updateKeys == n.updateKeys[r := key];
    assert Without(m.pending, r) == [];
    assert [first, last][1..] == [last] && [last][1..] == [];
    NextStep(env, m, last);
    assert Run(env, m, [last]) == Next(env, m, last);
  }

  lemma {:induction false} SameUpdatedLeaf(st: ClientState, n: ClientState, hpke: Secret, patch: LeafPatch)
    requires n == st.(updateKeys := n.updateKeys) && LeafAt(st.tree, st.privatePath.leaf).Some?
    ensures UpdatedLeaf(n, LeafAt(n.tree, n.privatePath.leaf).value, hpke, patch)
      == UpdatedLeaf(st, LeafAt(st.tree, st.privatePath.leaf).value, hpke, patch)
  {
  }

  /** So the limit on pending proposals is none on keys: a client that can propose
      one Update can come to hold any number of keys, with nothing pending. */
  lemma {:induction false} KeysUnbounded(env: Env, st: ClientState, hpke: Secret, patch: LeafPatch, k: nat)
    requires StateOk(st) && st.pending == [] && st.updateKeys == map[]
    requires CreateUpdate(env, st, true, hpke, patch, 0).Ok?
    ensures var n := Run(env, st, ProposeAndDiscard(st.context.epoch, hpke, patch, k));
      n == st.(updateKeys := n.updateKeys) && |n.updateKeys| == k
      && forall r | r in n.updateKeys :: r.epoch == st.context.epoch && r.id < k
  {
    hide StateOk, Next, CreateUpdate, Valid;
    if k > 0 {
      OkValid(st);
      KeysUnbounded(env, st, hpke, patch, k - 1);
      var before, r := ProposeAndDiscard(st.context.epoch, hpke, patch, k - 1), Ref(st.context.epoch, k - 1);
      RunAppend(env, st, before, [ProposesUpdate(true, hpke, patch, k - 1), Discards(r)]);
      var n := Run(env, st, before);
      OneRound(env, st, n, hpke, patch, k - 1);
      assert r !in n.updateKeys;
      var more := n.updateKeys[r := PendingKey(hpke, patch.signature)];
      assert more.Keys == n.updateKeys.Keys + {r};
      assert |more| == |more.Keys| && |n.updateKeys| == |n.updateKeys.Keys|;
    }
  }
}

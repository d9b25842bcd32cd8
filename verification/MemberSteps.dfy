/** What a member's sending, receiving and discarding of proposals leaves as it
    was: its keys, and the private half of every pending Update of its own. */
module MemberSteps {
  import opened Options
  import opened Terms
  import opened TreeMath
  import opened RatchetTree
  import opened UpdatePaths
  import opened ClientStates
  import opened PrivateKeys
  import opened Proposals
  import opened Commits
  import opened Messages
  import opened Agreement
  import opened Convergence

  lemma {:induction false} FindAdded(ps: seq<Pending>, p: Pending, r: Ref)
    ensures FindPending(AddPending(ps, p), r) == if r == p.ref then Some(p.item) else FindPending(ps, r)
  {
    if ps != [] && ps[0].ref != p.ref {
      FindAdded(ps[1..], p, r);
      assert AddPending(ps, p)[1..] == AddPending(ps[1..], p);
    }
    if ps != [] && ps[0].ref == p.ref { assert AddPending(ps, p)[1..] == ps[1..]; }
  }

  lemma {:induction false} FindWithout(ps: seq<Pending>, ref: Ref, r: Ref)
    ensures FindPending(Without(ps, ref), r) == if r == ref then None else FindPending(ps, r)
  {
    if ps != [] {
      FindWithout(ps[1..], ref, r);
      var rest := Without(ps[1..], ref);
      if ps[0].ref == ref {
        assert [] + rest == rest;
      } else {
        assert ([ps[0]] + rest)[0] == ps[0] && ([ps[0]] + rest)[1..] == rest;
      }
    }
  }

  lemma {:induction false} StoringKeeps(st: ClientState, n: ClientState, ref: Ref, item: ProposalWithSender)
    requires MemberOk(st) && n == WithPending(st, ref, item).(secretTree := n.secretTree)
    requires item.leaf.Some? ==> HasLeaf(st.tree, item.leaf.value)
    requires !OwnItem(st, item) && ref !in st.updateKeys
    ensures MemberOk(n)
  {
    hide Exact, Signs;
    forall r: Ref { FindAdded(st.pending, Pending(ref, item), r); }
  }

  lemma {:induction false} OwnUpdateOf(st: ClientState, leaf: LeafNode, key: PendingKey)
    requires leaf.hpkeKey == Pub(key.hpke) && leaf.sigKey == Pub(OrElse(key.signature, st.signKey))
    ensures OwnUpdate(st, OwnItemOf(st, Update(leaf)), key)
  {
  }

  lemma {:induction false} SameOwnUpdate(st: ClientState, n: ClientState, p: ProposalWithSender, key: PendingKey)
    requires n.privatePath == st.privatePath && n.signKey == st.signKey
    ensures OwnUpdate(st, p, key) <==> OwnUpdate(n, p, key)
  {
  }

  lemma {:induction false} StoringUpdateKeeps(
      st: ClientState, n: ClientState, ref: Ref, leaf: LeafNode, key: PendingKey)
    requires MemberOk(st) && leaf.hpkeKey == Pub(key.hpke) && leaf.sigKey == Pub(OrElse(key.signature, st.signKey))
    requires n == WithPending(st, ref, OwnItemOf(st, Update(leaf))).(
      secretTree := n.secretTree, updateKeys := st.updateKeys[ref := key])
    ensures MemberOk(n)
  {
    hide Signs, Exact, OwnUpdate;
    MemberHasLeaf(st);
    assert OwnUpdate(st, OwnItemOf(st, Update(leaf)), key) by { OwnUpdateOf(st, leaf, key); }
    forall p: ProposalWithSender, k: PendingKey ensures OwnUpdate(st, p, k) <==> OwnUpdate(n, p, k) {
      SameOwnUpdate(st, n, p, k);
    }
    forall r: Ref { FindAdded(st.pending, Pending(ref, OwnItemOf(st, Update(leaf))), r); }
  }

  lemma {:induction false} DiscardKeeps(st: ClientState, ref: Ref)
    requires MemberOk(st)
    ensures MemberOk(DiscardPending(st, ref))
  {
    hide Exact, Signs;
    forall r: Ref { FindWithout(st.pending, ref, r); }
  }

  /** The message ratchets and the retained epochs play no part. */
  lemma {:induction false} SteppingKeeps(st: ClientState, n: ClientState)
    requires MemberOk(st) && n == st.(secretTree := n.secretTree, history := n.history)
    ensures MemberOk(n)
  {
    hide Exact, Signs;
  }
}

/** The two ends of a commit see the same proposals: what the committer applies
    is what every member it does not remove applies. */
module Agreement {
  import opened Options
  import opened Terms
  import opened TreeMath
  import opened RatchetTree
  import opened ParentHashes
  import opened UpdatePaths
  import opened LeafValidation
  import opened ClientStates
  import opened PrivateKeys
  import opened KeyOwnership
  import opened Proposals
  import opened Membership
  import opened Commits

  /** What members of one epoch share. */
  ghost predicate SameEpoch(a: ClientState, b: ClientState) {
    a.context == b.context && a.schedule == b.schedule && a.tree == b.tree && a.tag == b.tag
  }

  /** A reference both have pending is one proposal to both. Each may lack
      proposals of the other's: refused, discarded, or past its limit. */
  ghost predicate SameProposals(a: ClientState, b: ClientState) {
    forall r: Ref | FindPending(a.pending, r).Some? && FindPending(b.pending, r).Some? ::
      FindPending(a.pending, r) == FindPending(b.pending, r)
  }

  /** Every proposal the commit references is pending. */
  ghost predicate Holds(b: ClientState, props: seq<ProposalOrRef>) {
    forall r: Ref | ByReference(r) in props :: FindPending(b.pending, r).Some?
  }

  /** What the commit references, `b` has as `a` has it. */
  ghost predicate Knows(b: ClientState, a: ClientState, props: seq<ProposalOrRef>) {
    forall r: Ref | ByReference(r) in props :: FindPending(b.pending, r) == FindPending(a.pending, r)
  }

  // ---- the proposals resolve alike ----

  lemma {:induction false} ResolveAgrees(
      a: ClientState, b: ClientState, props: seq<ProposalOrRef>, committer: Option<nat>, sender: SenderType)
    requires Knows(b, a, props) && Resolve(props, a.pending, committer, sender).Ok?
    ensures Resolve(props, b.pending, committer, sender) == Resolve(props, a.pending, committer, sender)
  {
    if props != [] {
      assert props == [props[0]] + props[1..];
      ResolveAgrees(a, b, props[1..], committer, sender);
    }
  }

  /** A reference to nothing pending stops the commit; any other commit resolves. */
  lemma {:induction false} ResolvesIff(
      b: ClientState, props: seq<ProposalOrRef>, committer: Option<nat>, sender: SenderType)
    ensures Resolve(props, b.pending, committer, sender).Ok? <==> Holds(b, props)
  {
    if props != [] {
      assert props == [props[0]] + props[1..];
      ResolvesIff(b, props[1..], committer, sender);
    }
  }

  lemma {:induction false} HoldsKnows(a: ClientState, b: ClientState, props: seq<ProposalOrRef>)
    requires SameProposals(a, b) && Holds(a, props) && Holds(b, props)
    ensures Knows(b, a, props)
  {
  }

  /** Where a resolved proposal comes from. */
  ghost predicate ComesFrom(p: ProposalWithSender, q: ProposalOrRef, pending: seq<Pending>, committer: Option<nat>) {
    match q
    case ByValue(v) => p.proposal == v && p.leaf == committer
    case ByReference(r) => FindPending(pending, r) == Some(p)
  }

  lemma {:induction false} ResolveAt(
      props: seq<ProposalOrRef>, pending: seq<Pending>, committer: Option<nat>, sender: SenderType)
    requires Resolve(props, pending, committer, sender).Ok?
    ensures var all := Resolve(props, pending, committer, sender).value;
      |all| == |props| && forall i | 0 <= i < |props| :: ComesFrom(all[i], props[i], pending, committer)
    decreases |props|
  {
    if props != [] {
      ResolveAt(props[1..], pending, committer, sender);
      var all := Resolve(props, pending, committer, sender).value;
      var rest := Resolve(props[1..], pending, committer, sender).value;
      forall i | 0 <= i < |props| ensures ComesFrom(all[i], props[i], pending, committer) {
        if i > 0 { assert all[i] == rest[i - 1] && props[i] == props[1..][i - 1]; }
      }
    }
  }

  // ---- grouping loses nothing ----

  lemma {:induction false} GroupedUpdates(all: seq<ProposalWithSender>, u: UpdateBy)
    ensures u in Group(all).updates <==> exists p | p in all :: p.proposal == Update(u.leaf) && p.leaf == u.sender
  {
    if all != [] {
      var n := |all| - 1;
      var front, p := all[..n], all[n];
      assert all == front + [p];
      GroupedUpdates(front, u);
      if p.proposal == Update(u.leaf) && p.leaf == u.sender { assert p in all; }
      if q :| q in front && q.proposal == Update(u.leaf) && q.leaf == u.sender { assert q in all; }
    }
  }

  // ---- a member's own Update ----

  /** Each pending Update key opens the leaf of the pending Update it is kept
      for, and each pending Update of this member has one. */
  ghost predicate UpdateKeysOk(st: ClientState) {
    && (forall r: Ref | r in st.updateKeys && FindPending(st.pending, r).Some? ::
          OwnUpdate(st, FindPending(st.pending, r).value, st.updateKeys[r]))
    && (forall r: Ref | FindPending(st.pending, r).Some? && OwnItem(st, FindPending(st.pending, r).value) ::
      r in st.updateKeys)
  }

  predicate OwnItem(st: ClientState, p: ProposalWithSender) {
    p.proposal.Update? && p.leaf == Some(st.privatePath.leaf)
  }

  predicate OwnUpdate(st: ClientState, p: ProposalWithSender, key: PendingKey) {
    && OwnItem(st, p)
    && p.proposal.leaf.hpkeKey == Pub(key.hpke)
    && p.proposal.leaf.sigKey == Pub(OrElse(key.signature, st.signKey))
  }

  lemma {:induction false} AppliedKeyFrom(keys: map<Ref, PendingKey>, props: seq<ProposalOrRef>)
    ensures var k := AppliedUpdateKey(keys, props);
      (k.Some? ==> exists r: Ref :: ByReference(r) in props && r in keys && k.value == keys[r])
      && (k.None? ==> forall r: Ref | ByReference(r) in props :: r !in keys)
    decreases |props|
  {
    if props != [] {
      AppliedKeyFrom(keys, props[1..]);
      if props[0].ByReference? && props[0].ref in keys { assert ByReference(props[0].ref) in props; }
      var k := AppliedUpdateKey(keys, props);
      if k.Some? && !(props[0].ByReference? && props[0].ref in keys) {
        var r: Ref :| ByReference(r) in props[1..] && r in keys && k.value == keys[r];
        assert ByReference(r) in props;
      }
    }
  }

  lemma {:induction false} UpdateForIs(g: Grouped, u: UpdateBy, l: nat)
    requires OneChangePerLeaf(g) && u in g.updates && u.sender == Some(l)
    ensures UpdateFor(g.updates, l) == Some(u.leaf)
  {
    var f := UpdateFor(g.updates, l);
    var i :| 0 <= i < |g.updates| && g.updates[i] == u;
    var j :| 0 <= j < |g.updates| && g.updates[j] == UpdateBy(Some(l), f.value);
  }

  /** The commit's Update of this member's leaf and the key the member looks up for it. */
  ghost predicate KeyForUpdate(st: ClientState, u: Option<LeafNode>, key: Option<PendingKey>) {
    && (u.Some? <==> key.Some?)
    && (u.Some? ==> u.value.hpkeKey == Pub(key.value.hpke))
    && (u.Some? ==> u.value.sigKey == Pub(OrElse(key.value.signature, st.signKey)))
  }

  /** The key a member finds for its own Update in a commit is the private half
      of the leaf that Update puts in the tree; it finds one exactly when there is one. */
  lemma {:induction false} OwnUpdateKey(
      st: ClientState, props: seq<ProposalOrRef>, committer: Option<nat>, sender: SenderType)
    requires UpdateKeysOk(st) && committer != Some(st.privatePath.leaf)
    requires Resolve(props, st.pending, committer, sender).Ok?
    requires OneChangePerLeaf(Group(Resolve(props, st.pending, committer, sender).value))
    ensures KeyForUpdate(
      st, UpdateFor(Group(Resolve(props, st.pending, committer, sender).value).updates, st.privatePath.leaf),
      AppliedUpdateKey(st.updateKeys, props))
  {
    hide Resolve, AppliedUpdateKey, Group;
    var all := Resolve(props, st.pending, committer, sender).value;
    var g, l, key := Group(all), st.privatePath.leaf, AppliedUpdateKey(st.updateKeys, props);
    ResolveAt(props, st.pending, committer, sender);
    AppliedKeyFrom(st.updateKeys, props);
    if key.Some? {
      var r: Ref :| ByReference(r) in props && r in st.updateKeys && key.value == st.updateKeys[r];
      var i :| 0 <= i < |props| && props[i] == ByReference(r);
      assert ComesFrom(all[i], props[i], st.pending, committer);
      assert OwnUpdate(st, all[i], key.value);
      var u := UpdateBy(Some(l), all[i].proposal.leaf);
      GroupedUpdates(all, u);
      UpdateForIs(g, u, l);
    }
    if UpdateFor(g.updates, l).Some? {
      var u := UpdateBy(Some(l), UpdateFor(g.updates, l).value);
      GroupedUpdates(all, u);
      var p :| p in all && p.proposal == Update(u.leaf) && p.leaf == u.sender;
      var i :| 0 <= i < |all| && all[i] == p;
      assert ComesFrom(all[i], props[i], st.pending, committer);
      assert ByReference(props[i].ref) in props;
    }
  }

  // ---- the proposals apply alike ----

  lemma {:induction false} AddsAgree(env: Env, t: Tree, adds: seq<KeyPackage>, gc: GroupContext)
    requires Valid(t) && FoldAdds(env, t, adds, gc, true).Ok?
    ensures FoldAdds(env, t, adds, gc, false) == FoldAdds(env, t, adds, gc, true)
    decreases |adds|
  {
    if adds != [] {
      AddLeafAt(t, adds[0].leaf);
      AddsAgree(env, AddLeaf(t, adds[0].leaf).0, adds[1..], gc);
    }
  }

  /** What leaf `l`'s member gets where the committer got `applied`. */
  function SeenBy(applied: Applied, l: nat): Applied {
    applied.(selfRemoved := applied.kind.MemberCommit? && At(applied.tree, 2 * l).None?)
  }

  lemma {:induction false} AppliedAgrees(
      env: Env, a: ClientState, b: ClientState, props: seq<ProposalOrRef>, s: nat, newLeaf: Option<LeafNode>)
    requires SameEpoch(a, b) && Knows(b, a, props) && Valid(a.tree)
    requires ApplyProposals(env, a, props, Some(s), true, None, MemberType).Ok?
    ensures ApplyProposals(env, b, props, Some(s), false, newLeaf, MemberType)
      == Ok(SeenBy(ApplyProposals(env, a, props, Some(s), true, None, MemberType).value, b.privatePath.leaf))
  {
    ResolveAgrees(a, b, props, Some(s), MemberType);
    var all := Resolve(props, a.pending, Some(s), MemberType).value;
    var g := Group(all);
    if g.reinits == [] {
      var gc := ContextAfter(a.context, g);
      FoldUpdatesValid(env, a.tree, a.tree, g.updates, gc);
      var u := FoldUpdates(env, a.tree, a.tree, g.updates, gc).value;
      FoldRemovesValid(a.tree, u, g.removes);
      AddsAgree(env, FoldRemoves(a.tree, u, g.removes).value, g.adds, gc);
    }
  }
}

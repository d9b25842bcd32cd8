/** What a commit's Updates, Removes and Adds do to the membership and to the
    rules every honest tree keeps. */
module Membership {
  import opened Options
  import opened Terms
  import opened TreeMath
  import opened RatchetTree
  import opened LeafValidation
  import opened ClientStates
  import opened PrivateKeys
  import opened UnmergedLeaves
  import opened KeyOwnership
  import opened ParentHashKept
  import opened Proposals

  /** The shape of the tree and the rules its leaves keep. */
  ghost predicate GoodTree(t: Tree) {
    TreeOk(t) && LeavesOk(t) && HashesLinked(t)
  }

  /** Leaf `l` is as before or replaced by the Update that names it. */
  ghost predicate UpdatedBy(t: Tree, u: Tree, updates: seq<UpdateBy>, l: nat) {
    LeafAt(u, l) == if UpdateFor(updates, l).Some? then UpdateFor(updates, l) else LeafAt(t, l)
  }

  ghost predicate SendersDistinct(updates: seq<UpdateBy>) {
    forall i, j | 0 <= i < j < |updates| :: updates[i].sender != updates[j].sender
  }

  ghost predicate SendersPresent(t: Tree, updates: seq<UpdateBy>) {
    forall u | u in updates && u.sender.Some? :: HasLeaf(t, u.sender.value)
  }

  // ---- one step of each fold ----

  lemma {:induction false} UpdateStepRules(env: Env, t: Tree, leaf: LeafNode, l: nat, gc: GroupContext)
    requires GoodTree(t) && 2 * l < |t| && UpdateOrCommitOk(env, leaf, l, gc, t, LeafCredential(t, l))
    requires leaf.source.FromUpdate?
    ensures GoodTree(UpdateLeaf(t, leaf, l))
  {
    UpdateKeepsHashes(t, leaf, l);
    UpdateKeepsTree(t, leaf, l);
    UpdateStepLeaves(env, t, leaf, l, gc);
  }

  lemma {:induction false} UpdateStepLeaves(env: Env, t: Tree, leaf: LeafNode, l: nat, gc: GroupContext)
    requires Valid(t) && LeavesOk(t) && 2 * l < |t| && UpdateOrCommitOk(env, leaf, l, gc, t, LeafCredential(t, l))
    ensures LeavesOk(UpdateLeaf(t, leaf, l))
  {
    UpdateLeafAt(t, leaf, l);
    var u := UpdateLeaf(t, leaf, l);
    assert At(u, 2 * l) == BlankedAt(t, l, Some(Leaf(leaf)), 2 * l);
    CheckedLeafKeeps(env, leaf, gc, t, u, 2 * l, Some(l), LeafCredential(t, l));
  }

  lemma {:induction false} UpdateStep(t: Tree, leaf: LeafNode, l: nat)
    requires Valid(t) && HasLeaf(t, l)
    ensures var u := UpdateLeaf(t, leaf, l);
      Valid(u) && (forall m: nat :: HasLeaf(u, m) <==> HasLeaf(t, m))
      && (forall m: nat | HasLeaf(t, m) ::
        Survives(t, u, m) && LeafAt(u, m) == if m == l then Some(leaf) else LeafAt(t, m))
  {
    UpdateLeafAt(t, leaf, l);
    var u := UpdateLeaf(t, leaf, l);
    forall m: nat ensures At(u, 2 * m) == if m == l then Some(Leaf(leaf)) else At(t, 2 * m) {
      assert At(u, 2 * m) == BlankedAt(t, l, Some(Leaf(leaf)), 2 * m);
    }
  }

  lemma {:induction false} RemoveStepRules(t: Tree, l: nat)
    requires GoodTree(t) && RemoveLeaf(t, l).Ok?
    ensures GoodTree(RemoveLeaf(t, l).value)
  {
    RemoveKeepsHashes(t, l);
    RemoveKeepsTree(t, l);
    RemoveStepLeaves(t, l);
  }

  lemma {:induction false} RemoveStepLeaves(t: Tree, l: nat)
    requires Valid(t) && LeavesOk(t) && RemoveLeaf(t, l).Ok?
    ensures LeavesOk(RemoveLeaf(t, l).value)
  {
    RemoveLeafAt(t, l);
    BlankingKeepsLeaves(t, RemoveLeaf(t, l).value);
  }

  lemma {:induction false} RemoveStep(t: Tree, l: nat)
    requires Valid(t) && RemoveLeaf(t, l).Ok?
    ensures var u := RemoveLeaf(t, l).value;
      Valid(u) && (forall m: nat :: HasLeaf(u, m) <==> HasLeaf(t, m) && m != l)
      && (forall m: nat | HasLeaf(t, m) && m != l :: Survives(t, u, m) && LeafAt(u, m) == LeafAt(t, m))
  {
    RemoveLeafAt(t, l);
    var u := RemoveLeaf(t, l).value;
    forall m: nat ensures At(u, 2 * m) == if m == l then None else At(t, 2 * m) {
      assert At(u, 2 * m) == BlankedAt(t, l, None, 2 * m);
    }
  }

  lemma {:induction false} AddStepRules(env: Env, t: Tree, kp: KeyPackage, gc: GroupContext, sentByClient: bool)
    requires GoodTree(t) && KeyPackageOk(env, kp, gc, t, sentByClient)
    ensures GoodTree(AddLeaf(t, kp.leaf).0)
  {
    AddKeepsHashes(t, kp.leaf);
    AddKeepsTree(t, kp.leaf);
    AddStepLeaves(env, t, kp, gc, sentByClient);
  }

  lemma {:induction false} AddStepLeaves(env: Env, t: Tree, kp: KeyPackage, gc: GroupContext, sentByClient: bool)
    requires Valid(t) && LeavesOk(t) && KeyPackageOk(env, kp, gc, t, sentByClient)
    ensures LeavesOk(AddLeaf(t, kp.leaf).0)
  {
    AddLeafAt(t, kp.leaf);
    var (u, n) := AddLeaf(t, kp.leaf);
    assert At(u, n) == AddedAt(t, kp.leaf, n, n);
    forall x: nat | x != n && At(u, x).Some? ensures SameKeys(t, u, x) {
      assert At(u, x) == AddedAt(t, kp.leaf, n, x);
    }
    CheckedLeafKeeps(env, kp.leaf, gc, t, u, n, None, None);
  }

  lemma {:induction false} AddStepMember(t: Tree, leaf: LeafNode, m: nat)
    requires Valid(t)
    ensures var (u, n) := AddLeaf(t, leaf);
      && n % 2 == 0 && !HasLeaf(t, n / 2)
      && (HasLeaf(u, m) <==> HasLeaf(t, m) || m == n / 2)
      && (HasLeaf(t, m) ==> Survives(t, u, m) && LeafAt(u, m) == LeafAt(t, m))
      && (m == n / 2 ==> JustAdded(u, m) && LeafAt(u, m) == Some(leaf))
      && (JustAdded(t, m) ==> JustAdded(u, m))
  {
    AddLeafAt(t, leaf);
    var (u, n) := AddLeaf(t, leaf);
    assert At(u, 2 * m) == AddedAt(t, leaf, n, 2 * m);
    forall x: nat | OnPath(m, x) ensures At(u, x) == AddedAt(t, leaf, n, x) {}
  }

  // ---- the folds ----

  lemma {:induction false} UpdatesEffect(env: Env, orig: Tree, t: Tree, updates: seq<UpdateBy>, gc: GroupContext)
    requires Valid(t) && SendersDistinct(updates) && SendersPresent(t, updates)
    requires FoldUpdates(env, orig, t, updates, gc).Ok?
    ensures var u := FoldUpdates(env, orig, t, updates, gc).value;
      Valid(u) && (forall m: nat :: HasLeaf(u, m) <==> HasLeaf(t, m))
      && (forall m: nat | HasLeaf(t, m) :: Survives(t, u, m) && UpdatedBy(t, u, updates, m))
    decreases |updates|
  {
    if updates != [] {
      var l, leaf := updates[0].sender.value, updates[0].leaf;
      assert updates[0] in updates;
      UpdateStep(t, leaf, l);
      var v := UpdateLeaf(t, leaf, l);
      assert forall i | 0 <= i < |updates[1..]| :: updates[1..][i] == updates[i + 1];
      UpdatesEffect(env, orig, v, updates[1..], gc);
      var u := FoldUpdates(env, orig, t, updates, gc).value;
      forall m: nat | HasLeaf(t, m) ensures Survives(t, u, m) && UpdatedBy(t, u, updates, m) {
        SurvivesTrans(t, v, u, m);
      }
    }
  }

  lemma {:induction false} RemovesEffect(orig: Tree, t: Tree, removes: seq<nat>)
    requires Valid(t) && FoldRemoves(orig, t, removes).Ok?
    requires forall i, j | 0 <= i < j < |removes| :: removes[i] != removes[j]
    requires forall r | r in removes && At(orig, 2 * r).Some? :: HasLeaf(t, r)
    ensures forall r | r in removes :: HasLeaf(t, r)
    ensures var u := FoldRemoves(orig, t, removes).value;
      Valid(u) && (forall m: nat :: HasLeaf(u, m) <==> HasLeaf(t, m) && m !in removes)
      && (forall m: nat | HasLeaf(t, m) && m !in removes :: Survives(t, u, m) && LeafAt(u, m) == LeafAt(t, m))
    decreases |removes|
  {
    if removes != [] {
      var r, rest := removes[0], removes[1..];
      RemoveStep(t, r);
      var v := RemoveLeaf(t, r).value;
      forall i | 0 <= i < |rest| ensures rest[i] == removes[i + 1] && rest[i] != r {}
      assert removes == [r] + rest;
      RemovesEffect(orig, v, rest);
      var u := FoldRemoves(orig, t, removes).value;
      forall m: nat | HasLeaf(t, m) && m !in removes ensures Survives(t, u, m) && LeafAt(u, m) == LeafAt(t, m) {
        SurvivesTrans(t, v, u, m);
      }
    }
  }

  ghost predicate Joined(m: Mutated, l: nat) {
    exists i :: 0 <= i < |m.added| && m.added[i].leaf == l
  }

  /** Seen from leaf `l`: it stays as it was, or one of the Adds fills it. */
  ghost predicate AddsSeenBy(t: Tree, m: Mutated, l: nat) {
    && (HasLeaf(m.tree, l) <==> HasLeaf(t, l) || Joined(m, l))
    && (HasLeaf(t, l) ==> Survives(t, m.tree, l) && LeafAt(m.tree, l) == LeafAt(t, l) && !Joined(m, l))
    && (JustAdded(t, l) ==> JustAdded(m.tree, l))
  }

  lemma {:induction false} AddsSeen(
      env: Env, t: Tree, adds: seq<KeyPackage>, gc: GroupContext, sentByClient: bool, l: nat)
    requires Valid(t) && FoldAdds(env, t, adds, gc, sentByClient).Ok?
    ensures AddsSeenBy(t, FoldAdds(env, t, adds, gc, sentByClient).value, l)
    decreases |adds|
  {
    if adds != [] {
      AddLeafAt(t, adds[0].leaf);
      AddStepMember(t, adds[0].leaf, l);
      var (v, n) := AddLeaf(t, adds[0].leaf);
      AddsSeen(env, v, adds[1..], gc, sentByClient, l);
      var m, rest :=
        FoldAdds(env, t, adds, gc, sentByClient).value, FoldAdds(env, v, adds[1..], gc, sentByClient).value;
      AddsSeenStep(t, v, m, rest, Added(n / 2, adds[0]), l);
    }
  }

  lemma {:induction false} AddsSeenStep(t: Tree, v: Tree, m: Mutated, rest: Mutated, a: Added, l: nat)
    requires AddsSeenBy(v, rest, l) && m.added == [a] + rest.added && m.tree == rest.tree && !HasLeaf(t, a.leaf)
    requires HasLeaf(v, l) <==> HasLeaf(t, l) || l == a.leaf
    requires HasLeaf(t, l) ==> Survives(t, v, l) && LeafAt(v, l) == LeafAt(t, l)
    requires JustAdded(t, l) ==> JustAdded(v, l)
    ensures AddsSeenBy(t, m, l)
  {
    JoinedFirst(m, rest, a, l);
    if HasLeaf(t, l) { SurvivesTrans(t, v, m.tree, l); }
  }

  /** The Adds' leaves are distinct, and each holds its key package's leaf and is listed by all above it. */
  ghost predicate AddedInOrder(m: Mutated, adds: seq<KeyPackage>) {
    && |m.added| == |adds|
    && (forall i | 0 <= i < |adds| :: m.added[i].keyPackage == adds[i]
          && JustAdded(m.tree, m.added[i].leaf) && LeafAt(m.tree, m.added[i].leaf) == Some(adds[i].leaf))
    && (forall i, j | 0 <= i < j < |adds| :: m.added[i].leaf != m.added[j].leaf)
  }

  lemma {:induction false} AddsInOrder(env: Env, t: Tree, adds: seq<KeyPackage>, gc: GroupContext, sentByClient: bool)
    requires Valid(t) && FoldAdds(env, t, adds, gc, sentByClient).Ok?
    ensures AddedInOrder(FoldAdds(env, t, adds, gc, sentByClient).value, adds)
    decreases |adds|
  {
    if adds != [] {
      AddLeafAt(t, adds[0].leaf);
      var (v, n) := AddLeaf(t, adds[0].leaf);
      AddStepMember(t, adds[0].leaf, n / 2);
      AddsInOrder(env, v, adds[1..], gc, sentByClient);
      AddsSeen(env, v, adds[1..], gc, sentByClient, n / 2);
      var m, rest :=
        FoldAdds(env, t, adds, gc, sentByClient).value, FoldAdds(env, v, adds[1..], gc, sentByClient).value;
      InOrderFirst(m, rest, Added(n / 2, adds[0]), adds);
    }
  }

  lemma {:induction false} InOrderFirst(m: Mutated, rest: Mutated, a: Added, adds: seq<KeyPackage>)
    requires adds != [] && AddedInOrder(rest, adds[1..]) && m.added == [a] + rest.added && m.tree == rest.tree
    requires a.keyPackage == adds[0] && JustAdded(m.tree, a.leaf) && LeafAt(m.tree, a.leaf) == Some(adds[0].leaf)
    requires !Joined(rest, a.leaf)
    ensures AddedInOrder(m, adds)
  {
    forall i | 0 <= i < |adds| ensures m.added[i].keyPackage == adds[i]
      && JustAdded(m.tree, m.added[i].leaf) && LeafAt(m.tree, m.added[i].leaf) == Some(adds[i].leaf)
    {
      if i > 0 { assert m.added[i] == rest.added[i - 1] && adds[i] == adds[1..][i - 1]; }
    }
    forall i, j | 0 <= i < j < |adds| ensures m.added[i].leaf != m.added[j].leaf {
      assert m.added[j] == rest.added[j - 1];
      if i > 0 { assert m.added[i] == rest.added[i - 1]; }
    }
  }

  lemma {:induction false} JoinedFirst(m: Mutated, rest: Mutated, a: Added, l: nat)
    requires m.added == [a] + rest.added
    ensures Joined(m, l) <==> l == a.leaf || Joined(rest, l)
  {
    if l == a.leaf { assert m.added[0].leaf == l; }
    if Joined(rest, l) {
      var i :| 0 <= i < |rest.added| && rest.added[i].leaf == l;
      assert m.added[i + 1].leaf == l;
    }
    if Joined(m, l) && l != a.leaf {
      var i :| 0 <= i < |m.added| && m.added[i].leaf == l;
      assert rest.added[i - 1].leaf == l;
    }
  }

  lemma {:induction false} UpdatesKeepRules(env: Env, orig: Tree, t: Tree, updates: seq<UpdateBy>, gc: GroupContext)
    requires GoodTree(t) && FoldUpdates(env, orig, t, updates, gc).Ok?
    ensures GoodTree(FoldUpdates(env, orig, t, updates, gc).value)
    decreases |updates|
  {
    if updates != [] {
      var l, leaf := updates[0].sender.value, updates[0].leaf;
      UpdateStepRules(env, t, leaf, l, gc);
      UpdatesKeepRules(env, orig, UpdateLeaf(t, leaf, l), updates[1..], gc);
    }
  }

  lemma {:induction false} RemovesKeepRules(orig: Tree, t: Tree, removes: seq<nat>)
    requires GoodTree(t) && FoldRemoves(orig, t, removes).Ok?
    ensures GoodTree(FoldRemoves(orig, t, removes).value)
    decreases |removes|
  {
    if removes != [] {
      RemoveStepRules(t, removes[0]);
      RemovesKeepRules(orig, RemoveLeaf(t, removes[0]).value, removes[1..]);
    }
  }

  lemma {:induction false} AddsKeepRules(env: Env, t: Tree, adds: seq<KeyPackage>, gc: GroupContext, sentByClient: bool)
    requires GoodTree(t) && FoldAdds(env, t, adds, gc, sentByClient).Ok?
    ensures GoodTree(FoldAdds(env, t, adds, gc, sentByClient).value.tree)
    decreases |adds|
  {
    if adds != [] {
      AddStepRules(env, t, adds[0], gc, sentByClient);
      AddsKeepRules(env, AddLeaf(t, adds[0].leaf).0, adds[1..], gc, sentByClient);
    }
  }

  /** Every step of an accepted list keeps the rules, since each is checked
      against the tree the steps before it left. */
  lemma {:induction false} MutationsKeepRules(env: Env, t: Tree, g: Grouped, gc: GroupContext, sentByClient: bool)
    requires GoodTree(t) && ApplyMutations(env, t, g, gc, sentByClient).Ok?
    ensures GoodTree(ApplyMutations(env, t, g, gc, sentByClient).value.tree)
  {
    UpdatesKeepRules(env, t, t, g.updates, gc);
    var u := FoldUpdates(env, t, t, g.updates, gc).value;
    RemovesKeepRules(t, u, g.removes);
    AddsKeepRules(env, FoldRemoves(t, u, g.removes).value, g.adds, gc, sentByClient);
  }

  lemma {:induction false} EvenIsLeaf(t: Tree, l: nat)
    requires Valid(t) && At(t, 2 * l).Some?
    ensures HasLeaf(t, l)
  {
  }

  // ---- the whole list ----

  /** An accepted list changes exactly what it names. */
  ghost predicate MembershipChange(t: Tree, g: Grouped, m: Mutated) {
    && Valid(m.tree) && AddedInOrder(m, g.adds)
    && (forall r | r in g.removes :: HasLeaf(t, r))
    && (forall l: nat :: HasLeaf(m.tree, l) <==> (HasLeaf(t, l) && l !in g.removes) || Joined(m, l))
    && (forall l: nat | HasLeaf(t, l) && l !in g.removes ::
          Survives(t, m.tree, l) && UpdatedBy(t, m.tree, g.updates, l) && !Joined(m, l))
  }

  lemma {:induction false} MutationsEffect(env: Env, t: Tree, g: Grouped, gc: GroupContext, sentByClient: bool)
    requires Valid(t) && OneChangePerLeaf(g) && SendersPresent(t, g.updates)
    requires ApplyMutations(env, t, g, gc, sentByClient).Ok?
    ensures MembershipChange(t, g, ApplyMutations(env, t, g, gc, sentByClient).value)
  {
    UpdatesEffect(env, t, t, g.updates, gc);
    var u := FoldUpdates(env, t, t, g.updates, gc).value;
    forall r | r in g.removes && At(t, 2 * r).Some? ensures HasLeaf(u, r) { EvenIsLeaf(t, r); }
    RemovesEffect(t, u, g.removes);
    var v := FoldRemoves(t, u, g.removes).value;
    AddsInOrder(env, v, g.adds, gc, sentByClient);
    var m := ApplyMutations(env, t, g, gc, sentByClient).value;
    forall l: nat ensures AddsSeenBy(v, m, l) { AddsSeen(env, v, g.adds, gc, sentByClient, l); }
    forall l: nat | HasLeaf(t, l) && l !in g.removes
      ensures Survives(t, m.tree, l) && UpdatedBy(t, m.tree, g.updates, l) && !Joined(m, l)
    {
      assert AddsSeenBy(v, m, l);
      SurvivesTrans(t, u, v, l);
      SurvivesTrans(t, v, m.tree, l);
    }
    forall l: nat ensures HasLeaf(m.tree, l) <==> (HasLeaf(t, l) && l !in g.removes) || Joined(m, l) {
      assert AddsSeenBy(v, m, l);
    }
  }

  // ---- the way up from a removed leaf ----

  ghost predicate BlankAbove(t: Tree, l: nat) {
    forall x: nat | OnPath(l, x) :: At(t, x) == None
  }

  lemma {:induction false} RemovesBlank(orig: Tree, t: Tree, removes: seq<nat>, l: nat)
    requires Valid(t) && FoldRemoves(orig, t, removes).Ok? && (l in removes || BlankAbove(t, l))
    ensures BlankAbove(FoldRemoves(orig, t, removes).value, l)
    decreases |removes|
  {
    if removes != [] {
      var r, rest := removes[0], removes[1..];
      RemoveLeafAt(t, r);
      var v := RemoveLeaf(t, r).value;
      assert removes == [r] + rest;
      forall x: nat ensures At(v, x) == BlankedAt(t, r, None, x) {}
      RemovesBlank(orig, v, rest, l);
    }
  }

  lemma {:induction false} AddsKeepBlank(
      env: Env, t: Tree, adds: seq<KeyPackage>, gc: GroupContext, sentByClient: bool, l: nat)
    requires Valid(t) && FoldAdds(env, t, adds, gc, sentByClient).Ok? && BlankAbove(t, l)
    ensures BlankAbove(FoldAdds(env, t, adds, gc, sentByClient).value.tree, l)
    decreases |adds|
  {
    if adds != [] {
      AddLeafAt(t, adds[0].leaf);
      var (v, n) := AddLeaf(t, adds[0].leaf);
      forall x: nat | OnPath(l, x) ensures At(v, x) == None { assert At(v, x) == AddedAt(t, adds[0].leaf, n, x); }
      AddsKeepBlank(env, v, adds[1..], gc, sentByClient, l);
    }
  }

  /** Every node above a removed leaf is blank after the commit's proposals, even if the leaf was filled again. */
  lemma {:induction false} RemovedIsBlankAbove(
      env: Env, t: Tree, g: Grouped, gc: GroupContext, sentByClient: bool, l: nat)
    requires Valid(t) && ApplyMutations(env, t, g, gc, sentByClient).Ok? && l in g.removes
    ensures BlankAbove(ApplyMutations(env, t, g, gc, sentByClient).value.tree, l)
  {
    FoldUpdatesValid(env, t, t, g.updates, gc);
    var u := FoldUpdates(env, t, t, g.updates, gc).value;
    FoldRemovesValid(t, u, g.removes);
    RemovesBlank(t, u, g.removes, l);
    AddsKeepBlank(env, FoldRemoves(t, u, g.removes).value, g.adds, gc, sentByClient, l);
  }

  // ---- counting members ----

  function Leaves(t: Tree): set<nat> {
    set l: nat | 0 <= l < |t| && HasLeaf(t, l)
  }

  lemma {:induction false} LeavesIff(t: Tree, l: nat)
    ensures l in Leaves(t) <==> HasLeaf(t, l)
  {
  }

  function Elements(s: seq<nat>): set<nat> {
    set x | x in s
  }

  lemma {:induction false} DistinctCount(s: seq<nat>)
    requires forall i, j | 0 <= i < j < |s| :: s[i] != s[j]
    ensures |Elements(s)| == |s|
  {
    if s != [] {
      var n := |s| - 1;
      DistinctCount(s[..n]);
      assert s[n] !in s[..n];
      assert s == s[..n] + [s[n]];
      assert Elements(s) == Elements(s[..n]) + {s[n]};
    }
  }

  function AddedLeaves(added: seq<Added>): (r: seq<nat>)
    ensures |r| == |added| && forall i | 0 <= i < |added| :: r[i] == added[i].leaf
  {
    seq(|added|, i requires 0 <= i < |added| => added[i].leaf)
  }

  /** Membership is conserved: old members, less the removed, plus the added. */
  lemma {:induction false} MembersConserved(t: Tree, g: Grouped, m: Mutated)
    requires MembershipChange(t, g, m) && OneChangePerLeaf(g)
    ensures |Leaves(m.tree)| == |Leaves(t)| - |g.removes| + |g.adds|
  {
    var removed, joined := Elements(g.removes), Elements(AddedLeaves(m.added));
    DistinctCount(g.removes);
    DistinctCount(AddedLeaves(m.added));
    forall l: nat ensures l in joined <==> Joined(m, l) {
      if l in joined {
        var i :| 0 <= i < |m.added| && AddedLeaves(m.added)[i] == l;
        assert m.added[i].leaf == l;
      }
      if Joined(m, l) {
        var i :| 0 <= i < |m.added| && m.added[i].leaf == l;
        assert AddedLeaves(m.added)[i] == l;
      }
    }
    forall l: nat ensures l in Leaves(m.tree) <==> l in Leaves(t) - removed + joined {
      LeavesIff(t, l);
      LeavesIff(m.tree, l);
    }
    assert Leaves(m.tree) == (Leaves(t) - removed) + joined;
    assert removed <= Leaves(t) by { forall l | l in removed ensures l in Leaves(t) { LeavesIff(t, l); } }
    assert (Leaves(t) - removed) !! joined by {
      forall l | l in Leaves(t) - removed ensures l !in joined { LeavesIff(t, l); }
    }
  }

  // ---- which leaves the Adds take ----

  /** The leaves before `l` that are blank, or will be once `removes` are done. */
  function Vacant(t: Tree, removes: seq<nat>, l: nat): set<nat> {
    set k: nat | k < l && (!HasLeaf(t, k) || k in removes)
  }

  /** The commit has an Add left over for leaf `l` when every vacancy before it is taken. */
  predicate Refilled(t: Tree, g: Grouped, l: nat) {
    |Vacant(t, g.removes, l)| < |g.adds|
  }

  lemma {:induction false} VacantStep(t: Tree, u: Tree, n: nat, l: nat)
    requires !HasLeaf(t, n) && n < l && forall k: nat :: HasLeaf(u, k) <==> HasLeaf(t, k) || k == n
    ensures |Vacant(u, [], l)| == |Vacant(t, [], l)| - 1
  {
    assert Vacant(u, [], l) == Vacant(t, [], l) - {n};
    assert n in Vacant(t, [], l);
  }

  /** Adds take the lowest blank leaves: a blank leaf is taken exactly when there
      are more Adds than blank leaves before it. */
  lemma {:induction false} AddsTakeLowest(
      env: Env, t: Tree, adds: seq<KeyPackage>, gc: GroupContext, sentByClient: bool, l: nat)
    requires Valid(t) && FoldAdds(env, t, adds, gc, sentByClient).Ok? && !HasLeaf(t, l)
    ensures Joined(FoldAdds(env, t, adds, gc, sentByClient).value, l) <==> |Vacant(t, [], l)| < |adds|
    decreases |adds|
  {
    hide KeyPackageOk;
    if adds != [] {
      AddLeafAt(t, adds[0].leaf);
      var (v, n) := AddLeaf(t, adds[0].leaf);
      forall k: nat ensures HasLeaf(v, k) <==> HasLeaf(t, k) || k == n / 2 { AddStepMember(t, adds[0].leaf, k); }
      var m, rest :=
        FoldAdds(env, t, adds, gc, sentByClient).value, FoldAdds(env, v, adds[1..], gc, sentByClient).value;
      JoinedFirst(m, rest, Added(n / 2, adds[0]), l);
      if l == n / 2 {
        forall k: nat | k < l ensures HasLeaf(t, k) { LowestBlank(t, k); }
        assert Vacant(t, [], l) == {};
      } else {
        if l < n / 2 { LowestBlank(t, l); }
        AddsTakeLowest(env, v, adds[1..], gc, sentByClient, l);
        VacantStep(t, v, n / 2, l);
      }
    }
  }

  /** Through the whole list: which leaves hold a newcomer can be told from the
      tree before the commit and the numbers of its Adds and Removes. */
  lemma {:induction false} RefilledIff(env: Env, t: Tree, g: Grouped, gc: GroupContext, sentByClient: bool, l: nat)
    requires Valid(t) && OneChangePerLeaf(g) && SendersPresent(t, g.updates)
    requires ApplyMutations(env, t, g, gc, sentByClient).Ok? && (!HasLeaf(t, l) || l in g.removes)
    ensures Joined(ApplyMutations(env, t, g, gc, sentByClient).value, l) <==> Refilled(t, g, l)
  {
    UpdatesEffect(env, t, t, g.updates, gc);
    var u := FoldUpdates(env, t, t, g.updates, gc).value;
    forall r | r in g.removes && At(t, 2 * r).Some? ensures HasLeaf(u, r) { EvenIsLeaf(t, r); }
    RemovesEffect(t, u, g.removes);
    var v := FoldRemoves(t, u, g.removes).value;
    AddsTakeLowest(env, v, g.adds, gc, sentByClient, l);
    assert Vacant(v, [], l) == Vacant(t, g.removes, l);
  }

  /** A member that a Remove names is flagged as removed exactly when the commit
      has no more Adds than vacancies before its leaf: the flag reads the tree
      after the Adds, and they fill the lowest vacancies first. */
  lemma {:induction false} RemovedFlagIff(env: Env, t: Tree, g: Grouped, gc: GroupContext, sentByClient: bool, l: nat)
    requires Valid(t) && OneChangePerLeaf(g) && SendersPresent(t, g.updates)
    requires ApplyMutations(env, t, g, gc, sentByClient).Ok? && l in g.removes
    ensures At(ApplyMutations(env, t, g, gc, sentByClient).value.tree, 2 * l).None? <==>
      |g.adds| <= |Vacant(t, g.removes, l)|
  {
    hide FoldUpdates, FoldRemoves, FoldAdds;
    var m := ApplyMutations(env, t, g, gc, sentByClient).value;
    MutationsEffect(env, t, g, gc, sentByClient);
    RefilledIff(env, t, g, gc, sentByClient, l);
    if At(m.tree, 2 * l).Some? { EvenIsLeaf(m.tree, l); }
  }

  lemma {:induction false} RemoveSecond(t: Tree)
    requires Valid(t) && |t| == 3 && HasLeaf(t, 0)
    ensures RemoveLeaf(t, 1) == Ok([t[0]])
  {
    var b := BlankPath(t, 1, None);
    assert OnPath(1, 1) && !OnPath(1, 0);
    assert b == [t[0], None, None];
    assert b[..2] == [t[0], None] && b[..2][..1] == [t[0]];
    assert StrippedLength([t[0]]) == 1;
    assert StrippedLength([t[0], None]) == 1;
    assert StrippedLength(b) == 1;
    assert FullSize(1, 1) == 1 && Blanks(0) == [];
    assert b[..1] + Blanks(0) == [t[0]];
  }

  /** Replacing a member: in any group of two, a commit that removes the second
      and adds a client puts the client in the removed member's leaf. */
  lemma {:induction false} ReplaceMember(env: Env, t: Tree, g: Grouped, gc: GroupContext, sentByClient: bool)
    requires Valid(t) && |t| == 3 && HasLeaf(t, 0) && HasLeaf(t, 1)
    requires g.updates == [] && g.removes == [1] && |g.adds| == 1
    requires KeyPackageOk(env, g.adds[0], gc, [t[0]], sentByClient)
    ensures var m := ApplyMutations(env, t, g, gc, sentByClient);
      m.Ok? && m.value.added == [Added(1, g.adds[0])] && At(m.value.tree, 2) == Some(Leaf(g.adds[0].leaf))
    ensures Refilled(t, g, 1)
  {
    hide KeyPackageOk;
    RemoveSecond(t);
    var v := [t[0]];
    AddLeafAt(v, g.adds[0].leaf);
    assert FindBlankLeaf(v, 2) == None;
    assert v + [None, Some(Leaf(g.adds[0].leaf))] + Blanks(0) == [t[0], None, Some(Leaf(g.adds[0].leaf))];
    var u := AddLeaf(v, g.adds[0].leaf).0;
    assert FoldAdds(env, u, [], gc, sentByClient) == Ok(Mutated(u, []));
    assert g.adds == [g.adds[0]] && g.adds[1..] == [];
    assert FoldUpdates(env, t, t, [], gc) == Ok(t);
    assert g.removes[1..] == [];
    assert FoldRemoves(t, v, []) == Ok(v);
    assert FoldRemoves(t, t, g.removes) == Ok(v);
    assert Vacant(t, g.removes, 1) == {};
  }

  /** A member no Remove names is never flagged. */
  lemma {:induction false} SurvivorNotFlagged(t: Tree, g: Grouped, m: Mutated, l: nat)
    requires MembershipChange(t, g, m) && HasLeaf(t, l) && l !in g.removes
    ensures At(m.tree, 2 * l).Some?
  {
    assert HasLeaf(m.tree, l);
  }

  // ---- capabilities left after Updates and Removes ----

  /** The capabilities of the leaves of `t` from node `x` up to `n`, in order. */
  function TreeCapabilities(t: Tree, x: nat, n: nat): seq<Capabilities>
    decreases n - x
  {
    if x >= n then [] else
    (if NodeLeaf(t, x).None? then [] else [NodeLeaf(t, x).value.capabilities]) + TreeCapabilities(t, x + 1, n)
  }

  lemma {:induction false} CapabilitiesAgree(t: Tree, u: Tree, g: Grouped, x: nat)
    requires Valid(t) && Valid(u)
    requires forall l: nat :: HasLeaf(u, l) <==> HasLeaf(t, l) && l !in g.removes
    requires forall l: nat | HasLeaf(u, l) :: UpdatedBy(t, u, g.updates, l)
    ensures RemainingCapabilities(t, x, g) == TreeCapabilities(u, x, |t|)
    decreases |t| - x
  {
    hide Valid;
    if x < |t| {
      CapabilitiesAgree(t, u, g, x + 1);
      NodeLeafIs(t, x);
      NodeLeafIs(u, x);
    }
  }

  lemma {:induction false} NodeLeafIs(t: Tree, x: nat)
    requires Valid(t)
    ensures NodeLeaf(t, x) == if x % 2 == 0 then LeafAt(t, x / 2) else None
  {
    if x % 2 == 0 { assert 2 * (x / 2) == x; }
  }

  /** The list the capability checks read is the capabilities, in order, of the
      leaves that Updates and Removes leave in the tree. */
  lemma {:induction false} PostMutationCapabilities(env: Env, t: Tree, g: Grouped, gc: GroupContext)
    requires Valid(t) && OneChangePerLeaf(g) && SendersPresent(t, g.updates)
    requires FoldUpdates(env, t, t, g.updates, gc).Ok?
    requires Valid(FoldUpdates(env, t, t, g.updates, gc).value)
    requires FoldRemoves(t, FoldUpdates(env, t, t, g.updates, gc).value, g.removes).Ok?
    ensures var v := FoldRemoves(t, FoldUpdates(env, t, t, g.updates, gc).value, g.removes).value;
      RemainingCapabilities(t, 0, g) == TreeCapabilities(v, 0, |t|)
  {
    UpdatesEffect(env, t, t, g.updates, gc);
    var u := FoldUpdates(env, t, t, g.updates, gc).value;
    forall r | r in g.removes && At(t, 2 * r).Some? ensures HasLeaf(u, r) { EvenIsLeaf(t, r); }
    RemovesEffect(t, u, g.removes);
    CapabilitiesAgree(t, FoldRemoves(t, u, g.removes).value, g, 0);
  }
}

/** When a member can make a commit at all: createCommit in src/create-commit.ts
    succeeds on exactly these states and options. */
module CommitMade {
  import opened Options
  import opened Terms
  import opened TreeMath
  import opened RatchetTree
  import opened ParentHashes
  import opened UpdatePaths
  import opened LeafValidation
  import opened ClientStates
  import opened PrivateKeys
  import opened UnmergedLeaves
  import opened KeyOwnership
  import opened Proposals
  import opened Membership
  import opened ProposalRules
  import opened FilterPending
  import opened FilterChoices
  import opened Commits
  import opened Convergence
  import opened EpochContents
  import opened GroupExtensions
  import opened AppliedLists

  // ---- a path can always be made ----

  lemma {:induction false} SealPathSucceeds(t: Tree, secrets: seq<PathSecret>, context: GroupContext)
    requires forall s, n | s in secrets && n in s.sendTo :: At(t, n).Some?
    ensures SealPath(t, secrets, context).Ok?
  {
    if secrets != [] {
      assert secrets[0] in secrets;
      SealAllSucceeds(t, secrets[0].sendTo, context, secrets[0].secret);
      forall s, n | s in secrets[1..] && n in s.sendTo ensures At(t, n).Some? { assert s in secrets; }
      SealPathSucceeds(t, secrets[1..], context);
    }
  }

  /** Nobody a path is sealed to is blank. */
  lemma {:induction false} PathAlways(
      t: Tree, s: nat, gc: GroupContext, signKey: Secret, seed: Secret, exclude: seq<nat>, patch: LeafPatch)
    requires Valid(t) && UnmergedOk(t) && HasLeaf(t, s)
    ensures CreateUpdatePath(t, s, gc, signKey, seed, exclude, patch).Ok?
  {
    hide FilteredFrom, SecretsAbove, NewTree, NewSenderLeaf, UnmergedOk, SealPath;
    var path := FilteredPath(t, s);
    var secrets := SecretsAbove(path, seed, exclude);
    Span(2 * s);
    PathResolutions(t, 2 * s, 2 * s);
    forall x, n | x in secrets && n in x.sendTo ensures At(t, n).Some? {
      var i :| 0 <= i < |secrets| && secrets[i] == x;
      SecretsAboveAt(path, seed, exclude, i);
      assert path[i] in path;
    }
    var tree := NewTree(t, s, gc, signKey, seed, patch);
    SealPathSucceeds(t, secrets, NextContext(gc, TreeHash(tree, Root(|tree|))));
  }

  // ---- and so can the Welcome ----

  lemma {:induction false} SealForAlways(d: Draft, s: nat, joiner: Secret, a: Added)
    requires Valid(DraftTree(d)) && 2 * s < |DraftTree(d)| && HasLeaf(DraftTree(d), a.leaf) && a.leaf != s
    ensures SealFor(d, s, joiner, a).Ok?
  {
    hide FilteredFrom;
    var t := DraftTree(d);
    OtherLeaf(a.leaf, s);
    var i, c := CommonAncestor(t, 2 * s, a.leaf);
    assert OnPath(a.leaf, FilteredPath(t, s)[i].node);
  }

  lemma {:induction false} OtherLeaf(l: nat, s: nat)
    requires l != s
    ensures !Under(2 * l, 2 * s)
  {
  }

  lemma {:induction false} SealForAllAlways(d: Draft, s: nat, joiner: Secret, added: seq<Added>)
    requires Valid(DraftTree(d)) && 2 * s < |DraftTree(d)|
    requires forall a | a in added :: HasLeaf(DraftTree(d), a.leaf) && a.leaf != s
    ensures SealForAll(d, s, joiner, added).Ok?
    decreases |added|
  {
    hide SealFor;
    if added != [] {
      SealForAlways(d, s, joiner, added[0]);
      SealForAllAlways(d, s, joiner, added[1..]);
    }
  }

  /** The newcomers are in the tree the draft ends with, and none is the committer. */
  lemma {:induction false} NewcomersThere(env: Env, st: ClientState, o: CommitOptions, seed: Secret, d: Draft)
    requires MemberOk(st) && Valid(st.tree) && DraftCommit(env, st, o, seed) == Ok(d)
    ensures Valid(d.applied.tree) && Valid(DraftTree(d)) && HasLeaf(DraftTree(d), st.privatePath.leaf)
    ensures forall a | a in AddedOf(d.applied.kind) ::
        HasLeaf(DraftTree(d), a.leaf) && a.leaf != st.privatePath.leaf
  {
    var s := st.privatePath.leaf;
    MemberHasLeaf(st);
    DraftedFrom(env, st, o, seed, d);
    CommitterStays(env, st, d.props, s, d.applied);
    hide DraftCommit, ApplyProposals, MemberOk, DraftPath, Covers, Signs, Group;
    AddedElsewhere(st.tree, s, d.applied);
    if d.created.Some? {
      DraftLeaves(env, st, o, seed, d.applied, d.created.value);
      DraftSize(env, st, o, seed, d.applied, d.created.value);
      WithLeaf(d.applied.tree, s, d.created.value.path.leaf, DraftTree(d), s);
      forall a | a in AddedOf(d.applied.kind) ensures HasLeaf(DraftTree(d), a.leaf) {
        WithLeaf(d.applied.tree, s, d.created.value.path.leaf, DraftTree(d), a.leaf);
      }
    }
  }

  lemma {:induction false} WithLeaf(t: Tree, s: nat, leaf: LeafNode, v: Tree, l: nat)
    requires WithPathLeaf(t, s, Some(leaf), v) && (HasLeaf(t, l) || l == s)
    ensures HasLeaf(v, l)
  {
    assert LeafAt(v, l).Some?;
  }

  lemma {:induction false} AddedElsewhere(t: Tree, s: nat, applied: Applied)
    requires CommitApplied(t, s, applied) && HasLeaf(t, s)
    ensures forall a | a in AddedOf(applied.kind) :: HasLeaf(applied.tree, a.leaf) && a.leaf != s
  {
    hide Group;
    var m := Mutated(applied.tree, AddedOf(applied.kind));
    forall a | a in m.added ensures HasLeaf(applied.tree, a.leaf) && a.leaf != s {
      var i :| 0 <= i < |m.added| && m.added[i] == a;
      assert Joined(m, a.leaf);
    }
  }

  lemma {:induction false} DraftedFrom(env: Env, st: ClientState, o: CommitOptions, seed: Secret, d: Draft)
    requires Valid(st.tree) && DraftCommit(env, st, o, seed) == Ok(d)
    ensures ApplyProposals(env, st, d.props, Some(st.privatePath.leaf), true, None, MemberType) == Ok(d.applied)
    ensures Valid(d.applied.tree) && !d.applied.kind.ExternalCommit?
    ensures DraftPath(env, st, o, d.applied, seed) == Ok(d.created)
  {
    hide ApplyProposals, DraftPath, FilterPendingProposals;
    ApplyProposalsValid(env, st, d.props, Some(st.privatePath.leaf), true, None, MemberType);
  }

  lemma {:induction false} DraftSize(
      env: Env, st: ClientState, o: CommitOptions, seed: Secret, applied: Applied, c: Created)
    requires Valid(applied.tree) && DraftPath(env, st, o, applied, seed) == Ok(Some(c))
    ensures Valid(c.tree)
  {
    hide UpdateOrCommitOk, PathTree, NewSenderLeaf, SealPath, SecretsAbove;
  }

  /** Once drafted, a commit is made. */
  lemma {:induction false} DraftSuffices(env: Env, st: ClientState, o: CommitOptions, seed: Secret)
    requires MemberOk(st) && Valid(st.tree)
    ensures CreateCommit(env, st, o, seed).Ok? <==> st.active == IsActive && DraftCommit(env, st, o, seed).Ok?
  {
    hide DraftCommit, MemberOk, SealForAll, CommitterState, EpochOf, DraftTree;
    if DraftCommit(env, st, o, seed).Ok? {
      var d := DraftCommit(env, st, o, seed).value;
      NewcomersThere(env, st, o, seed, d);
      LeafInside(DraftTree(d), st.privatePath.leaf);
      SealForAllAlways(d, st.privatePath.leaf, EpochOf(st, o, d).secrets.joiner, AddedOf(d.applied.kind));
    }
  }

  lemma {:induction false} LeafInside(t: Tree, l: nat)
    requires HasLeaf(t, l)
    ensures 2 * l < |t|
  {
  }

  // ---- exactly when ----

  /** The leaf the committer's path brings: the patch over its leaf, a fresh key, its own signature. */
  predicate IsPathLeaf(st: ClientState, o: CommitOptions, seed: Secret, prior: LeafNode, leaf: LeafNode) {
    && Patched(prior, o, leaf) && leaf.hpkeKey == PathKey(seed, 0)
    && leaf.signature == LeafSignature(NewSignKey(st, o), Some((st.context.groupId, st.privatePath.leaf)))
  }

  /** Whatever its parent hash, that leaf can stand at the committer's place in `t`. */
  ghost predicate PatchFits(env: Env, st: ClientState, o: CommitOptions, seed: Secret, gc: GroupContext, t: Tree)
    requires HasLeaf(st.tree, st.privatePath.leaf)
  {
    forall leaf | IsPathLeaf(st, o, seed, LeafAt(st.tree, st.privatePath.leaf).value, leaf) ::
      ReplacementSound(env, leaf, st.privatePath.leaf, gc, t) && Meets(gc.extensions, leaf.capabilities)
  }

  lemma {:induction false} SameButHash(
      env: Env, a: LeafNode, b: LeafNode, l: nat, gc: GroupContext, t: Tree)
    requires a == b.(source := a.source) && ReplacementSound(env, a, l, gc, t) && Meets(gc.extensions, a.capabilities)
    ensures ReplacementSound(env, b, l, gc, t) && Meets(gc.extensions, b.capabilities)
  {
  }

  lemma {:induction false} OnePathLeaf(
      st: ClientState, o: CommitOptions, seed: Secret, prior: LeafNode, a: LeafNode, b: LeafNode)
    requires IsPathLeaf(st, o, seed, prior, a) && IsPathLeaf(st, o, seed, prior, b)
    ensures a == b.(source := a.source)
  {
  }

  lemma {:induction false} PathDrafted(
      env: Env, st: ClientState, o: CommitOptions, applied: Applied, seed: Secret)
    requires HasLeaf(st.tree, st.privatePath.leaf) && Valid(applied.tree) && UnmergedOk(applied.tree)
    requires LeafAt(applied.tree, st.privatePath.leaf) == LeafAt(st.tree, st.privatePath.leaf)
    requires CheckedContext(st, applied.kind).groupId == st.context.groupId
    ensures DraftPath(env, st, o, applied, seed).Ok? <==>
      (o.patch.Some? ==> PatchFits(env, st, o, seed, CheckedContext(st, applied.kind), applied.tree))
  {
    hide UnmergedOk, CreateUpdatePath, UpdateOrCommitOk, ReplacementSound, Meets, CheckedContext;
    var s, gc, patch := st.privatePath.leaf, CheckedContext(st, applied.kind), OrElse(o.patch, NoPatch);
    var exclude, t := ExcludedNodes(applied.kind), applied.tree;
    assert HasLeaf(t, s) by { assert LeafAt(t, s).Some?; }
    PathAlways(t, s, gc, st.signKey, seed, exclude, patch);
    CreatedWhere(t, s, gc, st.signKey, seed, exclude, patch);
    if o.patch.Some? {
      var leaf := CreateUpdatePath(t, s, gc, st.signKey, seed, exclude, patch).value.path.leaf;
      assert IsPathLeaf(st, o, seed, LeafAt(st.tree, s).value, leaf);
      ReplacementIff(env, leaf, s, gc, t);
      if ReplacementSound(env, leaf, s, gc, t) && Meets(gc.extensions, leaf.capabilities) {
        forall b | IsPathLeaf(st, o, seed, LeafAt(st.tree, s).value, b)
          ensures ReplacementSound(env, b, s, gc, t) && Meets(gc.extensions, b.capabilities)
        {
          OnePathLeaf(st, o, seed, LeafAt(st.tree, s).value, leaf, b);
          SameButHash(env, leaf, b, s, gc, t);
        }
      }
    }
  }

  /** The commit's proposals: what the filter kept, by reference, then those given by value. */
  function Proposed(refs: seq<Ref>, o: CommitOptions): seq<ProposalOrRef> {
    ByRefs(refs) + ByValues(o.extra)
  }

  lemma {:induction false} GoodLists(t: Tree)
    requires GoodTree(t)
    ensures Valid(t) && UnmergedOk(t)
  {
  }

  lemma {:induction false} DraftIff(
      env: Env, st: ClientState, o: CommitOptions, seed: Secret, refs: seq<Ref>, applied: Applied)
    requires MemberOk(st) && GoodTree(st.tree) && Valid(st.tree) && HasLeaf(st.tree, st.privatePath.leaf)
    requires FilterPendingProposals(env, st, o.extra) == Ok(refs)
    requires ApplyProposals(env, st, Proposed(refs, o), Some(st.privatePath.leaf), true, None, MemberType) ==
      Ok(applied)
    ensures Valid(applied.tree)
    ensures DraftCommit(env, st, o, seed).Ok? <==>
      (o.patch.Some? ==> PatchFits(env, st, o, seed, CheckedContext(st, applied.kind), applied.tree))
  {
    var s := st.privatePath.leaf;
    CommitterStays(env, st, Proposed(refs, o), s, applied);
    assert !applied.kind.ExternalCommit?;
    hide MemberOk, ApplyProposals, GoodTree, FilterPendingProposals, DraftPath, CheckedContext, Yields, UnmergedOk,
      PatchFits, CommitApplied, Covers, Signs;
    ApplyProposalsValid(env, st, Proposed(refs, o), Some(s), true, None, MemberType);
    MemberCommitGood(env, st, Proposed(refs, o), s, true, None, applied);
    GoodLists(applied.tree);
    AppliedYields(env, st, Proposed(refs, o), Some(s), true, None, MemberType);
    YieldsContext(env, st, applied.all, MemberType, applied);
    PathDrafted(env, st, o, applied, seed);
  }

  /** A member in good order makes the commit exactly when it is active, the filter does
      not throw, its proposals can be applied, and a patch makes a leaf that can stand
      in the tree they leave. No path and no Welcome fails for any other reason. */
  lemma {:induction false} CommitMadeIff(env: Env, st: ClientState, o: CommitOptions, seed: Secret)
    requires MemberOk(st) && GoodTree(st.tree)
    ensures Valid(st.tree) && HasLeaf(st.tree, st.privatePath.leaf)
    ensures var refs := FilterPendingProposals(env, st, o.extra);
      CreateCommit(env, st, o, seed).Ok? <==>
        && st.active == IsActive && refs.Ok?
        && var applied :=
             ApplyProposals(env, st, Proposed(refs.value, o), Some(st.privatePath.leaf), true, None, MemberType);
           && applied.Ok?
           && (o.patch.Some? ==>
                 PatchFits(env, st, o, seed, CheckedContext(st, applied.value.kind), applied.value.tree))
  {
    MemberHasLeaf(st);
    hide MemberOk, ApplyProposals, GoodTree, FilterPendingProposals, CheckedContext, PatchFits, CreateCommit, DraftPath;
    DraftSuffices(env, st, o, seed);
    var refs := FilterPendingProposals(env, st, o.extra);
    if refs.Ok? {
      var applied :=
        ApplyProposals(env, st, Proposed(refs.value, o), Some(st.privatePath.leaf), true, None, MemberType);
      if applied.Ok? { DraftIff(env, st, o, seed, refs.value, applied.value); }
    }
  }
}

/** Choosing which pending proposals to commit (filterPendingProposals in
    src/create-commit.ts, validateProposalOnReceipt in src/client-state.ts). */
module FilterPending {
  import opened Options
  import opened Terms
  import opened TreeMath
  import opened RatchetTree
  import opened LeafValidation
  import opened ClientStates
  import opened Proposals
  import opened UnmergedLeaves
  import opened Membership

  function WithoutRequired(exts: seq<Extension>): seq<Extension> {
    if exts == [] then []
    else (if exts[0].RequiredCapabilities? then [] else [exts[0]]) + WithoutRequired(exts[1..])
  }

  /** withoutLeavesMatching: the nodes of `t` from `x` on, each match removed from `acc`. */
  function WithoutMatching(env: Env, kp: KeyPackage, t: Tree, x: nat, acc: Tree): Result<Tree>
    requires Valid(acc)
    decreases |t| - x
  {
    if x >= |t| then Ok(acc)
    else if NodeLeaf(t, x).None? || !env.matchesLeaf(kp, NodeLeaf(t, x).value) then
      WithoutMatching(env, kp, t, x + 1, acc)
    else
      RemoveLeafAt(acc, x / 2);
      var next :- RemoveLeaf(acc, x / 2);
      WithoutMatching(env, kp, t, x + 1, next)
  }

  /** validateProposalOnReceipt; Err is the exception an Add can raise. */
  function OnReceipt(
      env: Env, gc: GroupContext, t: Tree, p: Proposal, sender: Option<nat>, sentByClient: bool): Result<bool>
    requires Valid(t)
  {
    var context := gc.(extensions := WithoutRequired(gc.extensions));
    match p
    case Remove(r) => Ok(At(t, 2 * r).Some?)
    case Add(kp) =>
      var rest :- WithoutMatching(env, kp, t, 0, t);
      Ok(KeyPackageOk(env, kp, context, rest, sentByClient))
    case Update(leaf) =>
      Ok(sender.Some?
        && !(LeafAt(t, sender.value).Some? && LeafAt(t, sender.value).value.hpkeKey == leaf.hpkeKey)
        && leaf.source.FromUpdate?
        && UpdateOrCommitOk(env, leaf, sender.value, context, t, LeafCredential(t, sender.value)))
    case Psk(id) => Ok(id.nonceFits && PsksOk([id], gc))
    case ExternalInit(_) => Ok(false)
    case _ => Ok(true)
  }

  // ---- the loop ----

  datatype Kept = Kept(tree: Tree, removed: set<nat>, kept: seq<Pending>)

  predicate Seen(kept: seq<Pending>, p: Proposal) {
    exists q | q in kept :: q.item.proposal == p
  }

  predicate OutdatedUpdate(item: ProposalWithSender, own: nat, removed: set<nat>) {
    item.proposal.Update? && item.leaf.Some? && (item.leaf.value == own || item.leaf.value in removed)
  }

  /** One pending proposal: kept, dropped, or an exception. */
  function KeepStep(env: Env, gc: GroupContext, own: nat, k: Kept, p: Pending): (r: Result<Kept>)
    requires Valid(k.tree)
    ensures r.Ok? ==> Valid(r.value.tree)
  {
    if Seen(k.kept, p.item.proposal) || OutdatedUpdate(p.item, own, k.removed) then Ok(k) else
    var ok :- OnReceipt(env, gc, k.tree, p.item.proposal, p.item.leaf, p.item.leaf == Some(own));
    if !ok then Ok(k) else
    match p.item.proposal
    case Remove(r) =>
      RemoveLeafAt(k.tree, r);
      var t :- RemoveLeaf(k.tree, r);
      Ok(Kept(t, k.removed + {r}, k.kept + [p]))
    case _ => Ok(k.(kept := k.kept + [p]))
  }

  function KeepAll(env: Env, gc: GroupContext, own: nat, k: Kept, ps: seq<Pending>): Result<Kept>
    requires Valid(k.tree)
    decreases |ps|
  {
    if ps == [] then Ok(k) else
    var next :- KeepStep(env, gc, own, k, ps[0]);
    KeepAll(env, gc, own, next, ps[1..])
  }

  function Removes(ps: seq<Pending>): (r: seq<Pending>)
    ensures forall p :: p in r <==> p in ps && p.item.proposal.Remove?
  {
    if ps == [] then [] else (if ps[0].item.proposal.Remove? then [ps[0]] else []) + Removes(ps[1..])
  }

  function Others(ps: seq<Pending>): (r: seq<Pending>)
    ensures forall p :: p in r <==> p in ps && !p.item.proposal.Remove?
  {
    if ps == [] then [] else (if ps[0].item.proposal.Remove? then [] else [ps[0]]) + Others(ps[1..])
  }

  // ---- the requirement the commit itself sets ----

  function GceOf(p: Proposal): seq<seq<Extension>> {
    if p.GroupContextExtensions? then [p.extensions] else []
  }

  function AllGces(kept: seq<Pending>, extra: seq<Proposal>): seq<seq<Extension>> {
    if kept != [] then GceOf(kept[0].item.proposal) + AllGces(kept[1..], extra)
    else if extra != [] then GceOf(extra[0]) + AllGces([], extra[1..])
    else []
  }

  function ExtensionsAfter(current: seq<Extension>, kept: seq<Pending>, extra: seq<Proposal>): seq<Extension> {
    var gces := AllGces(kept, extra);
    if gces == [] then current else Flatten(gces)
  }

  predicate Capable(p: Proposal, exts: seq<Extension>) {
    match p
    case Add(kp) => MeetsRequired(kp.leaf.capabilities, exts)
    case Update(leaf) => MeetsRequired(leaf.capabilities, exts)
    case _ => true
  }

  function CapableOnly(kept: seq<Pending>, exts: seq<Extension>): (r: seq<Pending>)
    ensures forall p :: p in r <==> p in kept && Capable(p.item.proposal, exts)
  {
    if kept == [] then []
    else (if Capable(kept[0].item.proposal, exts) then [kept[0]] else []) + CapableOnly(kept[1..], exts)
  }

  function Refs(ps: seq<Pending>): (r: seq<Ref>)
    ensures |r| == |ps| && forall i | 0 <= i < |ps| :: r[i] == ps[i].ref
  {
    seq(|ps|, i requires 0 <= i < |ps| => ps[i].ref)
  }

  function Start(t: Tree): Kept {
    Kept(t, {}, [])
  }

  /** The pending proposals chosen, in commit order. */
  function Chosen(env: Env, st: ClientState, extra: seq<Proposal>): Result<seq<Pending>>
    requires Valid(st.tree)
  {
    var k :- KeepAll(env, st.context, st.privatePath.leaf, Start(st.tree), Removes(st.pending) + Others(st.pending));
    Ok(CapableOnly(k.kept, ExtensionsAfter(st.context.extensions, k.kept, extra)))
  }

  function FilterPendingProposals(env: Env, st: ClientState, extra: seq<Proposal>): Result<seq<Ref>>
    requires Valid(st.tree)
  {
    var chosen :- Chosen(env, st, extra);
    Ok(Refs(chosen))
  }

  /** The loop as the source runs it; Err is the exception it lets through. */
  method RunFilter(env: Env, st: ClientState, extra: seq<Proposal>) returns (refs: Result<seq<Ref>>)
    requires Valid(st.tree)
    ensures refs == FilterPendingProposals(env, st, extra)
  {
    hide OnReceipt, RemoveLeaf, ExtensionsAfter, CapableOnly, Refs, BlankedAt, OutdatedUpdate, KeepAll, Seen;
    var own := st.privatePath.leaf;
    var ordered := Removes(st.pending) + Others(st.pending);
    var tree, removed, seen, kept := st.tree, {}, {}, [];
    NothingSeen();
    assert ordered[0..] == ordered;
    var n := 0;
    while n < |ordered|
      invariant 0 <= n <= |ordered| && Valid(tree)
      invariant KeepAll(env, st.context, own, Start(st.tree), ordered)
        == KeepAll(env, st.context, own, Kept(tree, removed, kept), ordered[n..])
      invariant forall p :: p in seen <==> Seen(kept, p)
    {
      var p := ordered[n];
      ghost var k := Kept(tree, removed, kept);
      KeepAllFrom(env, st.context, own, k, ordered, n);
      if p.item.proposal !in seen && !OutdatedUpdate(p.item, own, removed) {
        var ok := OnReceipt(env, st.context, tree, p.item.proposal, p.item.leaf, p.item.leaf == Some(own));
        if ok.Err? {
          return Err(ok.error);
        }
        if ok.value {
          if p.item.proposal.Remove? {
            RemoveLeafAt(tree, p.item.proposal.removed);
            var next := RemoveLeaf(tree, p.item.proposal.removed);
            if next.Err? {
              return Err(next.error);
            }
            removed := removed + {p.item.proposal.removed};
            tree := next.value;
          }
          SeenMore(kept, p);
          seen := seen + {p.item.proposal};
          kept := kept + [p];
        }
      }
      assert KeepStep(env, st.context, own, k, p) == Ok(Kept(tree, removed, kept));
      n := n + 1;
    }
    assert ordered[n..] == [];
    KeepAllDone(env, st.context, own, Kept(tree, removed, kept));
    return Ok(Refs(CapableOnly(kept, ExtensionsAfter(st.context.extensions, kept, extra))));
  }

  lemma {:induction false} NothingSeen()
    ensures forall p :: !Seen([], p)
  {
  }

  lemma {:induction false} KeepAllDone(env: Env, gc: GroupContext, own: nat, k: Kept)
    requires Valid(k.tree)
    ensures KeepAll(env, gc, own, k, []) == Ok(k)
  {
  }

  lemma {:induction false} KeepAllFrom(env: Env, gc: GroupContext, own: nat, k: Kept, ps: seq<Pending>, n: nat)
    requires Valid(k.tree) && n < |ps|
    ensures KeepAll(env, gc, own, k, ps[n..]) ==
      if KeepStep(env, gc, own, k, ps[n]).Err? then KeepStep(env, gc, own, k, ps[n])
      else KeepAll(env, gc, own, KeepStep(env, gc, own, k, ps[n]).value, ps[n + 1..])
  {
    assert ps[n..] == [ps[n]] + ps[n + 1..];
  }

  lemma {:induction false} SeenMore(kept: seq<Pending>, p: Pending)
    ensures forall q :: Seen(kept + [p], q) <==> Seen(kept, q) || q == p.item.proposal
  {
    assert p in kept + [p];
    forall q: Proposal | Seen(kept, q) ensures Seen(kept + [p], q) {
      var r :| r in kept && r.item.proposal == q;
      assert r in kept + [p];
    }
  }

  // ---- what is kept ----

  /** Kept so far: each proposal once, each Remove of a member not yet removed,
      no Update of this member's own leaf or of a removed one. */
  ghost predicate KeptOk(t: Tree, own: nat, k: Kept) {
    && Valid(k.tree)
    && (forall i, j | 0 <= i < j < |k.kept| :: k.kept[i].item.proposal != k.kept[j].item.proposal)
    && (forall p | p in k.kept && p.item.proposal.Remove? :: p.item.proposal.removed in k.removed)
    && (forall r | r in k.removed :: HasLeaf(t, r) && Seen(k.kept, Remove(r)))
    && (forall p | p in k.kept :: !OutdatedUpdate(p.item, own, k.removed))
    && (forall l: nat :: HasLeaf(k.tree, l) <==> HasLeaf(t, l) && l !in k.removed)
    && (forall l: nat | l !in k.removed :: At(k.tree, 2 * l) == At(t, 2 * l))
  }

  predicate NoUpdates(ps: seq<Pending>) {
    forall p | p in ps :: !p.item.proposal.Update?
  }

  lemma {:induction false} KeepRemoveOk(env: Env, gc: GroupContext, t: Tree, own: nat, k: Kept, p: Pending)
    requires KeptOk(t, own, k) && KeepStep(env, gc, own, k, p).Ok? && p.item.proposal.Remove? && NoUpdates(k.kept)
    ensures var r := KeepStep(env, gc, own, k, p).value;
      && KeptOk(t, own, r) && (r.kept == k.kept || r.kept == k.kept + [p])
      && (HasLeaf(t, p.item.proposal.removed) ==> p.item.proposal.removed in r.removed)
      && k.removed <= r.removed
  {
    hide UpdateOrCommitOk, KeyPackageOk, PsksOk, WithoutMatching, Valid;
    var r, l := KeepStep(env, gc, own, k, p).value, p.item.proposal.removed;
    SeenMore(k.kept, p);
    if At(k.tree, 2 * l).Some? { EvenIsLeaf(k.tree, l); }
    if r.kept == k.kept + [p] {
      AppendApart(k.kept, p);
      RemoveLeafAt(k.tree, l);
      hide RemoveLeaf;
      forall m: nat ensures At(r.tree, 2 * m) == if m == l then None else At(k.tree, 2 * m) {
        assert At(r.tree, 2 * m) == BlankedAt(k.tree, l, None, 2 * m);
      }
    } else if Seen(k.kept, p.item.proposal) {
      var q :| q in k.kept && q.item.proposal == p.item.proposal;
    }
  }

  lemma {:induction false} KeepOtherOk(env: Env, gc: GroupContext, t: Tree, own: nat, k: Kept, p: Pending)
    requires KeptOk(t, own, k) && KeepStep(env, gc, own, k, p).Ok? && !p.item.proposal.Remove?
    ensures var r := KeepStep(env, gc, own, k, p).value;
      KeptOk(t, own, r) && (r.kept == k.kept || r.kept == k.kept + [p]) && r.tree == k.tree && r.removed == k.removed
  {
    hide OnReceipt, Valid, RemoveLeaf;
    SeenMore(k.kept, p);
    if KeepStep(env, gc, own, k, p).value.kept == k.kept + [p] { AppendApart(k.kept, p); }
  }

  lemma {:induction false} AppendApart(kept: seq<Pending>, p: Pending)
    requires forall i, j | 0 <= i < j < |kept| :: kept[i].item.proposal != kept[j].item.proposal
    ensures !Seen(kept, p.item.proposal) ==>
      forall i, j | 0 <= i < j < |kept + [p]| :: (kept + [p])[i].item.proposal != (kept + [p])[j].item.proposal
  {
    var r := kept + [p];
    if !Seen(kept, p.item.proposal) {
      forall i, j | 0 <= i < j < |r| ensures r[i].item.proposal != r[j].item.proposal {
        if j == |kept| { assert r[i] == kept[i] && kept[i] in kept; }
      }
    }
  }

  lemma {:induction false} KeepStepOk(env: Env, gc: GroupContext, t: Tree, own: nat, k: Kept, p: Pending)
    requires KeptOk(t, own, k) && KeepStep(env, gc, own, k, p).Ok?
    requires p.item.proposal.Remove? ==> NoUpdates(k.kept)
    ensures var r := KeepStep(env, gc, own, k, p).value;
      && KeptOk(t, own, r) && (r.kept == k.kept || r.kept == k.kept + [p])
      && (p.item.proposal.Remove? && HasLeaf(t, p.item.proposal.removed) ==> p.item.proposal.removed in r.removed)
      && (!p.item.proposal.Remove? ==> r.tree == k.tree && r.removed == k.removed)
      && k.removed <= r.removed
  {
    assert Valid(k.tree);
    hide KeptOk, KeepStep;
    if p.item.proposal.Remove? { KeepRemoveOk(env, gc, t, own, k, p); } else { KeepOtherOk(env, gc, t, own, k, p); }
  }

  /** The list's kept proposals, and which leaves they remove. */
  lemma {:induction false} KeepAllOk(env: Env, gc: GroupContext, t: Tree, own: nat, k: Kept, ps: seq<Pending>)
    requires KeptOk(t, own, k) && KeepAll(env, gc, own, k, ps).Ok?
    requires NoUpdates(k.kept) || forall p | p in ps :: !p.item.proposal.Remove?
    requires forall i, j | 0 <= i < j < |ps| && ps[j].item.proposal.Remove? :: ps[i].item.proposal.Remove?
    ensures var r := KeepAll(env, gc, own, k, ps).value;
      && KeptOk(t, own, r) && k.removed <= r.removed
      && (forall p | p in r.kept :: p in k.kept || p in ps)
      && (forall p | p in ps && p.item.proposal.Remove? && HasLeaf(t, p.item.proposal.removed) ::
            p.item.proposal.removed in r.removed)
    decreases |ps|
  {
    if ps != [] {
      KeepStepOk(env, gc, t, own, k, ps[0]);
      var next, rest := KeepStep(env, gc, own, k, ps[0]).value, ps[1..];
      forall i, j | 0 <= i < j < |rest| && rest[j].item.proposal.Remove? ensures rest[i].item.proposal.Remove? {
        assert rest[i] == ps[i + 1] && rest[j] == ps[j + 1];
      }
      if !ps[0].item.proposal.Remove? {
        forall p | p in rest ensures !p.item.proposal.Remove? {
          var j :| 0 <= j < |rest| && rest[j] == p;
          assert ps[j + 1] == p;
        }
      }
      KeepAllOk(env, gc, t, own, next, rest);
    }
  }

  // ---- the working tree ----

  /** The leaves the kept Removes name, in order. */
  function RemovedOf(kept: seq<Pending>): seq<nat> {
    if kept == [] then [] else
    (if kept[0].item.proposal.Remove? then [kept[0].item.proposal.removed] else []) + RemovedOf(kept[1..])
  }

  /** The working tree is what the commit's fold makes of the Removes kept so far. */
  ghost predicate TreeFits(t: Tree, k: Kept) {
    && Valid(t) && Valid(k.tree) && FoldRemoves(t, t, RemovedOf(k.kept)) == Ok(k.tree)
    && forall l: nat :: At(k.tree, 2 * l).Some? ==> At(t, 2 * l).Some?
  }

  lemma {:induction false} RemovedOfAppend(kept: seq<Pending>, p: Pending)
    ensures RemovedOf(kept + [p])
      == RemovedOf(kept) + (if p.item.proposal.Remove? then [p.item.proposal.removed] else [])
  {
    var all, last := kept + [p], if p.item.proposal.Remove? then [p.item.proposal.removed] else [];
    if kept == [] {
      assert all == [p] && [p][1..] == [];
      assert RemovedOf([p]) == last + RemovedOf([]);
    } else {
      var first := if kept[0].item.proposal.Remove? then [kept[0].item.proposal.removed] else [];
      assert all[0] == kept[0] && all[1..] == kept[1..] + [p];
      RemovedOfAppend(kept[1..], p);
      assert first + (RemovedOf(kept[1..]) + last) == (first + RemovedOf(kept[1..])) + last;
    }
  }

  lemma {:induction false} FoldOneMore(orig: Tree, t: Tree, removes: seq<nat>, r: nat)
    requires Valid(t) && FoldRemoves(orig, t, removes).Ok?
    ensures var u := FoldRemoves(orig, t, removes).value;
      Valid(u) && (At(orig, 2 * r).Some? && 2 * r < |u| && RemoveLeaf(u, r).Ok? ==>
        FoldRemoves(orig, t, removes + [r]) == RemoveLeaf(u, r))
    decreases |removes|
  {
    hide RemoveLeaf;
    if removes == [] {
      RemoveLeafAt(t, r);
      assert removes + [r] == [r] && [r][1..] == [];
    } else {
      RemoveLeafAt(t, removes[0]);
      assert (removes + [r])[1..] == removes[1..] + [r];
      FoldOneMore(orig, RemoveLeaf(t, removes[0]).value, removes[1..], r);
    }
  }

  lemma {:induction false} KeepStepTree(env: Env, gc: GroupContext, t: Tree, own: nat, k: Kept, p: Pending)
    requires TreeFits(t, k) && KeepStep(env, gc, own, k, p).Ok?
    ensures TreeFits(t, KeepStep(env, gc, own, k, p).value)
  {
    hide UpdateOrCommitOk, KeyPackageOk, PsksOk, WithoutMatching, FoldRemoves, Valid;
    var r := KeepStep(env, gc, own, k, p).value;
    assert Valid(k.tree);
    RemovedOfAppend(k.kept, p);
    if r.kept == k.kept + [p] && p.item.proposal.Remove? {
      var l := p.item.proposal.removed;
      RemoveLeafAt(k.tree, l);
      hide RemoveLeaf;
      FoldOneMore(t, t, RemovedOf(k.kept), l);
      forall m: nat ensures At(r.tree, 2 * m).Some? ==> At(t, 2 * m).Some? {
        assert At(r.tree, 2 * m) == BlankedAt(k.tree, l, None, 2 * m);
      }
    } else {
      assert RemovedOf(k.kept) + [] == RemovedOf(k.kept);
    }
  }

  lemma {:induction false} KeepAllTree(env: Env, gc: GroupContext, t: Tree, own: nat, k: Kept, ps: seq<Pending>)
    requires TreeFits(t, k) && KeepAll(env, gc, own, k, ps).Ok?
    ensures TreeFits(t, KeepAll(env, gc, own, k, ps).value)
    decreases |ps|
  {
    hide KeepStep, TreeFits;
    if ps != [] {
      assert Valid(k.tree) by { FitsValid(t, k); }
      KeepStepTree(env, gc, t, own, k, ps[0]);
      KeepAllTree(env, gc, t, own, KeepStep(env, gc, own, k, ps[0]).value, ps[1..]);
    }
  }

  lemma {:induction false} FitsValid(t: Tree, k: Kept)
    requires TreeFits(t, k)
    ensures Valid(k.tree)
  {
  }

  lemma {:induction false} CapableRemoved(kept: seq<Pending>, exts: seq<Extension>)
    ensures RemovedOf(CapableOnly(kept, exts)) == RemovedOf(kept)
  {
    if kept != [] {
      CapableRemoved(kept[1..], exts);
      var rest := CapableOnly(kept[1..], exts);
      assert ([kept[0]] + rest)[1..] == rest;
      assert [] + rest == rest;
    }
  }

  /** The Removes a successful filter chooses apply in order: the commit's own
      fold of them takes the tree to the one the filter ended with. */
  lemma {:induction false} ChosenRemovesApply(env: Env, st: ClientState, extra: seq<Proposal>)
    requires Valid(st.tree) && Chosen(env, st, extra).Ok?
    ensures var c, k := Chosen(env, st, extra).value,
        KeepAll(env, st.context, st.privatePath.leaf, Start(st.tree), Removes(st.pending) + Others(st.pending)).value;
      FoldRemoves(st.tree, st.tree, RemovedOf(c)) == Ok(k.tree)
  {
    hide KeepStep, FoldRemoves;
    var own, ordered := st.privatePath.leaf, Removes(st.pending) + Others(st.pending);
    assert TreeFits(st.tree, Start(st.tree)) by { NothingRemoved(st.tree); }
    KeepAllTree(env, st.context, st.tree, own, Start(st.tree), ordered);
    var k := KeepAll(env, st.context, own, Start(st.tree), ordered).value;
    CapableRemoved(k.kept, ExtensionsAfter(st.context.extensions, k.kept, extra));
  }

  lemma {:induction false} NothingRemoved(t: Tree)
    requires Valid(t)
    ensures TreeFits(t, Start(t))
  {
  }

  lemma {:induction false} RemovesFirst(ps: seq<Pending>)
    ensures var o := Removes(ps) + Others(ps);
      (forall i, j | 0 <= i < j < |o| && o[j].item.proposal.Remove? :: o[i].item.proposal.Remove?)
      && (forall p :: p in o <==> p in ps)
  {
    var a, b := Removes(ps), Others(ps);
    var o: seq<Pending> := a + b;
    forall j | |a| <= j < |o| ensures !o[j].item.proposal.Remove? { assert o[j] == b[j - |a|]; }
    forall i | 0 <= i < |a| ensures o[i].item.proposal.Remove? { assert o[i] == a[i]; }
  }

  /** Proposals, by position, are pairwise different. */
  ghost predicate NoRepeats(ps: seq<Pending>) {
    forall i, j | 0 <= i < j < |ps| :: ps[i].item.proposal != ps[j].item.proposal
  }

  lemma {:induction false} CapableNoRepeats(kept: seq<Pending>, exts: seq<Extension>)
    requires NoRepeats(kept)
    ensures NoRepeats(CapableOnly(kept, exts))
    decreases |kept|
  {
    if kept != [] {
      var rest := kept[1..];
      assert forall i | 0 <= i < |rest| :: rest[i] == kept[i + 1];
      CapableNoRepeats(rest, exts);
      forall p | p in CapableOnly(rest, exts) ensures p.item.proposal != kept[0].item.proposal {
        var i :| 0 <= i < |rest| && rest[i] == p;
        assert kept[i + 1] == p;
      }
    }
  }

  /** What a successful filter hands to the commit: pending proposals, none
      twice, every Remove of a member and every member pending removal exactly
      once, and no Update by the committer or by a member being removed. The
      commit's fold of those Removes succeeds and removes just those members. */
  lemma {:induction false} FilterKeeps(env: Env, st: ClientState, extra: seq<Proposal>)
    requires Valid(st.tree) && Chosen(env, st, extra).Ok?
    ensures var c := Chosen(env, st, extra).value;
      && NoRepeats(c)
      && (forall p | p in c :: p in st.pending)
      && (forall p | p in c && p.item.proposal.Remove? :: HasLeaf(st.tree, p.item.proposal.removed))
      && (forall p | p in st.pending && p.item.proposal.Remove? && HasLeaf(st.tree, p.item.proposal.removed) ::
            Seen(c, p.item.proposal))
      && (forall p | p in c && p.item.proposal.Update? && p.item.leaf.Some? ::
            p.item.leaf.value != st.privatePath.leaf && !Seen(c, Remove(p.item.leaf.value)))
      && FoldRemoves(st.tree, st.tree, RemovedOf(c)).Ok?
      && forall l: nat :: HasLeaf(FoldRemoves(st.tree, st.tree, RemovedOf(c)).value, l) <==>
           HasLeaf(st.tree, l) && !Seen(c, Remove(l))
  {
    hide OnReceipt, KeepStep, FoldRemoves;
    ChosenRemovesApply(env, st, extra);
    var own, ordered := st.privatePath.leaf, Removes(st.pending) + Others(st.pending);
    RemovesFirst(st.pending);
    KeepAllOk(env, st.context, st.tree, own, Start(st.tree), ordered);
    var k := KeepAll(env, st.context, own, Start(st.tree), ordered).value;
    var exts := ExtensionsAfter(st.context.extensions, k.kept, extra);
    CapableNoRepeats(k.kept, exts);
    var c := CapableOnly(k.kept, exts);
    forall r | r in k.removed ensures Seen(c, Remove(r)) {
      var q :| q in k.kept && q.item.proposal == Remove(r);
      assert q in c;
    }
    forall p | p in c && p.item.proposal.Update? && p.item.leaf.Some? ensures !Seen(c, Remove(p.item.leaf.value)) {
      assert !OutdatedUpdate(p.item, own, k.removed);
      forall q | q in c ensures q.item.proposal != Remove(p.item.leaf.value) { assert q in k.kept; }
    }
  }

  // ---- the exception ----

  ghost predicate SomeMember(t: Tree) {
    exists l: nat :: HasLeaf(t, l)
  }

  /** A Remove among `ps` names leaf `l`. */
  predicate NamedBy(ps: seq<Pending>, l: nat) {
    exists p | p in ps :: p.item.proposal == Remove(l)
  }

  ghost predicate AllNamed(t: Tree, ps: seq<Pending>) {
    forall l: nat | HasLeaf(t, l) :: NamedBy(ps, l)
  }

  ghost predicate AllMatch(env: Env, t: Tree, kp: KeyPackage) {
    forall l: nat | HasLeaf(t, l) :: env.matchesLeaf(kp, LeafAt(t, l).value)
  }

  /** Below a non-blank parent there are two members. */
  lemma {:induction false} TwoMembers(t: Tree, x: nat) returns (a: nat, b: nat)
    requires TreeOk(t) && x % 2 == 1 && At(t, x).Some?
    ensures HasLeaf(t, a) && HasLeaf(t, b) && a < b
  {
    Children(x);
    a :| HasLeaf(t, a) && Under(2 * a, Left(x));
    b :| HasLeaf(t, b) && Under(2 * b, Right(x));
  }

  /** Removing a leaf fails exactly when it is the only one. */
  lemma {:induction false} RemoveFailsIff(t: Tree, l: nat)
    requires TreeOk(t) && HasLeaf(t, l)
    ensures RemoveLeaf(t, l).Err? <==> forall m: nat | HasLeaf(t, m) :: m == l
  {
    RemoveLeafAt(t, l);
    if forall m: nat | HasLeaf(t, m) :: m == l {
      forall x: nat ensures BlankedAt(t, l, None, x) == None {
        if x % 2 == 0 {
          if At(t, 2 * (x / 2)).Some? { EvenIsLeaf(t, x / 2); }
        } else if At(t, x).Some? {
          var a, b := TwoMembers(t, x);
        }
      }
    }
    if m: nat :| HasLeaf(t, m) && m != l {
      assert BlankedAt(t, l, None, 2 * m) == At(t, 2 * m);
    }
  }

  lemma {:induction false} NamedStep(ps: seq<Pending>, l: nat)
    requires ps != []
    ensures NamedBy(ps, l) <==> ps[0].item.proposal == Remove(l) || NamedBy(ps[1..], l)
  {
    assert ps == [ps[0]] + ps[1..];
    if NamedBy(ps[1..], l) {
      var p :| p in ps[1..] && p.item.proposal == Remove(l);
      assert p in ps;
    }
  }

  /** A Remove of a member still there: it throws when that member is the last. */
  lemma {:induction false} RemoveOfMember(env: Env, gc: GroupContext, t: Tree, own: nat, k: Kept, p: Pending, l: nat)
    requires KeptOk(t, own, k) && TreeOk(k.tree) && NoUpdates(k.kept)
    requires p.item.proposal == Remove(l) && HasLeaf(k.tree, l)
    ensures var r := KeepStep(env, gc, own, k, p);
      && (r.Err? <==> forall m: nat | HasLeaf(k.tree, m) :: m == l)
      && (r.Ok? ==> KeptOk(t, own, r.value) && TreeOk(r.value.tree) && r.value.kept == k.kept + [p])
      && (r.Ok? ==> forall m: nat :: HasLeaf(r.value.tree, m) <==> HasLeaf(k.tree, m) && m != l)
  {
    RemoveFailsIff(k.tree, l);
    RemoveLeafAt(k.tree, l);
    assert !Seen(k.kept, Remove(l));
    if RemoveLeaf(k.tree, l).Ok? {
      RemoveKeepsTree(k.tree, l);
      KeepStepOk(env, gc, t, own, k, p);
      var next := KeepStep(env, gc, own, k, p).value;
      forall m: nat ensures HasLeaf(next.tree, m) <==> HasLeaf(k.tree, m) && m != l {
        assert At(next.tree, 2 * m) == BlankedAt(k.tree, l, None, 2 * m);
      }
    }
  }

  /** The Removes throw exactly when together they name everyone. */
  lemma {:induction false} RemovesThrow(env: Env, gc: GroupContext, t: Tree, own: nat, k: Kept, rs: seq<Pending>)
    requires KeptOk(t, own, k) && TreeOk(k.tree) && SomeMember(k.tree) && NoUpdates(k.kept)
    requires forall p | p in rs :: p.item.proposal.Remove?
    ensures KeepAll(env, gc, own, k, rs).Err? <==> AllNamed(k.tree, rs)
    ensures var r := KeepAll(env, gc, own, k, rs);
      r.Ok? ==> KeptOk(t, own, r.value) && TreeOk(r.value.tree) && SomeMember(r.value.tree)
    ensures var r := KeepAll(env, gc, own, k, rs);
      r.Ok? ==> forall l: nat :: HasLeaf(r.value.tree, l) <==> HasLeaf(k.tree, l) && !NamedBy(rs, l)
    decreases |rs|
  {
    if rs == [] {
      var l: nat :| HasLeaf(k.tree, l);
      assert !NamedBy(rs, l);
    } else {
      var l, rest := rs[0].item.proposal.removed, rs[1..];
      forall m: nat { NamedStep(rs, m); }
      var step := KeepStep(env, gc, own, k, rs[0]);
      if HasLeaf(k.tree, l) {
        RemoveOfMember(env, gc, t, own, k, rs[0], l);
        if step.Ok? {
          var m: nat :| HasLeaf(k.tree, m) && m != l;
          assert HasLeaf(step.value.tree, m);
          RemovesThrow(env, gc, t, own, step.value, rest);
        }
      } else {
        if At(k.tree, 2 * l).Some? { EvenIsLeaf(k.tree, l); }
        assert KeepStep(env, gc, own, k, rs[0]) == Ok(k);
        RemovesThrow(env, gc, t, own, k, rest);
      }
    }
  }

  /** Removing every leaf an Add matches throws exactly when it matches them all. */
  lemma {:induction false} MatchingThrows(env: Env, kp: KeyPackage, t: Tree, x: nat, acc: Tree)
    requires Valid(t) && TreeOk(acc) && SomeMember(acc)
    requires forall l: nat | HasLeaf(acc, l) :: HasLeaf(t, l)
    requires forall l: nat | HasLeaf(t, l) && x <= 2 * l :: HasLeaf(acc, l)
    ensures WithoutMatching(env, kp, t, x, acc).Err?
      <==> forall l: nat | HasLeaf(acc, l) :: x <= 2 * l && env.matchesLeaf(kp, LeafAt(t, l).value)
    decreases |t| - x
  {
    hide Lo, Hi;
    if x >= |t| {
      var l: nat :| HasLeaf(acc, l);
    } else {
      NodeLeafIs(t, x);
      var l := x / 2;
      if NodeLeaf(t, x).None? {
        forall m: nat | HasLeaf(t, m) ensures x <= 2 * m <==> x + 1 <= 2 * m {}
        MatchingThrows(env, kp, t, x + 1, acc);
      } else if !env.matchesLeaf(kp, NodeLeaf(t, x).value) {
        assert HasLeaf(acc, l);
        MatchingThrows(env, kp, t, x + 1, acc);
      } else {
        assert HasLeaf(acc, l);
        RemoveFailsIff(acc, l);
        RemoveLeafAt(acc, l);
        if RemoveLeaf(acc, l).Ok? {
          var next := RemoveLeaf(acc, l).value;
          RemoveKeepsTree(acc, l);
          forall m: nat ensures HasLeaf(next, m) <==> HasLeaf(acc, m) && m != l {
            assert At(next, 2 * m) == BlankedAt(acc, l, None, 2 * m);
          }
          MatchingThrows(env, kp, t, x + 1, next);
        }
      }
    }
  }

  lemma {:induction false} OthersThrow(env: Env, gc: GroupContext, own: nat, k: Kept, os: seq<Pending>)
    requires TreeOk(k.tree) && SomeMember(k.tree)
    requires forall p | p in os :: !p.item.proposal.Remove?
    requires forall q | q in k.kept && q.item.proposal.Add? :: !AllMatch(env, k.tree, q.item.proposal.keyPackage)
    ensures KeepAll(env, gc, own, k, os).Err?
      <==> exists p :: p in os && p.item.proposal.Add? && AllMatch(env, k.tree, p.item.proposal.keyPackage)
    decreases |os|
  {
    if os != [] {
      var p, rest := os[0], os[1..];
      assert os == [p] + rest;
      if p.item.proposal.Add? {
        MatchingThrows(env, p.item.proposal.keyPackage, k.tree, 0, k.tree);
      }
      var step := KeepStep(env, gc, own, k, p);
      if step.Ok? {
        OthersThrow(env, gc, own, step.value, rest);
      }
    }
  }

  /** A pending Add matches every member that no pending Remove names. */
  ghost predicate AddMatchesRest(env: Env, t: Tree, ps: seq<Pending>, p: Pending) {
    && p in ps && p.item.proposal.Add?
    && forall l: nat | HasLeaf(t, l) && !NamedBy(ps, l) ::
      env.matchesLeaf(p.item.proposal.keyPackage, LeafAt(t, l).value)
  }

  /** The filter drops what it cannot commit, with one exception: it throws, and
      the member can make no commit at all, exactly when the pending Removes
      name every member, or a pending Add matches every member they do not name. */
  lemma {:induction false} FilterThrowsIff(env: Env, st: ClientState, extra: seq<Proposal>)
    requires TreeOk(st.tree) && SomeMember(st.tree)
    ensures FilterPendingProposals(env, st, extra).Err?
      <==> AllNamed(st.tree, st.pending) || exists p :: AddMatchesRest(env, st.tree, st.pending, p)
  {
    hide OnReceipt, UnmergedOk, BothSides, KeepStep;
    var own, rs, os := st.privatePath.leaf, Removes(st.pending), Others(st.pending);
    var gc, t := st.context, st.tree;
    RemovesThrow(env, gc, t, own, Start(t), rs);
    forall l: nat ensures NamedBy(rs, l) <==> NamedBy(st.pending, l) {
      if NamedBy(rs, l) {
        var p :| p in rs && p.item.proposal == Remove(l);
        assert p in st.pending;
      }
      if NamedBy(st.pending, l) {
        var p :| p in st.pending && p.item.proposal == Remove(l);
        assert p in rs;
      }
    }
    KeepAllAppend(env, gc, own, Start(t), rs, os);
    if KeepAll(env, gc, own, Start(t), rs).Ok? {
      var k := KeepAll(env, gc, own, Start(t), rs).value;
      KeepAllOk(env, gc, t, own, Start(t), rs);
      OthersThrow(env, gc, own, k, os);
      forall p | p in os && p.item.proposal.Add?
        ensures AllMatch(env, k.tree, p.item.proposal.keyPackage) <==> AddMatchesRest(env, t, st.pending, p)
      {
        forall l: nat | HasLeaf(k.tree, l) ensures LeafAt(k.tree, l) == LeafAt(t, l) {}
      }
    }
  }

  lemma {:induction false} KeepAllAppend(
      env: Env, gc: GroupContext, own: nat, k: Kept, a: seq<Pending>, b: seq<Pending>)
    requires Valid(k.tree)
    ensures KeepAll(env, gc, own, k, a).Err? ==> KeepAll(env, gc, own, k, a + b).Err?
    ensures KeepAll(env, gc, own, k, a).Ok? ==>
      var r := KeepAll(env, gc, own, k, a).value;
      Valid(r.tree) && KeepAll(env, gc, own, k, a + b) == KeepAll(env, gc, own, r, b)
    decreases |a|
  {
    if a == [] {
      assert a + b == b;
    } else {
      assert (a + b)[1..] == a[1..] + b;
      if KeepStep(env, gc, own, k, a[0]).Ok? {
        KeepAllAppend(env, gc, own, KeepStep(env, gc, own, k, a[0]).value, a[1..], b);
      }
    }
  }
}

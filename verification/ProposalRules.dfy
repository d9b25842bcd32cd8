/** What a commit's list of proposals must be, said of the list itself
    (section 12.2 of RFC 9420, validateProposals in src/client-state.ts). */
module ProposalRules {
  import opened Options
  import opened Terms
  import opened TreeMath
  import opened RatchetTree
  import opened UpdatePaths
  import opened LeafValidation
  import opened ClientStates
  import opened Proposals
  import opened Membership

  // ---- the proposals of one kind ----

  type Pick<T> = ProposalWithSender -> Option<T>

  /** What `pick` gives of each proposal it gives anything of, in order. */
  function Picked<T>(all: seq<ProposalWithSender>, pick: Pick<T>): seq<T> {
    if all == [] then [] else
    var n := |all| - 1;
    Picked(all[..n], pick) + (if pick(all[n]).Some? then [pick(all[n]).value] else [])
  }

  lemma {:induction false} PickedIff<T(!new)>(all: seq<ProposalWithSender>, pick: Pick<T>, x: T)
    ensures x in Picked(all, pick) <==> exists p :: p in all && pick(p) == Some(x)
  {
    if all != [] {
      var n := |all| - 1;
      PickedIff(all[..n], pick, x);
      assert all == all[..n] + [all[n]];
      if pick(all[n]) == Some(x) { assert all[n] in all; }
      if p :| p in all[..n] && pick(p) == Some(x) { assert p in all; }
    }
  }

  /** The list's `i`th and `j`th proposals, both picked, are related. */
  ghost predicate PairOk<T(!new)>(
      all: seq<ProposalWithSender>, pick: Pick<T>, rel: (T, T) -> bool, i: nat, j: nat)
    requires i < |all| && j < |all|
  {
    pick(all[i]).Some? && pick(all[j]).Some? ==> rel(pick(all[i]).value, pick(all[j]).value)
  }

  ghost predicate AllPairs<T(!new)>(all: seq<ProposalWithSender>, pick: Pick<T>, rel: (T, T) -> bool) {
    forall i, j | 0 <= i < j < |all| :: PairOk(all, pick, rel, i, j)
  }

  ghost predicate PairsIn<T(!new)>(xs: seq<T>, rel: (T, T) -> bool) {
    forall i, j | 0 <= i < j < |xs| :: rel(xs[i], xs[j])
  }

  lemma {:induction false} PairsAppend<T(!new)>(xs: seq<T>, x: T, rel: (T, T) -> bool)
    ensures PairsIn(xs + [x], rel) <==> PairsIn(xs, rel) && forall y | y in xs :: rel(y, x)
  {
    var all := xs + [x];
    if PairsIn(all, rel) {
      forall i, j | 0 <= i < j < |xs| ensures rel(xs[i], xs[j]) { assert rel(all[i], all[j]); }
      forall y | y in xs ensures rel(y, x) {
        var i :| 0 <= i < |xs| && xs[i] == y;
        assert rel(all[i], all[|xs|]);
      }
    }
    if PairsIn(xs, rel) && forall y | y in xs :: rel(y, x) {
      forall i, j | 0 <= i < j < |all| ensures rel(all[i], all[j]) {
        if j == |xs| { assert xs[i] in xs; }
      }
    }
  }

  lemma {:induction false} AllPairsAppend<T(!new)>(
      front: seq<ProposalWithSender>, p: ProposalWithSender, pick: Pick<T>, rel: (T, T) -> bool)
    ensures AllPairs(front + [p], pick, rel) <==>
      && AllPairs(front, pick, rel)
      && (pick(p).Some? ==> forall q | q in front && pick(q).Some? :: rel(pick(q).value, pick(p).value))
  {
    var all, n := front + [p], |front|;
    if AllPairs(all, pick, rel) {
      forall i, j | 0 <= i < j < n ensures PairOk(front, pick, rel, i, j) { assert PairOk(all, pick, rel, i, j); }
      if pick(p).Some? {
        forall q | q in front && pick(q).Some? ensures rel(pick(q).value, pick(p).value) {
          var i :| 0 <= i < n && front[i] == q;
          assert PairOk(all, pick, rel, i, n);
        }
      }
    }
    if AllPairs(front, pick, rel) &&
       (pick(p).Some? ==> forall q | q in front && pick(q).Some? :: rel(pick(q).value, pick(p).value))
    {
      forall i, j | 0 <= i < j < |all| ensures PairOk(all, pick, rel, i, j) {
        if j == n { assert front[i] in front; } else { assert PairOk(front, pick, rel, i, j); }
      }
    }
  }

  lemma {:induction false} PairsAfter<T(!new)>(
      front: seq<ProposalWithSender>, pick: Pick<T>, rel: (T, T) -> bool, x: T)
    ensures (forall y | y in Picked(front, pick) :: rel(y, x))
      <==> forall q | q in front && pick(q).Some? :: rel(pick(q).value, x)
  {
    if forall y | y in Picked(front, pick) :: rel(y, x) {
      forall q | q in front && pick(q).Some? ensures rel(pick(q).value, x) { PickedIff(front, pick, pick(q).value); }
    }
    if forall q | q in front && pick(q).Some? :: rel(pick(q).value, x) {
      forall y | y in Picked(front, pick) ensures rel(y, x) {
        PickedIff(front, pick, y);
        var q :| q in front && pick(q) == Some(y);
        assert rel(pick(q).value, x);
      }
    }
  }

  /** Pairs of what is picked are pairs of the list. */
  lemma {:induction false} PickedPairs<T(!new)>(
      all: seq<ProposalWithSender>, pick: Pick<T>, rel: (T, T) -> bool)
    ensures PairsIn(Picked(all, pick), rel) <==> AllPairs(all, pick, rel)
    decreases |all|
  {
    if all != [] {
      var n := |all| - 1;
      var front, p := all[..n], all[n];
      assert all == front + [p];
      PickedPairs(front, pick, rel);
      AllPairsAppend(front, p, pick, rel);
      if pick(p).Some? {
        var x, xs := pick(p).value, Picked(front, pick);
        PairsAppend(xs, x, rel);
        PairsAfter(front, pick, rel, x);
        assert Picked(all, pick) == xs + [x];
        assert AllPairs(front + [p], pick, rel) <==> PairsIn(xs + [x], rel);
      } else {
        assert Picked(all, pick) == Picked(front, pick) + [] == Picked(front, pick);
      }
    }
  }

  lemma {:induction false} PickedNone<T(!new)>(all: seq<ProposalWithSender>, pick: Pick<T>)
    ensures Picked(all, pick) == [] <==> forall p | p in all :: pick(p).None?
  {
    if p :| p in all && pick(p).Some? { PickedIff(all, pick, pick(p).value); }
    if Picked(all, pick) != [] { PickedIff(all, pick, Picked(all, pick)[0]); }
  }

  lemma {:induction false} PickedOne<T(!new)>(all: seq<ProposalWithSender>, pick: Pick<T>)
    ensures |Picked(all, pick)| <= 1 <==> AllPairs(all, pick, (x, y) => false)
  {
    PickedPairs(all, pick, (x, y) => false);
    var xs := Picked(all, pick);
    if |xs| > 1 { assert !((x: T, y: T) => false)(xs[0], xs[1]); }
  }

  // ---- the kinds ----

  function UpdateOf(p: ProposalWithSender): Option<UpdateBy> {
    if p.proposal.Update? then Some(UpdateBy(p.leaf, p.proposal.leaf)) else None
  }

  function RemoveOf(p: ProposalWithSender): Option<nat> {
    if p.proposal.Remove? then Some(p.proposal.removed) else None
  }

  function AddOf(p: ProposalWithSender): Option<KeyPackage> {
    if p.proposal.Add? then Some(p.proposal.keyPackage) else None
  }

  function PskOf(p: ProposalWithSender): Option<PskId> {
    if p.proposal.Psk? then Some(p.proposal.id) else None
  }

  function ReinitOf(p: ProposalWithSender): Option<Reinit> {
    if p.proposal.ReinitProposal? then Some(p.proposal.reinit) else None
  }

  function ExternalInitOf(p: ProposalWithSender): Option<KemOutput> {
    if p.proposal.ExternalInit? then Some(p.proposal.kem) else None
  }

  function ContextExtensionsOf(p: ProposalWithSender): Option<seq<Extension>> {
    if p.proposal.GroupContextExtensions? then Some(p.proposal.extensions) else None
  }

  function CustomOf(p: ProposalWithSender): Option<nat> {
    if p.proposal.Custom? then Some(p.proposal.ptype) else None
  }

  /** Grouping picks each kind's proposals in order. */
  lemma {:induction false} GroupPicks(all: seq<ProposalWithSender>)
    ensures Group(all) == Grouped(
      Picked(all, UpdateOf), Picked(all, RemoveOf), Picked(all, AddOf), Picked(all, PskOf), Picked(all, ReinitOf),
      Picked(all, ExternalInitOf), Picked(all, ContextExtensionsOf), Picked(all, CustomOf))
    decreases |all|
  {
    if all != [] { GroupPicks(all[..|all| - 1]); }
  }

  // ---- the rules ----

  /** Two proposals touch one leaf: Updates by it, Removes of it, or one of each. */
  predicate SameLeaf(p: ProposalWithSender, q: ProposalWithSender) {
    || (p.proposal.Update? && q.proposal.Update? && p.leaf == q.leaf)
    || (p.proposal.Remove? && q.proposal.Remove? && p.proposal.removed == q.proposal.removed)
    || (p.proposal.Update? && q.proposal.Remove? && p.leaf == Some(q.proposal.removed))
    || (p.proposal.Remove? && q.proposal.Update? && q.leaf == Some(p.proposal.removed))
  }

  predicate SameClientTwice(env: Env, p: ProposalWithSender, q: ProposalWithSender) {
    && p.proposal.Add? && q.proposal.Add?
    && (env.sameClient(p.proposal.keyPackage, q.proposal.keyPackage)
        || env.sameClient(q.proposal.keyPackage, p.proposal.keyPackage))
  }

  predicate SameKindOnce(p: ProposalWithSender, q: ProposalWithSender) {
    || (p.proposal.Psk? && q.proposal.Psk? && p.proposal.id == q.proposal.id)
    || (p.proposal.GroupContextExtensions? && q.proposal.GroupContextExtensions?)
  }

  /** No two proposals of the list go against each other. */
  ghost predicate Compatible(env: Env, all: seq<ProposalWithSender>) {
    forall i, j | 0 <= i < j < |all| ::
      !SameLeaf(all[i], all[j]) && !SameClientTwice(env, all[i], all[j]) && !SameKindOnce(all[i], all[j])
  }

  /** Each proposal is one this committer may commit in this epoch. */
  predicate AllowedFor(env: Env, p: ProposalWithSender, committer: Option<nat>, gc: GroupContext) {
    match p.proposal
    case Update(_) => p.leaf.None? || p.leaf != committer
    case Remove(r) => Some(r) != committer
    case Psk(id) => id.ResumptionPsk? ==> id.usage.ApplicationUsage? || gc.epoch == 0
    case GroupContextExtensions(exts) => env.externalSendersOk(exts)
    case _ => true
  }

  /** A leaf an Add's client already has goes in the same commit. */
  ghost predicate Rejoins(env: Env, all: seq<ProposalWithSender>, t: Tree) {
    forall p, l: nat | p in all && p.proposal.Add? && HasLeaf(t, l)
      && env.matchesLeaf(p.proposal.keyPackage, LeafAt(t, l).value) ::
      exists q :: q in all && q.proposal == Remove(l)
  }

  /** Lists every extension of its own type that `exts` has. */
  predicate Supports(exts: seq<Extension>, caps: Capabilities) {
    forall e | e in exts && e.CustomExtension? :: e.etype in caps.extensions
  }

  predicate IsFirstRequired(exts: seq<Extension>, i: int) {
    && 0 <= i < |exts| && exts[i].RequiredCapabilities?
    && forall j | 0 <= j < i :: !exts[j].RequiredCapabilities?
  }

  /** Meets the first requirement in `exts`; one that does not decode is met by nothing. */
  ghost predicate Meets(exts: seq<Extension>, caps: Capabilities) {
    forall i | IsFirstRequired(exts, i) ::
      && exts[i].required.Some?
      && (forall c | c in exts[i].required.value.credentials :: c in caps.credentials)
      && (forall e | e in exts[i].required.value.extensions :: e in caps.extensions)
      && (forall k | k in exts[i].required.value.proposals :: k in caps.proposals)
  }

  /** The first requirement there is decodes. */
  ghost predicate Decodes(exts: seq<Extension>) {
    forall i | IsFirstRequired(exts, i) :: exts[i].required.Some?
  }

  /** The member at leaf `l` stays, with these capabilities. */
  ghost predicate Remains(all: seq<ProposalWithSender>, t: Tree, l: nat, caps: Capabilities) {
    && HasLeaf(t, l) && (forall p | p in all :: p.proposal != Remove(l))
    && (if exists p :: p in all && p.proposal.Update? && p.leaf == Some(l)
        then exists p :: p in all && p.proposal.Update? && p.leaf == Some(l) && p.proposal.leaf.capabilities == caps
        else LeafAt(t, l).value.capabilities == caps)
  }

  /** New extensions of the group are ones its members have. */
  ghost predicate ExtensionsFit(all: seq<ProposalWithSender>, t: Tree, exts: seq<Extension>) {
    && Decodes(exts)
    && (forall l: nat, caps: Capabilities | Remains(all, t, l, caps) :: Supports(exts, caps) && Meets(exts, caps))
    && (forall p | p in all && p.proposal.Add? :: Meets(exts, p.proposal.keyPackage.leaf.capabilities))
  }

  /** What the group's extensions will be. */
  ghost predicate ExtensionsBecome(all: seq<ProposalWithSender>, was: seq<Extension>, exts: seq<Extension>) {
    && (forall p | p in all && p.proposal.GroupContextExtensions? :: exts == p.proposal.extensions)
    && ((forall p | p in all :: !p.proposal.GroupContextExtensions?) ==> exts == was)
  }

  /** The list may be committed, as far as the list and the tree before it go. */
  ghost predicate ListValid(
      env: Env, all: seq<ProposalWithSender>, committer: Option<nat>, gc: GroupContext, t: Tree) {
    && Compatible(env, all)
    && (forall p | p in all :: AllowedFor(env, p, committer, gc))
    && Rejoins(env, all, t)
    && (forall p | p in all && p.proposal.GroupContextExtensions? :: ExtensionsFit(all, t, p.proposal.extensions))
    && (forall exts, p | ExtensionsBecome(all, gc.extensions, exts) && p in all && p.proposal.Add? ::
          Supports(exts, p.proposal.keyPackage.leaf.capabilities))
  }

  lemma {:induction false} FirstRequiredIs(exts: seq<Extension>)
    ensures FirstRequired(exts).None? <==> forall e | e in exts :: !e.RequiredCapabilities?
    ensures forall i | IsFirstRequired(exts, i) :: FirstRequired(exts) == Some(exts[i])
    ensures FirstRequired(exts).Some? ==> exists i :: IsFirstRequired(exts, i) && exts[i] == FirstRequired(exts).value
    decreases |exts|
  {
    if exts != [] && !exts[0].RequiredCapabilities? {
      var rest := exts[1..];
      FirstRequiredIs(rest);
      forall e | e in exts ensures e == exts[0] || e in rest {}
      forall e | e in rest ensures e in exts {}
      forall i | IsFirstRequired(exts, i) ensures FirstRequired(exts) == Some(exts[i]) {
        assert rest[i - 1] == exts[i];
        forall j | 0 <= j < i - 1 ensures !rest[j].RequiredCapabilities? { assert rest[j] == exts[j + 1]; }
        assert IsFirstRequired(rest, i - 1);
      }
      if FirstRequired(rest).Some? {
        var i :| IsFirstRequired(rest, i) && rest[i] == FirstRequired(rest).value;
        assert exts[i + 1] == rest[i];
        forall j | 0 <= j < i + 1 ensures !exts[j].RequiredCapabilities? {
          if j > 0 { assert exts[j] == rest[j - 1]; }
        }
        assert IsFirstRequired(exts, i + 1);
      }
    }
  }

  /** The source's check of one requirement. */
  lemma {:induction false} MeetsIff(exts: seq<Extension>, caps: Capabilities)
    ensures MeetsRequired(caps, exts) <==> Meets(exts, caps)
    ensures Decodes(exts) <==>
      var r := FirstRequired(exts);
      r.Some? ==> r.value.RequiredCapabilities? && r.value.required.Some?
  {
    hide FirstRequired;
    FirstRequiredIs(exts);
  }

  lemma {:induction false} SupportsIff(exts: seq<Extension>, caps: Capabilities)
    ensures ExtensionsSupported(exts, caps) <==> Supports(exts, caps)
  {
  }

  // ---- the code's checks are these rules ----

  lemma {:induction false} CommitterIff(all: seq<ProposalWithSender>, committer: Option<nat>)
    ensures CommitterUntouched(Group(all), committer) <==>
      && (forall p | p in all && p.proposal.Update? :: p.leaf.None? || p.leaf != committer)
      && (forall p | p in all && p.proposal.Remove? :: Some(p.proposal.removed) != committer)
  {
    hide Picked;
    GroupPicks(all);
    var g := Group(all);
    if CommitterUntouched(g, committer) {
      forall p | p in all && p.proposal.Update? ensures p.leaf.None? || p.leaf != committer {
        PickedIff(all, UpdateOf, UpdateOf(p).value);
      }
      forall p | p in all && p.proposal.Remove? ensures Some(p.proposal.removed) != committer {
        PickedIff(all, RemoveOf, p.proposal.removed);
      }
    }
    forall u | u in g.updates ensures exists p :: p in all && UpdateOf(p) == Some(u) { PickedIff(all, UpdateOf, u); }
    forall r | r in g.removes ensures exists p :: p in all && RemoveOf(p) == Some(r) { PickedIff(all, RemoveOf, r); }
  }

  predicate OtherSender(x: UpdateBy, y: UpdateBy) { x.sender != y.sender }

  predicate OtherLeaf(x: nat, y: nat) { x != y }

  lemma {:induction false} OneChangeIff(all: seq<ProposalWithSender>)
    ensures OneChangePerLeaf(Group(all)) <==> forall i, j | 0 <= i < j < |all| :: !SameLeaf(all[i], all[j])
  {
    hide Picked;
    GroupPicks(all);
    var g := Group(all);
    PickedPairs(all, UpdateOf, OtherSender);
    PickedPairs(all, RemoveOf, OtherLeaf);
    if OneChangePerLeaf(g) {
      assert PairsIn(g.updates, OtherSender) && PairsIn(g.removes, OtherLeaf);
      forall i, j | 0 <= i < j < |all| ensures !SameLeaf(all[i], all[j]) {
        assert PairOk(all, UpdateOf, OtherSender, i, j) && PairOk(all, RemoveOf, OtherLeaf, i, j);
        BothPicked(all, i, j);
        BothPicked(all, j, i);
      }
    }
    if forall i, j | 0 <= i < j < |all| :: !SameLeaf(all[i], all[j]) {
      forall i, j | 0 <= i < j < |all|
        ensures PairOk(all, UpdateOf, OtherSender, i, j) && PairOk(all, RemoveOf, OtherLeaf, i, j)
      {
        assert !SameLeaf(all[i], all[j]);
      }
      assert PairsIn(g.updates, OtherSender) && PairsIn(g.removes, OtherLeaf);
      forall u, r | u in g.updates && r in g.removes ensures u.sender != Some(r) { CrossApart(all, u, r); }
    }
  }

  /** An Update at `i` and a Remove at `j` are both picked. */
  lemma {:induction false} BothPicked(all: seq<ProposalWithSender>, i: nat, j: nat)
    requires i < |all| && j < |all| && OneChangePerLeaf(Group(all))
    ensures all[i].proposal.Update? && all[j].proposal.Remove? ==> all[i].leaf != Some(all[j].proposal.removed)
  {
    hide Picked;
    GroupPicks(all);
    if all[i].proposal.Update? && all[j].proposal.Remove? {
      var u, r := UpdateOf(all[i]).value, all[j].proposal.removed;
      assert all[i] in all && UpdateOf(all[i]) == Some(u) && all[j] in all && RemoveOf(all[j]) == Some(r);
      PickedIff(all, UpdateOf, u);
      PickedIff(all, RemoveOf, r);
      assert u in Group(all).updates && r in Group(all).removes;
    }
  }

  lemma {:induction false} CrossApart(all: seq<ProposalWithSender>, u: UpdateBy, r: nat)
    requires u in Picked(all, UpdateOf) && r in Picked(all, RemoveOf)
    requires forall i, j | 0 <= i < j < |all| :: !SameLeaf(all[i], all[j])
    ensures u.sender != Some(r)
  {
    hide Picked;
    PickedIff(all, UpdateOf, u);
    PickedIff(all, RemoveOf, r);
    var p :| p in all && UpdateOf(p) == Some(u);
    var q :| q in all && RemoveOf(q) == Some(r);
    var i :| 0 <= i < |all| && all[i] == p;
    var j :| 0 <= j < |all| && all[j] == q;
    if i < j { assert !SameLeaf(all[i], all[j]); } else { assert i != j && !SameLeaf(all[j], all[i]); }
  }

  lemma {:induction false} ClientsIff(env: Env, all: seq<ProposalWithSender>, t: Tree)
    requires Valid(t)
    ensures NewClients(env, Group(all), t) <==>
      && (forall i, j | 0 <= i < j < |all| :: !SameClientTwice(env, all[i], all[j])) && Rejoins(env, all, t)
  {
    hide Picked;
    GroupPicks(all);
    var g := Group(all);
    var apart := (x: KeyPackage, y: KeyPackage) => !env.sameClient(x, y) && !env.sameClient(y, x);
    PickedPairs(all, AddOf, apart);
    assert PairsIn(g.adds, apart) <==>
      forall i, j | 0 <= i < |g.adds| && 0 <= j < |g.adds| && i != j :: !env.sameClient(g.adds[i], g.adds[j])
    by { BothOrders(env, g.adds, apart); }
    assert AllPairs(all, AddOf, apart) <==> forall i, j | 0 <= i < j < |all| :: !SameClientTwice(env, all[i], all[j])
    by { AddPairs(env, all, apart); }
    RejoinsIff(env, all, t);
  }

  lemma {:induction false} BothOrders(env: Env, adds: seq<KeyPackage>, apart: (KeyPackage, KeyPackage) -> bool)
    requires forall x, y :: apart(x, y) <==> !env.sameClient(x, y) && !env.sameClient(y, x)
    ensures PairsIn(adds, apart) <==>
      forall i, j | 0 <= i < |adds| && 0 <= j < |adds| && i != j :: !env.sameClient(adds[i], adds[j])
  {
    if PairsIn(adds, apart) {
      forall i, j | 0 <= i < |adds| && 0 <= j < |adds| && i != j ensures !env.sameClient(adds[i], adds[j]) {
        if i < j { assert apart(adds[i], adds[j]); } else { assert apart(adds[j], adds[i]); }
      }
    }
  }

  lemma {:induction false} AddPairs(
      env: Env, all: seq<ProposalWithSender>, apart: (KeyPackage, KeyPackage) -> bool)
    requires forall x, y :: apart(x, y) <==> !env.sameClient(x, y) && !env.sameClient(y, x)
    ensures AllPairs(all, AddOf, apart) <==> forall i, j | 0 <= i < j < |all| :: !SameClientTwice(env, all[i], all[j])
  {
    if AllPairs(all, AddOf, apart) {
      forall i, j | 0 <= i < j < |all| ensures !SameClientTwice(env, all[i], all[j]) {
        assert PairOk(all, AddOf, apart, i, j);
      }
    }
    if forall i, j | 0 <= i < j < |all| :: !SameClientTwice(env, all[i], all[j]) {
      forall i, j | 0 <= i < j < |all| ensures PairOk(all, AddOf, apart, i, j) {
        assert !SameClientTwice(env, all[i], all[j]);
      }
    }
  }

  lemma {:induction false} RejoinsIff(env: Env, all: seq<ProposalWithSender>, t: Tree)
    requires Valid(t)
    ensures Rejoins(env, all, t) <==>
      forall kp, x | kp in Group(all).adds && 0 <= x < |t| && NodeLeaf(t, x).Some? &&
        env.matchesLeaf(kp, NodeLeaf(t, x).value) :: x / 2 in Group(all).removes
  {
    hide Picked;
    GroupPicks(all);
    var g := Group(all);
    if Rejoins(env, all, t) {
      forall kp, x | kp in g.adds && 0 <= x < |t| && NodeLeaf(t, x).Some? && env.matchesLeaf(kp, NodeLeaf(t, x).value)
        ensures x / 2 in g.removes
      {
        NodeLeafIs(t, x);
        PickedIff(all, AddOf, kp);
        var p :| p in all && AddOf(p) == Some(kp);
        var l: nat := x / 2;
        assert x % 2 == 0 && HasLeaf(t, l) && LeafAt(t, l) == NodeLeaf(t, x);
        assert p in all && p.proposal.Add? && env.matchesLeaf(p.proposal.keyPackage, LeafAt(t, l).value);
        var q :| q in all && q.proposal == Remove(l);
        assert q in all && RemoveOf(q) == Some(l);
        PickedIff(all, RemoveOf, l);
        assert l in Picked(all, RemoveOf);
      }
    }
    if forall kp, x | kp in g.adds && 0 <= x < |t| && NodeLeaf(t, x).Some? &&
        env.matchesLeaf(kp, NodeLeaf(t, x).value) :: x / 2 in g.removes
    {
      forall p, l: nat | p in all && p.proposal.Add? && HasLeaf(t, l)
        && env.matchesLeaf(p.proposal.keyPackage, LeafAt(t, l).value)
        ensures exists q :: q in all && q.proposal == Remove(l)
      {
        var kp := p.proposal.keyPackage;
        assert AddOf(p) == Some(kp);
        PickedIff(all, AddOf, kp);
        assert kp in g.adds && NodeLeaf(t, 2 * l) == LeafAt(t, l) && (2 * l) / 2 == l;
        assert l in g.removes;
        PickedIff(all, RemoveOf, l);
        var q :| q in all && RemoveOf(q) == Some(l);
      }
    }
  }

  predicate OtherPsk(x: PskId, y: PskId) { x != y }

  lemma {:induction false} PsksIff(all: seq<ProposalWithSender>, gc: GroupContext)
    ensures PsksOk(Group(all).psks, gc) <==>
      && (forall i, j | 0 <= i < j < |all| ::
            !(all[i].proposal.Psk? && all[j].proposal.Psk? && all[i].proposal.id == all[j].proposal.id))
      && (forall p | p in all && p.proposal.Psk? && p.proposal.id.ResumptionPsk? ::
            p.proposal.id.usage.ApplicationUsage? || gc.epoch == 0)
  {
    hide Picked;
    GroupPicks(all);
    PickedPairs(all, PskOf, OtherPsk);
    var psks := Group(all).psks;
    assert AllPairs(all, PskOf, OtherPsk) <==> forall i, j | 0 <= i < j < |all| ::
        !(all[i].proposal.Psk? && all[j].proposal.Psk? && all[i].proposal.id == all[j].proposal.id) by {
      if AllPairs(all, PskOf, OtherPsk) {
        forall i, j | 0 <= i < j < |all|
          ensures !(all[i].proposal.Psk? && all[j].proposal.Psk? && all[i].proposal.id == all[j].proposal.id)
        {
          assert PairOk(all, PskOf, OtherPsk, i, j);
        }
      }
    }
    forall p | p in all && p.proposal.Psk? ensures p.proposal.id in psks {
      assert PskOf(p) == Some(p.proposal.id);
      PickedIff(all, PskOf, p.proposal.id);
    }
    forall x | x in psks ensures exists p :: p in all && PskOf(p) == Some(x) { PickedIff(all, PskOf, x); }
  }

  predicate Never(x: seq<Extension>, y: seq<Extension>) { false }

  ghost predicate OneContextChange(all: seq<ProposalWithSender>) {
    forall i, j | 0 <= i < j < |all| ::
      !(all[i].proposal.GroupContextExtensions? && all[j].proposal.GroupContextExtensions?)
  }

  lemma {:induction false} ContextChangesIff(all: seq<ProposalWithSender>)
    ensures |Group(all).gces| <= 1 <==> OneContextChange(all)
    ensures Group(all).gces == [] <==> forall p | p in all :: !p.proposal.GroupContextExtensions?
    ensures forall p | p in all && p.proposal.GroupContextExtensions? :: p.proposal.extensions in Group(all).gces
    ensures forall x | x in Group(all).gces :: exists p :: p in all && p.proposal == GroupContextExtensions(x)
  {
    hide Picked;
    GroupPicks(all);
    var xs := Group(all).gces;
    PickedPairs(all, ContextExtensionsOf, Never);
    PickedNone(all, ContextExtensionsOf);
    if |xs| > 1 { assert !Never(xs[0], xs[1]); }
    if AllPairs(all, ContextExtensionsOf, Never) {
      forall i, j | 0 <= i < j < |all|
        ensures !(all[i].proposal.GroupContextExtensions? && all[j].proposal.GroupContextExtensions?)
      {
        assert PairOk(all, ContextExtensionsOf, Never, i, j);
      }
    }
    forall p | p in all && p.proposal.GroupContextExtensions? ensures p.proposal.extensions in xs {
      assert ContextExtensionsOf(p) == Some(p.proposal.extensions);
      PickedIff(all, ContextExtensionsOf, p.proposal.extensions);
    }
    forall x | x in xs ensures exists p :: p in all && p.proposal == GroupContextExtensions(x) {
      PickedIff(all, ContextExtensionsOf, x);
      var p :| p in all && ContextExtensionsOf(p) == Some(x);
      assert p.proposal == GroupContextExtensions(x);
    }
  }

  lemma {:induction false} FlattenOne(x: seq<Extension>)
    ensures Flatten([x]) == x && Flatten([]) == []
  {
    assert [x][1..] == [];
  }

  /** The context the code gives a list with at most one change of extensions has
      the extensions that change sets, or the group's own. */
  lemma {:induction false} BecomeIs(all: seq<ProposalWithSender>, gc: GroupContext)
    requires OneContextChange(all)
    ensures ExtensionsBecome(all, gc.extensions, ContextAfter(gc, Group(all)).extensions)
    ensures forall exts | ExtensionsBecome(all, gc.extensions, exts) :: exts == ContextAfter(gc, Group(all)).extensions
    ensures ContextAfter(gc, Group(all)) == gc.(extensions := ContextAfter(gc, Group(all)).extensions)
  {
    hide Group;
    ContextChangesIff(all);
    var xs := Group(all).gces;
    if xs != [] {
      FlattenOne(xs[0]);
      assert xs == [xs[0]];
      var p :| p in all && p.proposal == GroupContextExtensions(xs[0]);
    }
  }

  function CapabilitiesAt(t: Tree, y: nat, g: Grouped): Option<Capabilities> {
    if NodeLeaf(t, y).None? || y / 2 in g.removes then None else
    var u := UpdateFor(g.updates, y / 2);
    Some(if u.Some? then u.value.capabilities else NodeLeaf(t, y).value.capabilities)
  }

  lemma {:induction false} RemainingFrom(t: Tree, x: nat, g: Grouped, c: Capabilities)
    ensures c in RemainingCapabilities(t, x, g) <==> exists y: nat :: x <= y < |t| && CapabilitiesAt(t, y, g) == Some(c)
    decreases |t| - x
  {
    if x < |t| {
      RemainingFrom(t, x + 1, g, c);
      if CapabilitiesAt(t, x, g).Some? {
        var rest := RemainingCapabilities(t, x + 1, g);
        assert RemainingCapabilities(t, x, g) == [CapabilitiesAt(t, x, g).value] + rest;
      }
      if y: nat :| x <= y < |t| && CapabilitiesAt(t, y, g) == Some(c) {
        if y > x { assert x + 1 <= y < |t|; }
      }
    }
  }

  /** Who remains, with which capabilities. */
  lemma {:induction false} RemainingIff(t: Tree, all: seq<ProposalWithSender>, c: Capabilities)
    requires Valid(t) && OneChangePerLeaf(Group(all))
    ensures c in RemainingCapabilities(t, 0, Group(all)) <==> exists l: nat :: Remains(all, t, l, c)
  {
    hide Picked, RemainingCapabilities;
    var g := Group(all);
    RemainingFrom(t, 0, g, c);
    if y: nat :| 0 <= y < |t| && CapabilitiesAt(t, y, g) == Some(c) {
      NodeLeafIs(t, y);
      RemainsAt(t, all, y / 2, c);
      assert Remains(all, t, y / 2, c);
    }
    if l: nat :| Remains(all, t, l, c) {
      RemainsAt(t, all, l, c);
      assert 2 * l < |t| && CapabilitiesAt(t, 2 * l, g) == Some(c);
    }
  }

  lemma {:induction false} RemainsAt(t: Tree, all: seq<ProposalWithSender>, l: nat, c: Capabilities)
    requires Valid(t) && OneChangePerLeaf(Group(all)) && HasLeaf(t, l)
    ensures Remains(all, t, l, c) <==> CapabilitiesAt(t, 2 * l, Group(all)) == Some(c)
  {
    hide Picked;
    GroupPicks(all);
    var g := Group(all);
    assert (2 * l) / 2 == l && NodeLeaf(t, 2 * l) == LeafAt(t, l);
    PickedIff(all, RemoveOf, l);
    assert l in g.removes <==> exists p :: p in all && p.proposal == Remove(l) by {
      if p :| p in all && p.proposal == Remove(l) { assert RemoveOf(p) == Some(l); }
    }
    var u := UpdateFor(g.updates, l);
    if u.Some? {
      PickedIff(all, UpdateOf, UpdateBy(Some(l), u.value));
      var p :| p in all && UpdateOf(p) == Some(UpdateBy(Some(l), u.value));
      assert p.proposal.Update? && p.leaf == Some(l) && p.proposal.leaf == u.value;
      forall q | q in all && q.proposal.Update? && q.leaf == Some(l) ensures q.proposal.leaf == u.value {
        OneUpdate(all, g.updates, q, l, u.value);
      }
    } else if q :| q in all && q.proposal.Update? && q.leaf == Some(l) {
      assert UpdateOf(q) == Some(UpdateBy(Some(l), q.proposal.leaf));
      PickedIff(all, UpdateOf, UpdateBy(Some(l), q.proposal.leaf));
    }
  }

  lemma {:induction false} OneUpdate(
      all: seq<ProposalWithSender>, updates: seq<UpdateBy>, q: ProposalWithSender, l: nat, leaf: LeafNode)
    requires updates == Picked(all, UpdateOf) && UpdateBy(Some(l), leaf) in updates
    requires forall i, j | 0 <= i < j < |updates| :: updates[i].sender != updates[j].sender
    requires q in all && q.proposal.Update? && q.leaf == Some(l)
    ensures q.proposal.leaf == leaf
  {
    hide Picked;
    var u, v := UpdateBy(Some(l), leaf), UpdateBy(Some(l), q.proposal.leaf);
    assert UpdateOf(q) == Some(v);
    PickedIff(all, UpdateOf, v);
    var i :| 0 <= i < |updates| && updates[i] == u;
    var j :| 0 <= j < |updates| && updates[j] == v;
    assert i == j;
  }

  lemma {:induction false} FitIff(all: seq<ProposalWithSender>, t: Tree, exts: seq<Extension>)
    requires Valid(t) && OneChangePerLeaf(Group(all))
    ensures ExtensionsFit(all, t, exts) <==>
      && Decodes(exts)
      && (forall c | c in RemainingCapabilities(t, 0, Group(all)) ::
            ExtensionsSupported(exts, c) && MeetsRequired(c, exts))
      && (forall kp | kp in Group(all).adds :: MeetsRequired(kp.leaf.capabilities, exts))
  {
    hide Picked, RemainingCapabilities, Meets, MeetsRequired, Supports, ExtensionsSupported, Remains;
    GroupPicks(all);
    forall c {:trigger c in RemainingCapabilities(t, 0, Group(all))}
      ensures c in RemainingCapabilities(t, 0, Group(all)) <==> exists l: nat :: Remains(all, t, l, c)
    {
      RemainingIff(t, all, c);
    }
    forall c ensures MeetsRequired(c, exts) <==> Meets(exts, c) { MeetsIff(exts, c); }
    forall c ensures ExtensionsSupported(exts, c) <==> Supports(exts, c) { SupportsIff(exts, c); }
    assert (forall c | c in RemainingCapabilities(t, 0, Group(all)) ::
        ExtensionsSupported(exts, c) && MeetsRequired(c, exts)) <==>
      forall l: nat, c: Capabilities | Remains(all, t, l, c) :: Supports(exts, c) && Meets(exts, c);
    forall p | p in all && p.proposal.Add? ensures p.proposal.keyPackage in Group(all).adds {
      assert AddOf(p) == Some(p.proposal.keyPackage);
      PickedIff(all, AddOf, p.proposal.keyPackage);
    }
    forall kp | kp in Group(all).adds ensures exists p :: p in all && p.proposal == Add(kp) {
      PickedIff(all, AddOf, kp);
      var p :| p in all && AddOf(p) == Some(kp);
      assert p.proposal == Add(kp);
    }
  }

  lemma {:induction false} AcceptedIff(env: Env, all: seq<ProposalWithSender>, t: Tree)
    requires Valid(t) && OneChangePerLeaf(Group(all)) && env.externalSendersOk([])
    ensures ExtensionsAccepted(env, Group(all), t) <==>
      && OneContextChange(all)
      && forall p | p in all && p.proposal.GroupContextExtensions? ::
           ExtensionsFit(all, t, p.proposal.extensions) && env.externalSendersOk(p.proposal.extensions)
  {
    hide Group, ExtensionsFit, RemainingCapabilities, MeetsRequired, ExtensionsSupported, OneChangePerLeaf, Decodes;
    ContextChangesIff(all);
    var xs := Group(all).gces;
    if xs == [] {
      assert Flatten(xs) == [];
      NothingRequired(all, t);
    } else if |xs| == 1 {
      FlattenOne(xs[0]);
      assert xs == [xs[0]];
      FitIff(all, t, xs[0]);
      MeetsIff(xs[0], Capabilities([], [], []));
      assert xs[0] in xs;
      var p :| p in all && p.proposal == GroupContextExtensions(xs[0]);
    }
  }

  lemma {:induction false} NothingRequired(all: seq<ProposalWithSender>, t: Tree)
    ensures FirstRequired([]) == None
    ensures forall c :: ExtensionsSupported([], c) && MeetsRequired(c, [])
  {
  }

  lemma {:induction false} AddsSupportIff(all: seq<ProposalWithSender>, gc: GroupContext)
    requires OneContextChange(all)
    ensures (forall kp | kp in Group(all).adds ::
        ExtensionsSupported(ContextAfter(gc, Group(all)).extensions, kp.leaf.capabilities)) <==>
      forall exts, p | ExtensionsBecome(all, gc.extensions, exts) && p in all && p.proposal.Add? ::
        Supports(exts, p.proposal.keyPackage.leaf.capabilities)
  {
    hide Picked, ContextAfter, ExtensionsBecome, Supports, ExtensionsSupported;
    GroupPicks(all);
    BecomeIs(all, gc);
    var exts := ContextAfter(gc, Group(all)).extensions;
    forall c ensures ExtensionsSupported(exts, c) <==> Supports(exts, c) { SupportsIff(exts, c); }
    forall p | p in all && p.proposal.Add? ensures p.proposal.keyPackage in Group(all).adds {
      assert AddOf(p) == Some(p.proposal.keyPackage);
      PickedIff(all, AddOf, p.proposal.keyPackage);
    }
    forall kp | kp in Group(all).adds ensures exists p :: p in all && p.proposal == Add(kp) {
      PickedIff(all, AddOf, kp);
      var p :| p in all && AddOf(p) == Some(kp);
      assert p.proposal == Add(kp);
    }
  }

  /** The rules on pairs, kind by kind. */
  lemma {:induction false} CompatibleIff(env: Env, all: seq<ProposalWithSender>)
    ensures Compatible(env, all) <==>
      && (forall i, j | 0 <= i < j < |all| :: !SameLeaf(all[i], all[j]))
      && (forall i, j | 0 <= i < j < |all| :: !SameClientTwice(env, all[i], all[j]))
      && (forall i, j | 0 <= i < j < |all| ::
            !(all[i].proposal.Psk? && all[j].proposal.Psk? && all[i].proposal.id == all[j].proposal.id))
      && OneContextChange(all)
  {
    hide SameLeaf, SameClientTwice;
    if Compatible(env, all) {
      forall i, j | 0 <= i < j < |all|
        ensures !(all[i].proposal.Psk? && all[j].proposal.Psk? && all[i].proposal.id == all[j].proposal.id)
        ensures !(all[i].proposal.GroupContextExtensions? && all[j].proposal.GroupContextExtensions?)
        ensures !SameLeaf(all[i], all[j]) && !SameClientTwice(env, all[i], all[j])
      {
        assert !SameKindOnce(all[i], all[j]);
      }
    } else {
      var i, j :| 0 <= i < j < |all| &&
        (SameLeaf(all[i], all[j]) || SameClientTwice(env, all[i], all[j]) || SameKindOnce(all[i], all[j]));
    }
  }

  /** validateProposals decides the rules of the list, for every list. */
  lemma {:induction false} ListValidIff(
      env: Env, all: seq<ProposalWithSender>, committer: Option<nat>, gc: GroupContext, t: Tree)
    requires Valid(t) && env.externalSendersOk([])
    ensures ProposalsOk(env, Group(all), committer, gc, t) <==> ListValid(env, all, committer, gc, t)
  {
    hide Group, CommitterUntouched, OneChangePerLeaf, NewClients, PsksOk, ExtensionsAccepted, ContextAfter,
      Compatible, Rejoins, ExtensionsFit, ExtensionsBecome, ExtensionsSupported, Supports;
    CommitterIff(all, committer);
    OneChangeIff(all);
    ClientsIff(env, all, t);
    PsksIff(all, gc);
    CompatibleIff(env, all);
    if OneChangePerLeaf(Group(all)) {
      AcceptedIff(env, all, t);
      if OneContextChange(all) { AddsSupportIff(all, gc); }
    }
  }
}

/** Concrete inputs on which joining does something other than one would expect:
    a Welcome that leaves its newcomer short of keys, and a resync that succeeds
    although every member will refuse it. */
module Counterexamples {
  import opened Options
  import opened Terms
  import opened TreeMath
  import opened RatchetTree
  import opened ParentHashes
  import opened UpdatePaths
  import opened LeafValidation
  import opened ClientStates
  import opened PrivateKeys
  import opened UnmergedLeaves
  import opened KeyOwnership
  import opened ParentHashKept
  import opened Proposals
  import opened Membership
  import opened PathRules
  import opened Commits
  import opened Joins
  import opened Agreement
  import opened Convergence
  import opened Receivers
  import opened Joiners
  import opened ExternalJoins
  import opened StandardLinks
  import opened ClientRuns
  import Groups
  import opened FilterPending
  import opened EpochContents
  import opened GroupExtensions
  import opened ProposalRules

  // ---- plain leaves ----

  function PlainLeaf(k: nat): LeafNode {
    LeafNode(
      Pub(Random(2 * k)), Pub(Random(2 * k + 1)), Credential(1, 0), Capabilities([1], [], []), [], FromKeyPackage(0),
      LeafSignature(Random(2 * k + 1), None))
  }

  /** The leaf signs for itself at its place, and asks for nothing unusual. */
  predicate Plain(leaf: LeafNode, place: (nat, nat)) {
    && leaf.sigKey == Pub(leaf.signature.signer) && leaf.credential.ctype == 1
    && leaf.capabilities == Capabilities([1], [], []) && leaf.extensions == []
    && leaf.signature.place == if leaf.source.FromKeyPackage? then None else Some(place)
  }

  /** A group's only context here: no extensions. */
  function PlainContext(treeHash: Digest): GroupContext {
    GroupContext(1, 1, 0, 0, treeHash, NoBytes, [])
  }

  lemma {:induction false} PlainAccepted(t: Tree, gc: GroupContext)
    requires LeavesOk(t) && gc.extensions == []
    requires forall x: nat | NodeLeaf(t, x).Some? :: x % 2 == 0 && Plain(NodeLeaf(t, x).value, (gc.groupId, x / 2))
    ensures LeavesAccepted(AnyPolicy(), t, gc)
  {
    forall x | 0 <= x < |t| && NodeLeaf(t, x).Some? ensures LeafAccepted(AnyPolicy(), t, gc, x, NodeLeaf(t, x).value) {
      PlainCommon(t, gc, x, None);
      PlainCommon(t, gc, x, LeafCredential(t, x / 2));
    }
  }

  lemma {:induction false} PlainCommon(t: Tree, gc: GroupContext, x: nat, prior: Option<Credential>)
    requires LeavesOk(t) && gc.extensions == [] && x < |t| && NodeLeaf(t, x).Some? && x % 2 == 0
    requires forall y: nat | NodeLeaf(t, y).Some? :: Plain(NodeLeaf(t, y).value, (gc.groupId, y / 2))
    ensures CommonOk(AnyPolicy(), NodeLeaf(t, x).value, gc, t, Some(x / 2), prior)
  {
    var leaf := NodeLeaf(t, x).value;
    assert 2 * (x / 2) == x;
    assert FirstRequired([]) == None;
    assert leaf.capabilities.credentials[0] == 1;
    assert SupportedByEvery(t, 1) by {
      forall y | 0 <= y < |t| && NodeLeaf(t, y).Some? ensures 1 in NodeLeaf(t, y).value.capabilities.credentials {
        assert NodeLeaf(t, y).value.capabilities.credentials[0] == 1;
      }
    }
    forall y | 0 <= y < |t| && NodeParent(t, y).Some? ensures NodeParent(t, y).value.hpkeKey != leaf.hpkeKey {
      assert KeyOf(At(t, y).value) != KeyOf(At(t, x).value) by { if x < y {} else { assert y < x; } }
    }
    forall y | 0 <= y < |t| && NodeLeaf(t, y).Some? && y != x
      ensures NodeLeaf(t, y).value.hpkeKey != leaf.hpkeKey && NodeLeaf(t, y).value.sigKey != leaf.sigKey
    {
      assert KeyOf(At(t, y).value) != KeyOf(At(t, x).value) by { if x < y {} else { assert y < x; } }
    }
  }

  // ---- a Welcome that leaves its newcomer short ----

  /** Three members, no parent keys yet. */
  function Three(): Tree {
    [Some(Leaf(PlainLeaf(0))), None, Some(Leaf(PlainLeaf(1))), None, Some(Leaf(PlainLeaf(2))), None, None]
  }

  predicate ThreeAt(x: nat) {
    At(Three(), x) == if x in {0, 2, 4} then Some(Leaf(PlainLeaf(x / 2))) else None
  }

  lemma {:induction false} ThreeIs()
    ensures Valid(Three()) && HasLeaf(Three(), 0) && HasLeaf(Three(), 1) && HasLeaf(Three(), 2)
    ensures forall x: nat :: ThreeAt(x)
  {
    SmallNumbers();
  }

  /** The third has committed: the other two are merged at the root. */
  function Rekeyed(): Tree {
    ThreeIs();
    NewTree(Three(), 2, PlainContext(NoBytes), Random(5), Random(6), NoPatch)
  }

  lemma {:induction false} ThreeShape()
    ensures TreeOk(Three()) && HashesLinked(Three())
  {
    hide HasLink, Occupied, ListedRightly, ListedInOrder;
    ThreeIs();
    forall x: nat ensures Unmerged(Three(), x) == [] && (x % 2 == 1 ==> At(Three(), x).None?) { assert ThreeAt(x); }
    forall x: nat ensures ListedInOrder(Three(), x) { NothingListed(Three(), x); }
  }

  lemma {:induction false} NothingListed(t: Tree, x: nat)
    requires Unmerged(t, x) == []
    ensures ListedInOrder(t, x)
  {
  }

  lemma {:induction false} ThreeLeaves()
    ensures LeavesOk(Three())
  {
    ThreeIs();
    assert PlainLeaf(0).capabilities.credentials[0] == 1;
    forall x: nat, y: nat | x < y && At(Three(), x).Some? && At(Three(), y).Some?
      ensures KeyOf(At(Three(), x).value) != KeyOf(At(Three(), y).value)
    {
      assert ThreeAt(x) && ThreeAt(y);
    }
    forall x: nat, y: nat | x != y && NodeLeaf(Three(), x).Some? && NodeLeaf(Three(), y).Some?
      ensures NodeLeaf(Three(), x).value.sigKey != NodeLeaf(Three(), y).value.sigKey
      ensures NodeLeaf(Three(), x).value.credential.ctype in NodeLeaf(Three(), y).value.capabilities.credentials
    {
      assert ThreeAt(x) && ThreeAt(y);
    }
  }

  lemma {:induction false} RekeyedGood()
    ensures GoodTree(Rekeyed()) && PathWritten(Three(), Rekeyed(), 2, Random(6))
  {
    hide TreeOk, HashesLinked, LeavesOk, NewTree, FilteredFrom, Level;
    ThreeIs();
    ThreeShape();
    ThreeLeaves();
    OthersFromAll(Three(), 4);
    var gc := PlainContext(NoBytes);
    forall x: nat, i: nat {:trigger At(Three(), x), PathKey(Random(6), i)} | At(Three(), x).Some?
      ensures KeyOf(At(Three(), x).value) != PathKey(Random(6), i)
    {
      assert ThreeAt(x);
    }
    assert Fits(Three(), 4, NewSenderLeaf(Three(), 2, gc, Random(5), Random(6), NoPatch)) by { SenderFits(); }
    NewTreeKeepsRules(Three(), 2, gc, Random(5), Random(6), NoPatch);
    NewTreeWritten(Three(), 2, gc, Random(5), Random(6), NoPatch);
  }

  lemma {:induction false} SenderFits()
    ensures Valid(Three()) && HasLeaf(Three(), 2)
    ensures Fits(Three(), 4, NewSenderLeaf(Three(), 2, PlainContext(NoBytes), Random(5), Random(6), NoPatch))
  {
    hide PathTree;
    ThreeIs();
    assert forall x: nat :: ThreeAt(x);
    assert PlainLeaf(0).capabilities.credentials[0] == 1;
  }

  /** The third leaf's path is the root: beside the other two, and nobody else. */
  lemma {:induction false} PathIsRoot()
    ensures Valid(Three()) && Nodes(FilteredPath(Three(), 2)) == [3]
  {
    hide Full;
    SmallNumbers();
    ThreeIs();
    var t := Three();
    assert ThreeAt(0) && ThreeAt(1) && ThreeAt(2) && ThreeAt(6);
    assert Parent(4) == 5 && Sibling(4) == 6 && Resolution(t, 6) == [];
    assert Parent(5) == 3 && Sibling(5) == 1 && Resolution(t, 0) == [0];
    assert Resolution(t, 1) == Resolution(t, 0) + Resolution(t, 2);
    assert FilteredFrom(t, 3) == [];
    assert FilteredFrom(t, 5) == [PathEntry(3, Resolution(t, 1))];
    assert FilteredPath(t, 2) == FilteredFrom(t, 5);
  }

  /** What the committed tree holds above the second leaf. */
  lemma {:induction false} RekeyedAt()
    ensures var u := Rekeyed();
      && |u| == 7 && Valid(u) && At(u, 1) == None && ListsNobody(u, 3) && HasLeaf(u, 2)
      && (forall x: nat | x != 3 && x != 4 :: ThreeAt(x) && At(u, x) == At(Three(), x))
  {
    hide FilteredFrom, NewTree, GoodTree;
    ThreeIs();
    RekeyedGood();
    PathIsRoot();
    var t, u := Three(), Rekeyed();
    assert 3 in Nodes(FilteredPath(t, 2));
    forall x: nat | x != 3 && x != 4 ensures ThreeAt(x) && At(u, x) == At(t, x) {
      assert x !in Nodes(FilteredPath(t, 2));
    }
    assert ThreeAt(1);
  }

  function SecondPackage(): KeyPackage {
    KeyPackage(1, 1, Pub(Random(20)), PlainLeaf(1), Random(3))
  }

  function SecondKeys(): PrivateKeyPackage {
    PrivateKeyPackage(Random(20), Random(2), Random(3))
  }

  /** A Welcome for the second leaf into the committed tree, without a path secret. */
  function ShortWelcome(): Welcome {
    var gc := PlainContext(RootHash(Rekeyed()));
    var derived := DeriveKeySchedule(Random(21), Zero, gc);
    Welcome(
      [SealedSecrets(SecondPackage(), Pub(Random(20)), GroupSecrets(Random(21), None, []))],
      Secret.WelcomeSecret(Random(21), Zero),
      GroupInfo(gc, ConfirmationTag(derived.schedule, gc), 0, Rekeyed(), Random(1)))
  }

  lemma {:induction false} RekeyedAccepted()
    ensures var u := Rekeyed(); TreeAccepted(AnyPolicy(), u, PlainContext(RootHash(u)))
  {
    hide NewTree, GoodTree, RootHash, TreeAccepted, LeavesAccepted, LeavesOk, PathTree, FilteredFrom;
    var t, u := Three(), Rekeyed();
    var gc := PlainContext(RootHash(u));
    RekeyedGood();
    RekeyedAt();
    assert LeavesOk(u) by { GoodLeaves(u); }
    forall x: nat | NodeLeaf(u, x).Some? ensures x % 2 == 0 && Plain(NodeLeaf(u, x).value, (gc.groupId, x / 2)) {
      if x == 4 { SenderPlain(); } else if x != 3 { assert ThreeAt(x); }
    }
    PlainAccepted(u, gc);
    GoodAccepted(AnyPolicy(), u, gc);
  }

  lemma {:induction false} GoodLeaves(t: Tree)
    requires GoodTree(t)
    ensures LeavesOk(t)
  {
  }

  lemma {:induction false} SenderPlain()
    ensures LeafAt(Rekeyed(), 2).Some? && Plain(LeafAt(Rekeyed(), 2).value, (0, 2))
  {
    hide PathTree;
    ThreeIs();
    assert ThreeAt(4);
  }

  lemma {:induction false} SecondJoinKeys()
    ensures var u := Rekeyed();
      |u| == 7 && Full(7) && JoinKeys(u, 0, 1, Random(2), None) == Ok(PrivatePath(1, map[2 := Random(2)]))
  {
    hide NewTree, Rekeyed;
    var u := Rekeyed();
    SmallNumbers();
    RekeyedAt();
    assert ThreeAt(2) && At(u, 2) == Some(Leaf(PlainLeaf(1)));
    assert Parent(0) == 1 && Sibling(0) == 2 && Resolution(u, 2) == [2];
    assert FilteredPath(u, 0) == [PathEntry(1, [2])] + FilteredFrom(u, 1);
    assert OnPath(1, 1) && FirstMatch(FilteredPath(u, 0), 1) == Some(0);
  }

  /** The newcomer joins, and lacks the root's key: only the first of its ancestors
      on the signer's path is checked for a missing path secret. */
  lemma {:induction false} ShortWelcomeAccepted()
    ensures KeysFit(SecondPackage(), SecondKeys())
    ensures var j := JoinGroup(AnyPolicy(), ShortWelcome(), SecondPackage(), SecondKeys(), 0, 0);
      && j.Ok? && GoodTree(j.value.tree) && j.value.privatePath.leaf == 1
      && !Exact(j.value.tree, j.value.privatePath) && OwnedBy(j.value.tree, 1, 3) && 3 !in j.value.privatePath.keys
  {
    hide NewTree, Rekeyed, GoodTree, RootHash, JoinKeys, TreeAccepted, ConfirmationTag, NewSecretTree, KeysDistinct;
    var u := Rekeyed();
    RekeyedAccepted();
    RekeyedGood();
    RekeyedAt();
    SecondJoinKeys();
    SmallNumbers();
    GoodKeys(u);
    assert ThreeAt(0) && ThreeAt(2);
    FindsOwnLeaf(u, 1, PlainLeaf(1));
    assert InfoError(AnyPolicy(), ShortWelcome().info, SecondPackage()) == None;
    assert OnPath(1, 3) && OwnedBy(u, 1, 3);
  }

  // ---- a resync every member refuses ----

  /** A newcomer's application that takes any leaf for its own former one. */
  function AnyLeafMatches(): Env {
    AnyPolicy().(matchesLeaf := (kp, leaf) => true)
  }

  function Pair(): Tree {
    [Some(Leaf(PlainLeaf(0))), None, Some(Leaf(PlainLeaf(1)))]
  }

  predicate PairAt(x: nat) {
    At(Pair(), x) == if x in {0, 2} then Some(Leaf(PlainLeaf(x / 2))) else None
  }

  lemma {:induction false} PairIs()
    ensures Full(3) && Valid(Pair()) && forall x: nat :: PairAt(x)
  {
    SmallNumbers();
  }

  lemma {:induction false} PairGood()
    ensures GoodTree(Pair())
  {
    hide HasLink, Occupied, ListedRightly, ListedInOrder;
    PairIs();
    forall x: nat ensures Unmerged(Pair(), x) == [] && (x % 2 == 1 ==> At(Pair(), x).None?) { assert PairAt(x); }
    forall x: nat ensures ListedInOrder(Pair(), x) { NothingListed(Pair(), x); }
    assert PlainLeaf(0).capabilities.credentials[0] == 1;
    forall x: nat | At(Pair(), x).Some? ensures x in {0, 2} && At(Pair(), x) == Some(Leaf(PlainLeaf(x / 2))) {
      assert PairAt(x);
    }
  }

  function PairInfo(tag: Tag, externalPub: PublicKey): ExternalInfo {
    ExternalInfo(GroupInfo(PlainContext(RootHash(Pair())), tag, 1, Pair(), Random(3)), externalPub)
  }

  function NewcomerPackage(): KeyPackage {
    KeyPackage(1, 1, Pub(Random(31)), PlainLeaf(4), Random(9))
  }

  function NewcomerKeys(): PrivateKeyPackage {
    PrivateKeyPackage(Random(31), Random(8), Random(9))
  }

  function Resync(): ExternalOptions {
    ExternalOptions(true, 0, 0, 0, 0)
  }

  lemma {:induction false} PairAccepted(gc: GroupContext)
    requires gc == PlainContext(RootHash(Pair()))
    ensures TreeAccepted(AnyLeafMatches(), Pair(), gc)
  {
    hide RootHash, GoodTree, LeavesAccepted, TreeAccepted, LeavesOk;
    PairIs();
    PairGood();
    GoodLeaves(Pair());
    forall x: nat | NodeLeaf(Pair(), x).Some?
      ensures x % 2 == 0 && Plain(NodeLeaf(Pair(), x).value, (gc.groupId, x / 2))
    {
      assert PairAt(x);
    }
    PlainAccepted(Pair(), gc);
    SamePolicies(Pair(), gc);
    GoodAccepted(AnyLeafMatches(), Pair(), gc);
  }

  lemma {:induction false} SamePolicies(t: Tree, gc: GroupContext)
    requires LeavesAccepted(AnyPolicy(), t, gc)
    ensures LeavesAccepted(AnyLeafMatches(), t, gc)
  {
  }

  /** The first leaf goes, and the newcomer takes its place beside the second. */
  lemma {:induction false} PairResynced()
    ensures Full(3) && AfterResync(Pair(), [0]) == Ok([None, None, Some(Leaf(PlainLeaf(1)))])
    ensures AddLeaf([None, None, Some(Leaf(PlainLeaf(1)))], PlainLeaf(4))
      == ([Some(Leaf(PlainLeaf(4))), None, Some(Leaf(PlainLeaf(1)))], 0)
  {
    PairIs();
    SmallNumbers();
    assert OnPath(0, 1) && !OnPath(0, 2);
    assert BlankPath(Pair(), 0, None) == [None, None, Some(Leaf(PlainLeaf(1)))];
    var base: Tree := [None, None, Some(Leaf(PlainLeaf(1)))];
    assert StrippedLength(base) == 3 && FullSize(1, 3) == 3;
    assert base[..3] + Blanks(0) == base;
    var (r, n) := AddLeaf(base, PlainLeaf(4));
    assert n == 0 && |r| == 3;
    assert r == [Some(Leaf(PlainLeaf(4))), None, Some(Leaf(PlainLeaf(1)))];
  }

  function Joined(): Tree {
    [Some(Leaf(PlainLeaf(4))), None, Some(Leaf(PlainLeaf(1)))]
  }

  lemma {:induction false} JoinedIs()
    ensures Full(3) && Valid(Joined()) && HasLeaf(Joined(), 0) && FilteredPath(Joined(), 0) == [PathEntry(1, [2])]
  {
    SmallNumbers();
    var t := Joined();
    assert At(t, 2) == Some(Leaf(PlainLeaf(1)));
    assert Parent(0) == 1 && Sibling(0) == 2 && Resolution(t, 2) == [2];
    assert FilteredFrom(t, 1) == [];
    assert FilteredFrom(t, 0) == [PathEntry(1, [2])];
  }

  lemma {:induction false} JoinedSealed(context: GroupContext)
    ensures SealPath(Joined(), SecretsAbove([PathEntry(1, [2])], Random(40), []), context).Ok?
  {
    var t := Joined();
    var secrets := SecretsAbove([PathEntry(1, [2])], Random(40), []);
    assert [PathEntry(1, [2])][1..] == [];
    assert |secrets| == 1 && secrets[0].sendTo == [2];
    assert At(t, 2).Some?;
    SealAllSucceeds(t, [2], context, secrets[0].secret);
    assert SealPath(t, secrets[1..], context) == Ok([]);
  }

  lemma {:induction false} JoinedFresh()
    ensures Fresh(Random(40), Joined())
  {
    forall x: nat, i: nat {:trigger At(Joined(), x), PathKey(Random(40), i)} | At(Joined(), x).Some?
      ensures KeyOf(At(Joined(), x).value) != PathKey(Random(40), i)
    {
    }
  }

  /** The newcomer is taken for the member whose leaf it removes, but signs with a
      key of its own. */
  lemma {:induction false} ResyncDrafted(info: ExternalInfo) returns (d: ExternalDraft)
    requires info == PairInfo(info.info.tag, info.externalPub)
    ensures JoinDrafted(AnyLeafMatches(), info.info, NewcomerPackage(), NewcomerKeys(), true, Random(40), d)
    ensures d.removes == [0] && ResyncMismatch(Pair(), d)
  {
    hide RootHash, PathTree, AddLeaf, RemoveLeaf, SealPath, SecretsAbove, FilteredFrom, Fresh,
      CalculateParentHash, TreeHash, Sound;
    var env, gi, gc := AnyLeafMatches(), info.info, info.info.context;
    PairIs();
    PairResynced();
    JoinedIs();
    JoinedFresh();
    assert PairAt(0) && PairAt(2);
    assert FindFormer(env, Pair(), NewcomerPackage(), 0) == Some(0);
    var t := NewTree(Joined(), 0, gc, Random(9), Random(40), NoPatch);
    JoinedSealed(NextContext(gc, TreeHash(t, Root(|t|))));
    d := DraftExternal(env, gi, NewcomerPackage(), NewcomerKeys(), true, Random(40)).value;
  }

  /** It joins, and the member it leaves in place refuses the commit. */
  lemma {:induction false} ResyncRefused(b: ClientState)
    requires MemberOk(b) && b.tree == Pair() && b.context == PlainContext(RootHash(Pair())) && b.privatePath.leaf == 1
    ensures var info := PairInfo(b.tag, Pub(b.schedule.external));
      var j := JoinExternal(AnyLeafMatches(), info, NewcomerPackage(), NewcomerKeys(), Resync(), Random(40));
      j.Ok? && ProcessCommit(AnyLeafMatches(), b, j.value.message, true) == Err(BadResync)
  {
    hide RootHash, TreeAccepted, DraftExternal, ProcessCommit, ExternalEpoch, ExternalKeys, NewSecretTree, MemberOk,
      GoodTree, ResyncMismatch, JoinDrafted, JoinerLeafRefused, Pair;
    var info := PairInfo(b.tag, Pub(b.schedule.external));
    var d := ResyncDrafted(info);
    PairIs();
    PairGood();
    PairAccepted(info.info.context);
    assert PairAt(2) && HasLeaf(Pair(), 1) && LeafAt(Pair(), 1) == Some(PlainLeaf(1));
    DraftOf(info.info, d);
    ExternalConverges(AnyLeafMatches(), b, info, NewcomerPackage(), NewcomerKeys(), Resync(), Random(40), d);
  }

  lemma {:induction false} DraftOf(gi: GroupInfo, d: ExternalDraft)
    requires JoinDrafted(AnyLeafMatches(), gi, NewcomerPackage(), NewcomerKeys(), true, Random(40), d)
    ensures Valid(gi.tree)
    ensures DraftExternal(AnyLeafMatches(), gi, NewcomerPackage(), NewcomerKeys(), true, Random(40)) == Ok(d)
  {
    hide DraftExternal, Fresh;
  }

  // ---- a member that stops listing an extension the group has ----

  /** A group of one, with an extension its member lists. */
  function Extended(): ClientState {
    var leaf := FirstPackage().leaf.(capabilities := Capabilities([1], [0xf001], []));
    Groups.CreateGroup(
      0, FirstPackage().(leaf := leaf), FirstKeys(), [CustomExtension(0xf001, 1)], Random(4), 0, 1)
  }

  /** A commit of nothing but a new leaf that lists none. */
  function Dropping(): CommitOptions {
    CommitOptions(true, [], 0, Some(LeafPatch(None, None, Some(Capabilities([1], [], [])), None)))
  }

  lemma {:induction false} ExtendedIs()
    ensures var st := Extended();
      && Valid(st.tree) && HasLeaf(st.tree, 0)
      && LeafAt(st.tree, 0).value.capabilities == Capabilities([1], [0xf001], [])
      && (forall x: nat :: x > 0 ==> At(st.tree, x) == None)
      && |st.tree| == 1 && st.pending == [] && st.active == IsActive && st.privatePath.leaf == 0
      && st.signKey == Random(2) && st.context.extensions == [CustomExtension(0xf001, 1)]
  {
    hide RootHash, ConfirmationTag, NewSecretTree, DeriveEpochKeys;
    assert [0xf001][0] == 0xf001;
  }

  lemma {:induction false} NothingApplied()
    ensures var st := Extended();
      Valid(st.tree) && ApplyProposals(AnyPolicy(), st, [], Some(0), true, None, MemberType)
        == Ok(Applied(st.tree, Zero, [], true, MemberCommit([], st.context), false, []))
  {
    hide RootHash, ConfirmationTag, NewSecretTree, DeriveEpochKeys, Extended, RemainingCapabilities;
    ExtendedIs();
    assert Group([]) == Grouped([], [], [], [], [], [], [], []);
    assert FirstRequired([]) == None && Flatten([]) == [];
  }

  lemma {:induction false} NoPathNodes(t: Tree)
    requires Valid(t) && |t| == 1
    ensures FilteredPath(t, 0) == []
  {
    hide FilteredFrom;
    FilteredChain(t, 0);
    ChainAbove(0, FilteredPath(t, 0));
    assert forall e :: e !in FilteredPath(t, 0);
  }

  lemma {:induction false} NewLeafDrafted(seed: Secret)
    ensures var st, patch := Extended(), OrElse(Dropping().patch, NoPatch);
      Valid(st.tree) &&
      var created := CreateUpdatePath(st.tree, 0, st.context, st.signKey, seed, [], patch);
      && created.Ok? && created.value.path.leaf.capabilities == Capabilities([1], [], [])
      && |created.value.tree| == 1
      && UpdateOrCommitOk(
           AnyPolicy(), created.value.path.leaf, 0, st.context, st.tree, LeafCredential(st.tree, 0))
  {
    hide RootHash, ConfirmationTag, NewSecretTree, DeriveEpochKeys, Groups.CreateGroup, FilteredFrom,
      CalculateParentHash, PathTree, TreeHash;
    ExtendedIs();
    ExtendedLeaf();
    var st, patch := Extended(), OrElse(Dropping().patch, NoPatch);
    NoPathNodes(st.tree);
    var created := CreateUpdatePath(st.tree, 0, st.context, st.signKey, seed, [], patch);
    CreatedWhere(st.tree, 0, st.context, st.signKey, seed, [], patch);
    var leaf := created.value.path.leaf;
    assert FirstRequired(st.context.extensions[1..]) == None;
    assert [1][0] == 1;
    assert SupportedByEvery(st.tree, 1);
  }

  lemma {:induction false} ExtendedLeaf()
    ensures LeafAt(Extended().tree, 0) ==
      Some(FirstPackage().leaf.(capabilities := Capabilities([1], [0xf001], [])))
  {
    hide RootHash, ConfirmationTag, NewSecretTree, DeriveEpochKeys;
  }

  lemma {:induction false} NothingFiltered()
    ensures var st := Extended(); Valid(st.tree) && FilterPendingProposals(AnyPolicy(), st, []) == Ok([])
  {
    hide Extended;
    ExtendedIs();
    var st := Extended();
    assert Removes(st.pending) + Others(st.pending) == [];
    KeepAllDone(AnyPolicy(), st.context, st.privatePath.leaf, Start(st.tree));
    assert CapableOnly([], ExtensionsAfter(st.context.extensions, [], [])) == [];
    assert Refs([]) == [];
  }

  lemma {:induction false} DroppingDrafted(seed: Secret) returns (d: Draft)
    ensures var st := Extended(); Valid(st.tree) && DraftCommit(AnyPolicy(), st, Dropping(), seed) == Ok(d)
    ensures d.context == Extended().context && d.applied.kind == MemberCommit([], Extended().context)
    ensures |DraftTree(d)| == 1 && d.created.Some?
    ensures LeafAt(DraftTree(d), 0).Some? && LeafAt(DraftTree(d), 0).value.capabilities == Capabilities([1], [], [])
  {
    hide Extended, FilterPendingProposals, ApplyProposals, CreateUpdatePath, UpdateOrCommitOk, Groups.CreateGroup;
    ExtendedIs();
    NothingFiltered();
    NothingApplied();
    NewLeafDrafted(seed);
    var st := Extended();
    CreatedWhere(st.tree, 0, st.context, st.signKey, seed, [], OrElse(Dropping().patch, NoPatch));
    assert ByRefs([]) + ByValues([]) == [];
    assert AddedNodes([]) == [];
    d := DraftCommit(AnyPolicy(), st, Dropping(), seed).value;
  }

  /** The member commits, is not stopped, and the group then has an extension that a
      member does not list; its own leaf was never checked against it. */
  lemma {:induction false} SupportDropped(seed: Secret)
    ensures var st := Extended();
      Valid(st.tree) && AllSupport(st.tree, st.context.extensions) &&
      var r := CreateCommit(AnyPolicy(), st, Dropping(), seed);
      && r.Ok? && r.value.state.context.extensions == st.context.extensions
      && !AllSupport(r.value.state.tree, st.context.extensions)
  {
    hide Extended, DraftCommit, EpochOf, CommitterState, Groups.CreateGroup;
    ExtendedIs();
    var st := Extended();
    var d := DroppingDrafted(seed);
    DraftValid(AnyPolicy(), st, Dropping(), seed);
    CommitterExtensions(st, Dropping(), d);
    assert HasLeaf(DraftTree(d), 0);
  }
}

/** Runs of one client from the three ways it enters a group: creating it, a
    Welcome, or an external commit. What Lifecycle and UpdateKeys keep over a
    run holds of those first states, so it holds of every state a client reaches. */
module ClientRuns {
  import opened Options
  import opened Terms
  import opened TreeMath
  import opened RatchetTree
  import opened ParentHashes
  import opened UpdatePaths
  import opened LeafValidation
  import opened ClientStates
  import opened PrivateKeys
  import opened UnmergedLeaves
  import opened KeyOwnership
  import opened Proposals
  import opened PathRules
  import opened Membership
  import opened FilterPending
  import opened Commits
  import opened Joins
  import opened Messages
  import opened Agreement
  import opened Convergence
  import opened Joiners
  import opened AcceptedCommits
  import opened ExternalJoins
  import opened Lifecycle
  import opened UpdateKeys
  import opened EpochTags
  import opened MemberRuns
  import Groups

  datatype Entry =
    | Creates(
        groupId: nat, keyPackage: KeyPackage, keys: PrivateKeyPackage, extensions: seq<Extension>, epochSecret: Secret,
        retain: int, maxPending: int)
    | IsWelcomed(welcome: Welcome, keyPackage: KeyPackage, keys: PrivateKeyPackage, retain: int, maxPending: int)
    | JoinsExternally(
        info: ExternalInfo, keyPackage: KeyPackage, keys: PrivateKeyPackage, options: ExternalOptions, seed: Secret)

  ghost function Enter(env: Env, e: Entry): Result<ClientState> {
    match e
    case Creates(id, kp, keys, exts, secret, retain, max) =>
      if env.externalSendersOk(exts) then Ok(Groups.CreateGroup(id, kp, keys, exts, secret, retain, max))
      else Err(ExternalSendersRejected)
    case IsWelcomed(w, kp, keys, retain, max) => JoinGroup(env, w, kp, keys, retain, max)
    case JoinsExternally(info, kp, keys, o, seed) =>
      var r :- JoinExternal(env, info, kp, keys, o, seed);
      Ok(r.state)
  }

  // ---- the first state ----

  /** Nothing pending, nothing retained. */
  ghost predicate Newly(st: ClientState) {
    Valid(st.tree) && st.pending == [] && st.updateKeys == map[] && st.history == map[] && st.active == IsActive
  }

  lemma {:induction false} CreatedIsNew(e: Entry, env: Env)
    requires e.Creates? && Enter(env, e).Ok?
    ensures Newly(Enter(env, e).value)
  {
    hide RootHash, ConfirmationTag, NewSecretTree;
  }

  lemma {:induction false} WelcomedIsNew(e: Entry, env: Env)
    requires e.IsWelcomed? && Enter(env, e).Ok?
    ensures Newly(Enter(env, e).value)
  {
    hide JoinKeys, DeriveKeySchedule, NewSecretTree, InfoError, PskSecret, ConfirmationTag, LeavesAccepted, RootHash,
      KeysDistinct, UnmergedOk;
  }

  lemma {:induction false} DraftedTreeValid(
      env: Env, gi: GroupInfo, kp: KeyPackage, keys: PrivateKeyPackage, resync: bool, seed: Secret)
    requires Valid(gi.tree) && DraftExternal(env, gi, kp, keys, resync, seed).Ok?
    ensures Valid(DraftExternal(env, gi, kp, keys, resync, seed).value.created.tree)
  {
    hide PathTree, NewSenderLeaf, SealPath, SecretsAbove, RemoveLeaf;
    var d := DraftExternal(env, gi, kp, keys, resync, seed).value;
    AddLeafAt(d.base, kp.leaf);
  }

  lemma {:induction false} ExternalIsNew(e: Entry, env: Env)
    requires e.JoinsExternally? && Enter(env, e).Ok?
    ensures Newly(Enter(env, e).value)
  {
    hide DraftExternal, ExternalEpoch, NewSecretTree, ExternalKeys, LeavesAccepted, RootHash, KeysDistinct, UnmergedOk;
    DraftedTreeValid(env, e.info.info, e.keyPackage, e.keys, e.options.resync, e.seed);
  }

  /** However it entered, a client starts within every rule of its runs. */
  lemma {:induction false} EntryOk(env: Env, e: Entry)
    requires Enter(env, e).Ok?
    ensures var st := Enter(env, e).value; Newly(st) && StateOk(st) && WindowOk(st, st.context.epoch) && KeysListed(st)
  {
    hide Enter;
    match e
    case Creates(_, _, _, _, _, _, _) => CreatedIsNew(e, env);
    case IsWelcomed(_, _, _, _, _) => WelcomedIsNew(e, env);
    case JoinsExternally(_, _, _, _, _) => ExternalIsNew(e, env);
  }

  // ---- the first keys ----

  /** The path secret it was sent, or none, covers the newcomer's ancestors. */
  ghost predicate SecretCovers(w: Welcome, kp: KeyPackage, l: nat) {
    && Full(|w.info.tree|) && 2 * w.info.signer < |w.info.tree| && FindSealed(w.secrets, kp).Some?
    && WelcomeCovers(w.info.tree, w.info.signer, l, FindSealed(w.secrets, kp).value.secrets.pathSecret.Some?)
  }

  lemma {:induction false} FirstInOrder(st: ClientState)
    requires Newly(st) && Signs(st.tree, st.privatePath.leaf, st.signKey) && ListsBelow(st.tree)
    ensures MemberInOrder(st) <==> Exact(st.tree, st.privatePath)
  {
    hide Exact, Signs, ListsBelow;
  }

  lemma {:induction false} CreatedExact(env: Env, e: Entry)
    requires e.Creates? && Enter(env, e).Ok? && KeysFit(e.keyPackage, e.keys)
    ensures var st := Enter(env, e).value; MemberInOrder(st) && GoodTree(st.tree)
  {
    hide MemberOk, GoodTree, RootHash, ConfirmationTag, NewSecretTree, Groups.CreateGroup, ListsBelow;
    Groups.CreatedInGoodOrder(
      e.groupId, e.keyPackage, e.keys, e.extensions, e.epochSecret, e.retain, e.maxPending);
    GoodBelow(Enter(env, e).value.tree);
  }

  lemma {:induction false} WelcomedIs(env: Env, e: Entry)
    requires e.IsWelcomed? && Enter(env, e).Ok?
    ensures var st, w := Enter(env, e).value, e.welcome;
      var t, s := w.info.tree, w.info.signer;
      var sealed := FindSealed(w.secrets, e.keyPackage);
      && sealed.Some? && st.tree == t && Valid(t) && UnmergedOk(t) && 2 * s < |t|
      && LeafAt(t, st.privatePath.leaf) == Some(e.keyPackage.leaf) && st.signKey == e.keys.signKey
      && JoinKeys(t, s, st.privatePath.leaf, e.keys.hpkeKey, sealed.value.secrets.pathSecret) == Ok(st.privatePath)
  {
    hide DeriveKeySchedule, NewSecretTree, PskSecret, ConfirmationTag, LeavesAccepted, RootHash, KeysDistinct,
      UnmergedOk, WelcomeKeys, ToPrivatePath, ExtensionsSupported, FilteredFrom;
    var w := e.welcome;
    var l := FindLeaf(w.info.tree, e.keyPackage.leaf, 0).value;
    var secret := FindSealed(w.secrets, e.keyPackage).value.secrets.pathSecret;
    KeepsOwnLeaf(w.info.tree, w.info.signer, l, e.keys.hpkeKey, secret);
  }

  lemma {:induction false} KeepsOwnLeaf(t: Tree, signer: nat, l: nat, key: Secret, secret: Option<Secret>)
    requires Full(|t|) && 2 * signer < |t| && JoinKeys(t, signer, l, key, secret).Ok?
    ensures JoinKeys(t, signer, l, key, secret).value.leaf == l
  {
    hide FilteredFrom, WelcomeKeys;
    if secret.Some? {
      var i := FirstMatch(FilteredPath(t, signer), l).value;
      WelcomeLeaf(t, signer, FilteredPath(t, signer)[i].node, secret.value, PrivatePath(l, map[2 * l := key]));
    }
  }

  lemma {:induction false} WelcomedExactIff(env: Env, e: Entry)
    requires e.IsWelcomed? && Enter(env, e).Ok? && KeysFit(e.keyPackage, e.keys)
    ensures var st := Enter(env, e).value;
      MemberInOrder(st) <==> SecretCovers(e.welcome, e.keyPackage, st.privatePath.leaf)
  {
    hide Enter, Exact, ListsBelow, UnmergedOk, MemberInOrder, JoinKeys, WelcomeCovers;
    var st, w := Enter(env, e).value, e.welcome;
    EntryOk(env, e);
    WelcomedIs(env, e);
    UnmergedBelow(st.tree);
    FirstInOrder(st);
    JoinExactIff(
      st.tree, w.info.signer, st.privatePath.leaf, e.keys.hpkeKey,
      FindSealed(w.secrets, e.keyPackage).value.secrets.pathSecret);
  }

  lemma {:induction false} ExternalExact(env: Env, e: Entry)
    requires e.JoinsExternally? && Enter(env, e).Ok? && KeysFit(e.keyPackage, e.keys)
    ensures MemberInOrder(Enter(env, e).value)
  {
    hide JoinExternal, DraftExternal, MemberOk, ListsBelow, PathTree, AddLeaf, RemoveLeaf;
    var gi, kp, keys, o, seed := e.info.info, e.keyPackage, e.keys, e.options, e.seed;
    var d := ExternalDraftOf(env, e.info, kp, keys, o, seed);
    JoinResult(env, e.info, kp, keys, o, seed, d);
    ExternalJoinerKeeps(env, e.info, kp, keys, o, seed, d);
    DraftIs(env, gi, kp, keys, o.resync, seed, d);
    UnmergedBelow(gi.tree);
    if d.removes != [] {
      RemoveLeafAt(gi.tree, d.removes[0]);
      BlankingKeepsBelow(gi.tree, d.base, d.removes[0], None);
    }
    AddKeepsBelow(d.base, kp.leaf);
    NewTreeWritten(JoinerTree(d, kp), d.leaf, gi.context, keys.signKey, seed, NoPatch);
    PathKeepsBelow(JoinerTree(d, kp), d.created.tree, d.leaf);
  }

  lemma {:induction false} ExternalDraftOf(
      env: Env, info: ExternalInfo, kp: KeyPackage, keys: PrivateKeyPackage, o: ExternalOptions, seed: Secret)
      returns (d: ExternalDraft)
    requires JoinExternal(env, info, kp, keys, o, seed).Ok? && KeysFit(kp, keys)
    ensures JoinMade(env, info.info, kp, keys, o.resync, seed, d) && UnmergedOk(info.info.tree)
  {
    hide CreateUpdatePath, LeavesAccepted, RootHash, KeysDistinct, UnmergedOk, ExternalEpoch, NewSecretTree, AddLeaf,
      RemoveLeaf, ExternalKeys, ConfirmationTag;
    d := DraftExternal(env, info.info, kp, keys, o.resync, seed).value;
  }

  /** The client has the keys behind its key package, and a Welcome covers its ancestors. */
  ghost predicate FirstKeysExact(e: Entry, first: ClientState) {
    && KeysFit(e.keyPackage, e.keys)
    && (e.IsWelcomed? ==> SecretCovers(e.welcome, e.keyPackage, first.privatePath.leaf))
  }

  /** Once it has its own keys a client starts with exactly the keys it must: always
      when it creates the group or joins by an external commit, and from a Welcome
      when and only when the path secret in it covers its ancestors. */
  lemma {:induction false} EntryExactIff(env: Env, e: Entry)
    requires Enter(env, e).Ok? && KeysFit(e.keyPackage, e.keys)
    ensures var st := Enter(env, e).value; MemberInOrder(st) <==> FirstKeysExact(e, st)
  {
    hide Enter, MemberInOrder, SecretCovers, KeysFit;
    match e
    case Creates(_, _, _, _, _, _, _) => CreatedExact(env, e);
    case IsWelcomed(_, _, _, _, _) => WelcomedExactIff(env, e);
    case JoinsExternally(_, _, _, _, _) => ExternalExact(env, e);
  }

  // ---- every state reached ----

  /** In every state a client reaches, its pending proposals and Update keys are
      of its epoch and the pending within bounds, its epoch has advanced once for
      each commit accepted, and the epochs it retains are the newest since it
      entered, as many as it is set to keep. Started from exact keys it holds, in
      every state, exactly the keys its tree says it must and can sign for its
      leaf, however dishonest the commits it was sent; and a good tree stays good. */
  lemma {:induction false} EveryReachableState(env: Env, e: Entry, inputs: seq<Input>)
    requires Enter(env, e).Ok?
    ensures var first := Enter(env, e).value;
      StateOk(first) &&
      var n := Run(env, first, inputs);
      && StateOk(n) && n.context.epoch == first.context.epoch + Accepted(env, first, inputs)
      && n.history.Keys == Window(first.context.epoch, n.context.epoch, n.retain)
      && |n.history| == (
           if n.retain <= 0 then 0 else if n.retain < Accepted(env, first, inputs) then n.retain
           else Accepted(env, first, inputs))
      && (FirstKeysExact(e, first) && GenuineRun(env, first, inputs) ==>
            MemberInOrder(n) && n.privatePath.leaf == first.privatePath.leaf
            && (GoodTree(first.tree) && FreshRun(env, first, inputs) ==> GoodTree(n.tree)))
  {
    hide Enter, StateOk, Run, Accepted, Window, SecretCovers, KeysFit, MemberInOrder, GoodTree, GenuineRun,
      FreshRun;
    var first := Enter(env, e).value;
    EntryOk(env, e);
    RunKeeps(env, first, inputs);
    RunWindow(env, first, inputs, first.context.epoch);
    var n := Run(env, first, inputs);
    WindowSize(first.context.epoch, n.context.epoch, n.retain);
    assert |n.history| == |n.history.Keys|;
    if FirstKeysExact(e, first) && GenuineRun(env, first, inputs) {
      EntryExactIff(env, e);
      RunKeepsMember(env, first, inputs);
      if GoodTree(first.tree) && FreshRun(env, first, inputs) { RunKeepsTree(env, first, inputs); }
    }
  }

  lemma {:induction false} EntryBound(env: Env, e: Entry)
    requires Enter(env, e).Ok?
    ensures BoundLater(Enter(env, e).value)
  {
    hide JoinGroup, JoinExternal, Bound, RootHash, ConfirmationTag, NewSecretTree;
    match e
    case Creates(_, _, _, _, _, _, _) =>
    case IsWelcomed(w, kp, keys, retain, max) =>
      WelcomedBound(env, w, kp, keys, retain, max);
      BoundIsLater(Enter(env, e).value);
    case JoinsExternally(info, kp, keys, o, seed) =>
      JoinedBound(env, info, kp, keys, o, seed);
      BoundIsLater(Enter(env, e).value);
  }

  /** Any two clients, however each entered and whatever each was sent: past the
      epoch a group is created in, one confirmation tag means one epoch, with one
      context, tree and key schedule. */
  lemma {:induction false} OneTagOneEpoch(
      env: Env, e: Entry, inputs: seq<Input>, other: Env, f: Entry, others: seq<Input>)
    requires Enter(env, e).Ok? && Enter(other, f).Ok?
    ensures StateOk(Enter(env, e).value) && StateOk(Enter(other, f).value)
    ensures var a, b := Run(env, Enter(env, e).value, inputs), Run(other, Enter(other, f).value, others);
      a.context.epoch > 0 && b.context.epoch > 0 && a.tag == b.tag ==> SameEpoch(a, b)
  {
    hide Enter, StateOk, Run, Bound, SameEpoch;
    EntryOk(env, e);
    EntryOk(other, f);
    EntryBound(env, e);
    EntryBound(other, f);
    var a, b := Run(env, Enter(env, e).value, inputs), Run(other, Enter(other, f).value, others);
    RunBound(env, Enter(env, e).value, inputs);
    RunBound(other, Enter(other, f).value, others);
    if a.context.epoch > 0 && b.context.epoch > 0 && a.tag == b.tag { SameTagSameEpoch(a, b); }
  }

  /** While it discards none of its own pending Updates, a client's keys stay
      within the limit on pending proposals. */
  lemma {:induction false} KeysWithinLimit(env: Env, e: Entry, inputs: seq<Input>)
    requires Enter(env, e).Ok?
    ensures var first := Enter(env, e).value;
      StateOk(first) &&
      var n := Run(env, first, inputs);
      KeepsOwnUpdates(env, first, inputs) ==>
        |n.updateKeys| <= |n.pending| && |n.updateKeys| <= (if n.maxPending > 0 then n.maxPending else 0)
  {
    hide Enter, StateOk, Run, KeepsOwnUpdates;
    EntryOk(env, e);
    var first := Enter(env, e).value;
    if KeepsOwnUpdates(env, first, inputs) {
      RunKeepsKeysWithin(env, first, inputs);
      RunKeeps(env, first, inputs);
      BoundedPending(Run(env, first, inputs));
    }
  }

  lemma {:induction false} BoundedPending(st: ClientState)
    requires StateOk(st)
    ensures |st.pending| <= (if st.maxPending > 0 then st.maxPending else 0)
  {
  }

  // ---- two runs a client can really have ----

  /** A client whose policies allow everything, alone in a group it created, with
      room for one pending proposal. */
  function AnyPolicy(): Env {
    Env((c, k, p) => true, k => true, k => true, l => true, false, (a, b) => false, (a, b) => false, x => true,
      p => None, {})
  }

  function FirstKeys(): PrivateKeyPackage {
    PrivateKeyPackage(Random(0), Random(1), Random(2))
  }

  function FirstPackage(): KeyPackage {
    KeyPackage(
      1, 1, Pub(Random(0)),
      LeafNode(
        Pub(Random(1)), Pub(Random(2)), Credential(1, 0), Capabilities([1], [], []), [], FromKeyPackage(0),
        LeafSignature(Random(2), None)),
      Random(2))
  }

  function Alone(): ClientState {
    Groups.CreateGroup(0, FirstPackage(), FirstKeys(), [], Random(4), 0, 1)
  }

  lemma {:induction false} AloneUpdates()
    ensures Valid(Alone().tree) && CreateUpdate(AnyPolicy(), Alone(), true, Random(3), NoPatch, 0).Ok?
  {
    hide RootHash, ConfirmationTag, NewSecretTree;
    var st, env := Alone(), AnyPolicy();
    assert st.tree == [Some(Leaf(FirstPackage().leaf))];
    assert forall x: nat :: At(st.tree, x) == if x == 0 then Some(Leaf(FirstPackage().leaf)) else None;
    var leaf := UpdatedLeaf(st, LeafAt(st.tree, 0).value, Random(3), NoPatch);
    assert WithoutRequired(st.context.extensions) == [];
    assert FirstRequired([]) == None;
    assert leaf.capabilities.credentials[0] == 1;
    assert SupportedByEvery(st.tree, 1);
    assert UpdateOrCommitOk(env, leaf, 0, st.context.(extensions := []), st.tree, LeafCredential(st.tree, 0));
  }

  /** It may keep one proposal pending, and comes to hold any number of keys. */
  lemma {:induction false} AnyNumberOfKeys(k: nat)
    ensures var st := Alone();
      StateOk(st) && st.maxPending == 1 &&
      var n := Run(AnyPolicy(), st, ProposeAndDiscard(0, Random(3), NoPatch, k));
      n.pending == [] && |n.updateKeys| == k
  {
    hide CreateUpdate, Run;
    AloneUpdates();
    EntryOk(AnyPolicy(), Creates(0, FirstPackage(), FirstKeys(), [], Random(4), 0, 1));
    KeysUnbounded(AnyPolicy(), Alone(), Random(3), NoPatch, k);
  }

  lemma {:induction false} OwnRemovalStored(env: Env, st: ClientState, wire: bool, id: nat)
    requires Valid(st.tree) && HasLeaf(st.tree, 0) && st.pending == [] && st.active == IsActive && st.maxPending > 0
    ensures var n := Next(env, st, Proposes(wire, Remove(0), id));
      && n == st.(pending := n.pending, secretTree := n.secretTree)
      && n.pending == [Pending(Ref(st.context.epoch, id), OwnItemOf(st, Remove(0)))]
  {
    hide Receive, CreateCommit, CreateUpdate;
  }

  /** A member that proposes its own removal in a group of one can commit nothing,
      whatever it would add: the filter throws. Discarding the proposal ends that. */
  lemma {:induction false} OwnRemovalBlocks(env: Env, e: Entry, wire: bool, id: nat, o: CommitOptions, seed: Secret)
    requires e.Creates? && e.maxPending > 0 && Enter(env, e).Ok?
    ensures var st := Enter(env, e).value;
      Valid(st.tree) &&
      var n := Next(env, st, Proposes(wire, Remove(0), id));
      && Valid(n.tree) && CreateCommit(env, n, o, seed).Err?
      && DiscardPending(n, Ref(0, id)).pending == []
      && FilterPendingProposals(env, DiscardPending(n, Ref(0, id)), o.extra).Ok?
  {
    hide RootHash, ConfirmationTag, NewSecretTree, TreeOk, Next, CreateCommit, KeepAll;
    var st := Enter(env, e).value;
    Groups.OneLeafGood(st.tree, e.keyPackage.leaf);
    assert forall x: nat :: At(st.tree, x) == if x == 0 then Some(Leaf(e.keyPackage.leaf)) else None;
    assert HasLeaf(st.tree, 0);
    OwnRemovalStored(env, st, wire, id);
    var n := Next(env, st, Proposes(wire, Remove(0), id));
    assert Without(n.pending, Ref(0, id)) == [];
    assert NamedBy(n.pending, 0);
    FilterThrowsIff(env, n, o.extra);
    FilterThrowsIff(env, DiscardPending(n, Ref(0, id)), o.extra);
    DraftNeedsFilter(env, n, o, seed);
  }

  lemma {:induction false} DraftNeedsFilter(env: Env, st: ClientState, o: CommitOptions, seed: Secret)
    requires Valid(st.tree) && FilterPendingProposals(env, st, o.extra).Err?
    ensures CreateCommit(env, st, o, seed).Err?
  {
    hide FilterPendingProposals, ApplyProposals, DraftPath, CreateWelcome, CommitterState, EpochOf;
  }
}

/** What the secrecy of a new epoch rests on: somebody outside it learns the
    epoch's secret from a commit with a path exactly when it already has the
    private key of somebody the commit was sealed to. */
module Secrecy {
  import opened Options
  import opened Terms
  import opened TreeMath
  import opened RatchetTree
  import opened ParentHashes
  import opened UpdatePaths
  import opened LeafValidation
  import opened ClientStates
  import opened PrivateKeys
  import opened UnmergedLeaves
  import opened KeyOwnership
  import opened Proposals
  import opened Commits
  import opened Agreement
  import opened Convergence
  import opened Joiners

  // ---- what can be learnt ----

  /** A secret sealed to a public key. */
  datatype Box = Box(to: PublicKey, plain: Secret)

  /** One secret more than those known: one anybody can compute from them, or what
      a box holds whose key is known. */
  predicate Learns(boxes: seq<Box>, known: seq<Secret>, x: Secret) {
    || x == Zero
    || (x.Derived? && x.from in known)
    || (x.JoinerSecret? && x.init in known && x.commit in known)
    || (x.EpochSecret? && x.joiner in known && x.psk in known)
    || (x.WelcomeSecret? && x.joiner in known && x.psk in known)
    || (x.PskStep? && x.acc in known && x.psk in known)
    || (x.ExternalInitSecret? && x.to.secret in known)
    || exists b | b in boxes :: b.to.secret in known && b.plain == x
  }

  /** Each secret is one to begin with or learnt from those before it. */
  ghost predicate Learning(start: iset<Secret>, boxes: seq<Box>, steps: seq<Secret>) {
    forall i | 0 <= i < |steps| :: steps[i] in start || Learns(boxes, steps[..i], steps[i])
  }

  ghost predicate Learnable(start: iset<Secret>, boxes: seq<Box>, x: Secret) {
    exists steps :: Learning(start, boxes, steps) && x in steps
  }

  /** Some box is sealed to a key that can be had without opening any. */
  ghost predicate Opens(start: iset<Secret>, boxes: seq<Box>) {
    exists b :: b in boxes && Learnable(start, [], b.to.secret)
  }

  lemma {:induction false} LearnsMore(boxes: seq<Box>, more: seq<Box>, known: seq<Secret>, x: Secret)
    requires Learns(boxes, known, x) && forall b | b in boxes :: b in more
    ensures Learns(more, known, x)
  {
  }

  lemma {:induction false} Extended(start: iset<Secret>, boxes: seq<Box>, steps: seq<Secret>, x: Secret)
    requires Learning(start, boxes, steps) && (x in start || Learns(boxes, steps, x))
    ensures Learning(start, boxes, steps + [x]) && x in steps + [x]
  {
    hide Learns;
    var all := steps + [x];
    forall i | 0 <= i < |all| ensures all[i] in start || Learns(boxes, all[..i], all[i]) {
      if i < |steps| { assert all[..i] == steps[..i]; } else { assert all[..i] == steps; }
    }
  }

  lemma {:induction false} Prefix(start: iset<Secret>, boxes: seq<Box>, steps: seq<Secret>, n: nat)
    requires Learning(start, boxes, steps) && n <= |steps|
    ensures Learning(start, boxes, steps[..n])
  {
    hide Learns;
    forall i | 0 <= i < n ensures steps[..n][i] in start || Learns(boxes, steps[..n][..i], steps[..n][i]) {
      assert steps[..n][..i] == steps[..i];
    }
  }

  lemma {:induction false} WithBoxes(start: iset<Secret>, boxes: seq<Box>, steps: seq<Secret>)
    requires Learning(start, [], steps)
    ensures Learning(start, boxes, steps)
  {
    hide Learns;
    forall i | 0 <= i < |steps| && steps[i] !in start ensures Learns(boxes, steps[..i], steps[i]) {
      LearnsMore([], boxes, steps[..i], steps[i]);
    }
  }

  // ---- what comes of a seed ----

  /** `x` is the seed or made from something that is. */
  predicate From(seed: Secret, x: Secret) {
    x == seed ||
    match x
    case Derived(f, _) => From(seed, f)
    case JoinerSecret(i, c, _) => From(seed, i) || From(seed, c)
    case EpochSecret(j, p, _) => From(seed, j) || From(seed, p)
    case WelcomeSecret(j, p) => From(seed, j) || From(seed, p)
    case PskStep(a, _, p, _, _) => From(seed, a) || From(seed, p)
    case ExternalInitSecret(to, _) => From(seed, to.secret)
    case _ => false
  }

  lemma {:induction false} LearnsFree(known: seq<Secret>, x: Secret, seed: Secret)
    requires seed.Random? && Learns([], known, x) && forall k | k in known :: !From(seed, k)
    ensures !From(seed, x)
  {
  }

  lemma {:induction false} LearningFree(start: iset<Secret>, steps: seq<Secret>, seed: Secret)
    requires seed.Random? && Learning(start, [], steps) && forall k | k in start :: !From(seed, k)
    ensures forall k | k in steps :: !From(seed, k)
    decreases |steps|
  {
    hide Learns, From;
    if steps != [] {
      var n := |steps| - 1;
      Prefix(start, [], steps, n);
      LearningFree(start, steps[..n], seed);
      if steps[n] !in start { LearnsFree(steps[..n], steps[n], seed); }
      assert steps == steps[..n] + [steps[n]];
    }
  }

  /** Before the first box is opened nothing was, so its key was to be had without. */
  lemma {:induction false} FirstOpened(start: iset<Secret>, boxes: seq<Box>, steps: seq<Secret>)
    requires Learning(start, boxes, steps)
    ensures Learning(start, [], steps) || Opens(start, boxes)
    decreases |steps|
  {
    hide Learning;
    if steps == [] {
      assert Learning(start, [], steps) by { NothingLearnt(start); }
    } else {
      var n := |steps| - 1;
      Prefix(start, boxes, steps, n);
      FirstOpened(start, boxes, steps[..n]);
      if Learning(start, [], steps[..n]) {
        assert steps == steps[..n] + [steps[n]];
        LastStep(start, boxes, steps);
        if steps[n] in start || Learns([], steps[..n], steps[n]) {
          Extended(start, [], steps[..n], steps[n]);
        } else {
          var b :| b in boxes && b.to.secret in steps[..n] && b.plain == steps[n];
          assert Learnable(start, [], b.to.secret);
        }
      }
    }
  }

  lemma {:induction false} NothingLearnt(start: iset<Secret>)
    ensures Learning(start, [], [])
  {
  }

  lemma {:induction false} LastStep(start: iset<Secret>, boxes: seq<Box>, steps: seq<Secret>)
    requires Learning(start, boxes, steps) && steps != []
    ensures var n := |steps| - 1; steps[n] in start || Learns(boxes, steps[..n], steps[n])
  {
    hide Learns;
  }

  /** Whoever has nothing of the seed learns nothing of it but by opening a box. */
  lemma {:induction false} SeedKept(start: iset<Secret>, boxes: seq<Box>, seed: Secret, x: Secret)
    requires seed.Random? && (forall k | k in start :: !From(seed, k)) && From(seed, x)
    requires Learnable(start, boxes, x)
    ensures Opens(start, boxes)
  {
    hide Learning, From;
    var steps :| Learning(start, boxes, steps) && x in steps;
    FirstOpened(start, boxes, steps);
    if Learning(start, [], steps) { LearningFree(start, steps, seed); }
  }

  // ---- what a commit seals ----

  function SealedBoxes(cts: seq<Ciphertext>): (r: seq<Box>)
    ensures |r| == |cts| && forall i | 0 <= i < |cts| :: r[i] == Box(cts[i].to, cts[i].plain)
  {
    seq(|cts|, i requires 0 <= i < |cts| => Box(cts[i].to, cts[i].plain))
  }

  function PathBoxes(nodes: seq<UpdatePathNode>): seq<Box> {
    if nodes == [] then [] else SealedBoxes(nodes[0].sealed) + PathBoxes(nodes[1..])
  }

  function WelcomeBoxes(secrets: seq<SealedSecrets>): seq<Box> {
    if secrets == [] then [] else
    var s := secrets[0];
    [Box(s.to, s.secrets.joiner)]
      + (if s.secrets.pathSecret.Some? then [Box(s.to, s.secrets.pathSecret.value)] else [])
      + WelcomeBoxes(secrets[1..])
  }

  /** All that a commit seals: its path, and the Welcome to those it adds. */
  function CommitBoxes(r: CommitResult): seq<Box> {
    (if r.message.content.commit.path.Some? then PathBoxes(r.message.content.commit.path.value.nodes) else [])
      + (if r.welcome.Some? then WelcomeBoxes(r.welcome.value.secrets) else [])
  }

  lemma {:induction false} PathBoxIs(t: Tree, secrets: seq<PathSecret>, context: GroupContext, b: Box) returns (i: nat)
    requires SealPath(t, secrets, context).Ok? && b in PathBoxes(SealPath(t, secrets, context).value)
    ensures i < |secrets| && b.plain == secrets[i].secret
    ensures exists n :: n in secrets[i].sendTo && At(t, n).Some? && b.to == KeyOf(At(t, n).value)
    decreases |secrets|
  {
    var nodes := SealPath(t, secrets, context).value;
    SealAllAt(t, secrets[0].sendTo, context, secrets[0].secret);
    if k :| 0 <= k < |nodes[0].sealed| && SealedBoxes(nodes[0].sealed)[k] == b {
      i := 0;
      assert secrets[0].sendTo[k] in secrets[0].sendTo;
    } else {
      i := PathBoxIs(t, secrets[1..], context, b);
      i := i + 1;
    }
  }

  lemma {:induction false} WelcomeBoxIs(secrets: seq<SealedSecrets>, b: Box) returns (s: SealedSecrets)
    requires b in WelcomeBoxes(secrets)
    ensures s in secrets && b.to == s.to && Box(s.to, s.secrets.joiner) in WelcomeBoxes(secrets)
  {
    s := secrets[0];
    if b.to != s.to || b.plain != s.secrets.joiner {
      if !(s.secrets.pathSecret.Some? && b == Box(s.to, s.secrets.pathSecret.value)) {
        s := WelcomeBoxIs(secrets[1..], b);
      }
    }
  }

  lemma {:induction false} WelcomeJoiner(d: Draft, s: nat, joiner: Secret, added: seq<Added>, x: SealedSecrets)
    requires Full(|DraftTree(d)|) && 2 * s < |DraftTree(d)| && SealForAll(d, s, joiner, added).Ok?
    requires x in SealForAll(d, s, joiner, added).value
    ensures x.secrets.joiner == joiner
    decreases |added|
  {
    hide SealFor;
    var first := SealFor(d, s, joiner, added[0]).value;
    SealForIs(d, s, joiner, added[0], first);
    if x != first { WelcomeJoiner(d, s, joiner, added[1..], x); }
  }

  // ---- opening one is enough ----

  lemma {:induction false} UpThePath(
      start: iset<Secret>, boxes: seq<Box>, steps: seq<Secret>, seed: Secret, i: nat, n: nat)
      returns (more: seq<Secret>)
    requires Learning(start, boxes, steps) && PathSecretAt(seed, i) in steps && i <= n
    ensures Learning(start, boxes, more) && PathSecretAt(seed, n) in more
    decreases n - i
  {
    hide Learning;
    if i == n {
      more := steps;
    } else {
      Extended(start, boxes, steps, PathSecretAt(seed, i + 1));
      more := UpThePath(start, boxes, steps + [PathSecretAt(seed, i + 1)], seed, i + 1, n);
    }
  }

  lemma {:induction false} BoxOpened(start: iset<Secret>, boxes: seq<Box>, b: Box)
    requires b in boxes && Learnable(start, [], b.to.secret)
    ensures Learnable(start, boxes, b.plain)
  {
    hide Learning;
    var steps :| Learning(start, [], steps) && b.to.secret in steps;
    WithBoxes(start, boxes, steps);
    Extended(start, boxes, steps, b.plain);
  }

  /** From the commit secret, or the joiner secret, and what old members know. */
  lemma {:induction false} ToTheEpoch(
      start: iset<Secret>, boxes: seq<Box>, init: Secret, commit: Secret, psk: Secret, context: GroupContext)
    requires init in start && psk in start
    requires var joiner := JoinerSecret(init, commit, context);
      Learnable(start, boxes, commit) || Learnable(start, boxes, joiner)
    ensures Learnable(start, boxes, Secret.EpochSecret(JoinerSecret(init, commit, context), psk, context))
  {
    hide Learning;
    var joiner := JoinerSecret(init, commit, context);
    var steps: seq<Secret>;
    if Learnable(start, boxes, joiner) {
      steps :| Learning(start, boxes, steps) && joiner in steps;
    } else {
      steps :| Learning(start, boxes, steps) && commit in steps;
      Extended(start, boxes, steps, init);
      steps := steps + [init];
      Extended(start, boxes, steps, joiner);
      steps := steps + [joiner];
    }
    Extended(start, boxes, steps, psk);
    steps := steps + [psk];
    var epoch := Secret.EpochSecret(joiner, psk, context);
    Extended(start, boxes, steps, epoch);
  }

  // ---- the commit ----

  lemma {:induction false} SeedComes(seed: Secret, i: nat)
    ensures From(seed, PathSecretAt(seed, i))
  {
    if i > 0 { SeedComes(seed, i - 1); }
  }

  /** The commit secret ends the path the seed starts. */
  lemma {:induction false} CommitSecretIs(
      t: Tree, s: nat, gc: GroupContext, signKey: Secret, seed: Secret, exclude: seq<nat>, patch: LeafPatch)
    requires Valid(t) && CreateUpdatePath(t, s, gc, signKey, seed, exclude, patch).Ok?
    ensures HasLeaf(t, s)
    ensures var c := CreateUpdatePath(t, s, gc, signKey, seed, exclude, patch).value;
      CommitSecret(Some(c)) == PathSecretAt(seed, |FilteredPath(t, s)| + 1)
  {
    hide FilteredFrom, NewTree, NewSenderLeaf, SealPath, SecretsAbove;
    var path := FilteredPath(t, s);
    if path != [] { SecretsAboveAt(path, seed, exclude, |path| - 1); }
  }

  lemma {:induction false} PathBoxLeads(
      t: Tree, s: nat, gc: GroupContext, signKey: Secret, seed: Secret, exclude: seq<nat>, patch: LeafPatch,
      start: iset<Secret>, boxes: seq<Box>, b: Box)
    requires Valid(t) && CreateUpdatePath(t, s, gc, signKey, seed, exclude, patch).Ok?
    requires b in PathBoxes(CreateUpdatePath(t, s, gc, signKey, seed, exclude, patch).value.path.nodes)
    requires b in boxes && Learnable(start, [], b.to.secret)
    ensures Learnable(start, boxes, PathSecretAt(seed, |FilteredPath(t, s)| + 1))
  {
    hide FilteredFrom, NewTree, NewSenderLeaf, SealPath, SecretsAbove, Learning, PathBoxes, PathSecretAt;
    var path := FilteredPath(t, s);
    var c := CreateUpdatePath(t, s, gc, signKey, seed, exclude, patch).value;
    var secrets := SecretsAbove(path, seed, exclude);
    var i := PathBoxIs(t, secrets, NextContext(gc, c.treeHash), b);
    SecretsAboveAt(path, seed, exclude, i);
    BoxOpened(start, boxes, b);
    var steps :| Learning(start, boxes, steps) && b.plain in steps;
    steps := UpThePath(start, boxes, steps, seed, i + 1, |path| + 1);
  }

  /** The secret every key of the new epoch is derived from. */
  function EpochRoot(st: ClientState, o: CommitOptions, d: Draft): Secret {
    var e := EpochOf(st, o, d);
    Secret.EpochSecret(e.secrets.joiner, d.applied.pskSecret, e.context)
  }

  lemma {:induction false} RootIs(env: Env, st: ClientState, o: CommitOptions, seed: Secret, d: Draft)
    requires Drafted(env, st, o, seed, d)
    ensures CreateCommit(env, st, o, seed).value.state.schedule == DeriveEpochKeys(EpochRoot(st, o, d))
    ensures EpochRoot(st, o, d) == Secret.EpochSecret(
      JoinerSecret(st.schedule.init, CommitSecret(d.created), EpochOf(st, o, d).context), d.applied.pskSecret,
      EpochOf(st, o, d).context)
    ensures d.created.Some? ==>
      EpochOf(st, o, d).message.content.commit.path == Some(d.created.value.path)
  {
    hide CommitSecret, NextEpochContext, CreateCommit, RootHash, AddHistory, CommitterPath, NewSecretTree;
    DraftFacts(env, st, o, seed, d);
  }

  lemma {:induction false} WelcomeOpened(
      env: Env, st: ClientState, o: CommitOptions, seed: Secret, d: Draft, start: iset<Secret>, b: Box)
    requires Drafted(env, st, o, seed, d) && CreateCommit(env, st, o, seed).value.welcome.Some?
    requires var r := CreateCommit(env, st, o, seed).value;
      b in WelcomeBoxes(r.welcome.value.secrets) && Learnable(start, [], b.to.secret)
    ensures Learnable(start, CommitBoxes(CreateCommit(env, st, o, seed).value), EpochOf(st, o, d).secrets.joiner)
  {
    hide DraftCommit, CommitterState, EpochOf, SealForAll, Learnable, PathBoxes, WelcomeBoxes;
    DraftValid(env, st, o, seed);
    var r, e := CreateCommit(env, st, o, seed).value, EpochOf(st, o, d);
    var x := WelcomeBoxIs(r.welcome.value.secrets, b);
    WelcomeJoiner(
      d, st.privatePath.leaf, e.secrets.joiner, if d.applied.kind.MemberCommit? then d.applied.kind.added else [], x);
    BoxOpened(start, CommitBoxes(r), Box(x.to, x.secrets.joiner));
  }

  lemma {:induction false} PathOpened(
      env: Env, st: ClientState, o: CommitOptions, seed: Secret, d: Draft, start: iset<Secret>, b: Box)
    requires Drafted(env, st, o, seed, d) && d.created.Some? && b in PathBoxes(d.created.value.path.nodes)
    requires Learnable(start, [], b.to.secret)
    ensures Learnable(start, CommitBoxes(CreateCommit(env, st, o, seed).value), CommitSecret(d.created))
  {
    hide DraftCommit, CreateCommit, CommitterState, EpochOf, Learnable, PathBoxes, WelcomeBoxes, CreateUpdatePath,
      CommitSecret, UpdateOrCommitOk, FilteredFrom, ApplyProposals, PathSecretAt;
    DraftFacts(env, st, o, seed, d);
    RootIs(env, st, o, seed, d);
    CommitSecretIs(
      d.applied.tree, st.privatePath.leaf, CheckedContext(st, d.applied.kind), st.signKey, seed,
      ExcludedNodes(d.applied.kind), OrElse(o.patch, NoPatch));
    PathBoxLeads(
      d.applied.tree, st.privatePath.leaf, CheckedContext(st, d.applied.kind), st.signKey, seed,
      ExcludedNodes(d.applied.kind), OrElse(o.patch, NoPatch), start,
      CommitBoxes(CreateCommit(env, st, o, seed).value), b);
  }

  /** Somebody who knew everything of the old epoch, and has nothing of the fresh
      seed, learns the new epoch's secret from the commit and its Welcome exactly
      when the commit had no path, or it has the private key, without them, of
      somebody they were sealed to. */
  lemma {:induction false} EpochSecretIff(
      env: Env, st: ClientState, o: CommitOptions, seed: Secret, d: Draft, start: iset<Secret>)
    requires Drafted(env, st, o, seed, d) && seed.Random? && forall k | k in start :: !From(seed, k)
    requires st.schedule.init in start && d.applied.pskSecret in start
    ensures var boxes := CommitBoxes(CreateCommit(env, st, o, seed).value);
      Learnable(start, boxes, EpochRoot(st, o, d)) <==> d.created.None? || Opens(start, boxes)
  {
    hide DraftCommit, CreateCommit, EpochOf, EpochRoot, Learnable, Learns, PathBoxes, WelcomeBoxes, CommitSecret,
      PathSecretAt;
    var r := CreateCommit(env, st, o, seed).value;
    var boxes, e := CommitBoxes(r), EpochOf(st, o, d);
    RootIs(env, st, o, seed, d);
    MessageIs(env, st, o, seed, d);
    if d.created.None? {
      NoSecret(start, boxes, d);
      ToTheEpoch(start, boxes, st.schedule.init, CommitSecret(d.created), d.applied.pskSecret, e.context);
    } else if Opens(start, boxes) {
      var b :| b in boxes && Learnable(start, [], b.to.secret);
      if b in PathBoxes(d.created.value.path.nodes) {
        PathOpened(env, st, o, seed, d, start, b);
      } else {
        WelcomeOpened(env, st, o, seed, d, start, b);
      }
      ToTheEpoch(start, boxes, st.schedule.init, CommitSecret(d.created), d.applied.pskSecret, e.context);
    } else if Learnable(start, boxes, EpochRoot(st, o, d)) {
      RootFrom(env, st, o, seed, d);
      SeedKept(start, boxes, seed, EpochRoot(st, o, d));
    }
  }

  lemma {:induction false} RootFrom(env: Env, st: ClientState, o: CommitOptions, seed: Secret, d: Draft)
    requires Drafted(env, st, o, seed, d) && d.created.Some?
    ensures From(seed, EpochRoot(st, o, d))
  {
    hide DraftCommit, CreateCommit, EpochOf, EpochRoot, CommitSecret, FilteredFrom, PathSecretAt, ApplyProposals,
      CreateUpdatePath, UpdateOrCommitOk, From;
    DraftFacts(env, st, o, seed, d);
    RootIs(env, st, o, seed, d);
    var t, s := d.applied.tree, st.privatePath.leaf;
    CommitSecretIs(
      t, s, CheckedContext(st, d.applied.kind), st.signKey, seed, ExcludedNodes(d.applied.kind),
      OrElse(o.patch, NoPatch));
    SeedComes(seed, |FilteredPath(t, s)| + 1);
    FromEpoch(seed, st.schedule.init, CommitSecret(d.created), d.applied.pskSecret, EpochOf(st, o, d).context);
  }

  lemma {:induction false} FromEpoch(seed: Secret, init: Secret, commit: Secret, psk: Secret, context: GroupContext)
    requires From(seed, commit)
    ensures From(seed, Secret.EpochSecret(JoinerSecret(init, commit, context), psk, context))
  {
  }

  lemma {:induction false} NoSecret(start: iset<Secret>, boxes: seq<Box>, d: Draft)
    requires d.created.None?
    ensures Learnable(start, boxes, CommitSecret(d.created))
  {
    assert Learning(start, boxes, [Zero]);
  }

  lemma {:induction false} MessageIs(env: Env, st: ClientState, o: CommitOptions, seed: Secret, d: Draft)
    requires Drafted(env, st, o, seed, d)
    ensures CreateCommit(env, st, o, seed).value.message == EpochOf(st, o, d).message
    ensures EpochOf(st, o, d).secrets.joiner
      == JoinerSecret(st.schedule.init, CommitSecret(d.created), EpochOf(st, o, d).context)
    ensures d.created.None? ==> EpochOf(st, o, d).message.content.commit.path == None
  {
    hide CommitSecret, NextEpochContext, CreateCommit, RootHash;
    DraftFacts(env, st, o, seed, d);
  }
}

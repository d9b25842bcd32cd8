/** Keys derived from one secret say nothing of each other: the ten outputs of an
    epoch's key schedule (src/key-schedule.ts) and the secrets and keys along an
    update path (src/path-secrets.ts), in the terms of what can be learnt. */
module KeySeparation {
  import opened Options
  import opened Terms
  import opened RatchetTree
  import opened UpdatePaths
  import opened ClientStates
  import opened Commits
  import opened Convergence
  import opened LeafValidation
  import opened Secrecy

  /** Anybody can compute it. */
  ghost predicate Public(x: Secret) {
    Learnable(iset{}, [], x)
  }

  // ---- learning, put together ----

  lemma {:induction false} FromMore(start: iset<Secret>, more: iset<Secret>, boxes: seq<Box>, steps: seq<Secret>)
    requires Learning(start, boxes, steps) && start <= more
    ensures Learning(more, boxes, steps)
  {
    hide Learns;
  }

  lemma {:induction false} KnowsMore(boxes: seq<Box>, known: seq<Secret>, more: seq<Secret>, x: Secret)
    requires Learns(boxes, known, x) && forall k | k in known :: k in more
    ensures Learns(boxes, more, x)
  {
  }

  lemma {:induction false} Joined(start: iset<Secret>, boxes: seq<Box>, a: seq<Secret>, b: seq<Secret>)
    requires Learning(start, boxes, a) && Learning(start, boxes, b)
    ensures Learning(start, boxes, a + b)
  {
    hide Learns;
    var all := a + b;
    forall i | 0 <= i < |all| && all[i] !in start ensures Learns(boxes, all[..i], all[i]) {
      if i < |a| {
        assert all[..i] == a[..i];
      } else {
        assert all[..i] == a + b[..i - |a|];
        KnowsMore(boxes, b[..i - |a|], all[..i], b[i - |a|]);
      }
    }
  }

  /** Learnt from things each of which can be had: it can be had. */
  lemma {:induction false} LearntToo(start: iset<Secret>, boxes: seq<Box>, known: seq<Secret>, x: Secret)
    requires (forall k | k in known :: Learnable(start, boxes, k)) && Learns(boxes, known, x)
    ensures Learnable(start, boxes, x)
  {
    hide Learning, Learns;
    var steps := Together(start, boxes, known);
    KnowsMore(boxes, known, steps, x);
    Extended(start, boxes, steps, x);
  }

  lemma {:induction false} Together(start: iset<Secret>, boxes: seq<Box>, known: seq<Secret>)
      returns (steps: seq<Secret>)
    requires forall k | k in known :: Learnable(start, boxes, k)
    ensures Learning(start, boxes, steps) && forall k | k in known :: k in steps
    decreases |known|
  {
    hide Learning;
    if known == [] {
      steps := [];
      assert Learning(start, boxes, []) by { NoSteps(start, boxes); }
    } else {
      var rest := Together(start, boxes, known[1..]);
      assert known[0] in known && Learnable(start, boxes, known[0]);
      var first :| Learning(start, boxes, first) && known[0] in first;
      Joined(start, boxes, rest, first);
      steps := rest + first;
      forall k | k in known ensures k in steps { assert k == known[0] || k in known[1..]; }
    }
  }

  lemma {:induction false} NoSteps(start: iset<Secret>, boxes: seq<Box>)
    ensures Learning(start, boxes, [])
  {
  }

  lemma {:induction false} PublicAnywhere(start: iset<Secret>, boxes: seq<Box>, x: Secret)
    requires Public(x)
    ensures Learnable(start, boxes, x)
  {
    hide Learning;
    var steps :| Learning(iset{}, [], steps) && x in steps;
    WithBoxes(iset{}, boxes, steps);
    FromMore(iset{}, start, boxes, steps);
  }

  lemma {:induction false} HeldIsLearnable(start: iset<Secret>, boxes: seq<Box>, x: Secret)
    requires x in start
    ensures Learnable(start, boxes, x)
  {
    hide Learning;
    NoSteps(start, boxes);
    Extended(start, boxes, [], x);
  }

  lemma {:induction false} DerivedToo(start: iset<Secret>, boxes: seq<Box>, x: Secret, tag: Label)
    requires Learnable(start, boxes, x)
    ensures Learnable(start, boxes, Derived(x, tag))
  {
    hide Learning;
    var steps :| Learning(start, boxes, steps) && x in steps;
    Extended(start, boxes, steps, Derived(x, tag));
  }

  // ---- nothing contains what is made from it ----

  function Rank(x: Secret): nat {
    match x
    case Derived(f, _) => 1 + Rank(f)
    case JoinerSecret(i, c, _) => 1 + Rank(i) + Rank(c)
    case EpochSecret(j, p, _) => 1 + Rank(j) + Rank(p)
    case WelcomeSecret(j, p) => 1 + Rank(j) + Rank(p)
    case PskStep(a, _, p, _, _) => 1 + Rank(a) + Rank(p)
    case ExternalInitSecret(to, _) => 1 + Rank(to.secret)
    case _ => 0
  }

  lemma {:induction false} RankRises(seed: Secret, x: Secret)
    requires From(seed, x)
    ensures Rank(seed) <= Rank(x)
  {
    if x != seed {
      match x
      case Derived(f, _) => RankRises(seed, f);
      case JoinerSecret(i, c, _) => if From(seed, i) { RankRises(seed, i); } else { RankRises(seed, c); }
      case EpochSecret(j, p, _) => if From(seed, j) { RankRises(seed, j); } else { RankRises(seed, p); }
      case WelcomeSecret(j, p) => if From(seed, j) { RankRises(seed, j); } else { RankRises(seed, p); }
      case PskStep(a, _, p, _, _) => if From(seed, a) { RankRises(seed, a); } else { RankRises(seed, p); }
      case ExternalInitSecret(to, _) => RankRises(seed, to.secret);
    }
  }

  lemma {:induction false} NotInside(e: Secret, tag: Label)
    ensures !From(Derived(e, tag), e)
  {
    if From(Derived(e, tag), e) { RankRises(Derived(e, tag), e); }
  }

  // ---- what comes of a derived secret ----

  lemma {:induction false} LearnsFreeBut(known: seq<Secret>, x: Secret, seed: Secret)
    requires Learns([], known, x) && x != seed && forall k | k in known :: !From(seed, k)
    ensures !From(seed, x)
  {
  }

  /** While its source is out of reach, a derived secret and all that comes of it
      stay with whoever already had something of it. */
  lemma {:induction false} DerivedFree(start: iset<Secret>, steps: seq<Secret>, e: Secret, tag: Label)
    requires Learning(start, [], steps) && !Learnable(start, [], e)
    requires forall k | k in start :: !From(Derived(e, tag), k)
    ensures forall k | k in steps :: !From(Derived(e, tag), k)
    decreases |steps|
  {
    hide Learns, From;
    if steps != [] {
      var n := |steps| - 1;
      Prefix(start, [], steps, n);
      DerivedFree(start, steps[..n], e, tag);
      LastStep(start, [], steps);
      if steps[n] !in start {
        SourceKnown(start, steps[..n], e, tag, steps[n]);
        LearnsFreeBut(steps[..n], steps[n], Derived(e, tag));
      }
      assert steps == steps[..n] + [steps[n]];
    }
  }

  lemma {:induction false} SourceKnown(start: iset<Secret>, known: seq<Secret>, e: Secret, tag: Label, x: Secret)
    requires Learning(start, [], known) && Learns([], known, x) && !Learnable(start, [], e)
    ensures x != Derived(e, tag)
  {
    hide Learning;
  }

  /** So it is only to be had by opening a box. */
  lemma {:induction false} DerivedKept(
      start: iset<Secret>, boxes: seq<Box>, e: Secret, tag: Label, x: Secret)
    requires !Learnable(start, [], e) && forall k | k in start :: !From(Derived(e, tag), k)
    requires From(Derived(e, tag), x) && Learnable(start, boxes, x)
    ensures Opens(start, boxes)
  {
    hide Learning, From;
    var steps :| Learning(start, boxes, steps) && x in steps;
    FirstOpened(start, boxes, steps);
    if Learning(start, [], steps) { DerivedFree(start, steps, e, tag); }
  }

  // ---- the secrets derived from one ----

  /** All that is derived from `e`, but under one label. */
  ghost function AllBut(e: Secret, tag: Label): iset<Secret> {
    iset l: Label | l != tag :: Derived(e, l)
  }

  /** It is, or is made from, something derived from `e`. */
  ghost predicate Above(e: Secret, x: Secret) {
    exists l: Label :: From(Derived(e, l), x)
  }

  lemma {:induction false} LearntAbove(known: seq<Secret>, x: Secret, e: Secret)
    requires Learns([], known, x) && forall k | k in known :: Public(k) || Above(e, k)
    ensures Public(x) || Above(e, x)
  {
    hide Public, Learnable;
    if k :| k in Parts(x) && k in known && Above(e, k) {
      var l: Label :| From(Derived(e, l), k);
      PartOf(Derived(e, l), k, x);
    } else {
      PartsKnown(known, x);
      var parts := Parts(x);
      forall k | k in parts ensures Learnable(iset{}, [], k) { assert Public(k); IsPublic(k); }
      LearntToo(iset{}, [], parts, x);
      IsPublic(x);
    }
  }

  lemma {:induction false} IsPublic(x: Secret)
    ensures Public(x) <==> Learnable(iset{}, [], x)
  {
  }

  /** The secrets `x` is computed from. */
  function Parts(x: Secret): seq<Secret> {
    match x
    case Derived(f, _) => [f]
    case JoinerSecret(i, c, _) => [i, c]
    case EpochSecret(j, p, _) => [j, p]
    case WelcomeSecret(j, p) => [j, p]
    case PskStep(a, _, p, _, _) => [a, p]
    case ExternalInitSecret(to, _) => [to.secret]
    case _ => []
  }

  lemma {:induction false} PartOf(seed: Secret, k: Secret, x: Secret)
    requires From(seed, k) && k in Parts(x)
    ensures From(seed, x)
  {
  }

  lemma {:induction false} PartsKnown(known: seq<Secret>, x: Secret)
    requires Learns([], known, x)
    ensures (forall k | k in Parts(x) :: k in known) && Learns([], Parts(x), x)
  {
    var parts := Parts(x);
    if |parts| > 0 { assert parts[0] in parts; }
    if |parts| > 1 { assert parts[1] in parts; }
  }

  lemma {:induction false} LearningAbove(e: Secret, tag: Label, steps: seq<Secret>)
    requires Learning(AllBut(e, tag), [], steps)
    ensures forall x | x in steps :: Public(x) || Above(e, x)
    decreases |steps|
  {
    hide Learns, Public, Above, AllBut;
    if steps != [] {
      var n := |steps| - 1;
      Prefix(AllBut(e, tag), [], steps, n);
      LearningAbove(e, tag, steps[..n]);
      LastStep(AllBut(e, tag), [], steps);
      if steps[n] in AllBut(e, tag) {
        HeldAbove(e, tag, steps[n]);
      } else {
        LearntAbove(steps[..n], steps[n], e);
      }
      assert steps == steps[..n] + [steps[n]];
    }
  }

  lemma {:induction false} HeldAbove(e: Secret, tag: Label, x: Secret)
    requires x in AllBut(e, tag)
    ensures Above(e, x) && !From(Derived(e, tag), x)
  {
    var l: Label :| l != tag && x == Derived(e, l);
    assert From(Derived(e, l), x);
    NotInside(e, tag);
  }

  /** From all the others neither the source nor the one left out can be had,
      unless anybody can compute the source. */
  lemma {:induction false} OthersDoNotGive(e: Secret, tag: Label)
    ensures Learnable(AllBut(e, tag), [], e) <==> Public(e)
    ensures Learnable(AllBut(e, tag), [], Derived(e, tag)) <==> Public(e)
  {
    hide Learning, AllBut, Public;
    var start := AllBut(e, tag);
    if Learnable(start, [], e) {
      var steps :| Learning(start, [], steps) && e in steps;
      LearningAbove(e, tag, steps);
      if l: Label :| From(Derived(e, l), e) { NotInside(e, l); }
    }
    if Public(e) {
      PublicAnywhere(start, [], e);
      DerivedToo(start, [], e, tag);
    } else if Learnable(start, [], Derived(e, tag)) {
      forall k | k in start ensures !From(Derived(e, tag), k) { HeldAbove(e, tag, k); }
      var steps :| Learning(start, [], steps) && Derived(e, tag) in steps;
      assert From(Derived(e, tag), Derived(e, tag)) by { FromItself(Derived(e, tag)); }
      DerivedFree(start, steps, e, tag);
    }
  }

  lemma {:induction false} FromItself(x: Secret)
    ensures From(x, x)
  {
  }

  // ---- the key schedule ----

  /** Section 8 of RFC 9420: which output each label is for. */
  function OutputFor(d: DerivedSchedule, tag: Label): Option<Secret> {
    match tag
    case SenderDataLabel => Some(d.schedule.senderData)
    case EncryptionLabel => Some(d.encryption)
    case ExporterLabel => Some(d.schedule.exporter)
    case ExternalLabel => Some(d.schedule.external)
    case ConfirmLabel => Some(d.schedule.confirmation)
    case MembershipLabel => Some(d.schedule.membership)
    case ResumptionLabel => Some(d.schedule.resumption)
    case AuthenticationLabel => Some(d.schedule.authenticator)
    case InitLabel => Some(d.schedule.init)
    case ApplicationExportLabel => Some(d.schedule.applicationExport)
    case _ => None
  }

  /** The outputs in that order. */
  function Outputs(d: DerivedSchedule): seq<Secret> {
    [d.schedule.senderData, d.encryption, d.schedule.exporter, d.schedule.external, d.schedule.confirmation,
     d.schedule.membership, d.schedule.resumption, d.schedule.authenticator, d.schedule.init,
     d.schedule.applicationExport]
  }

  const LABELS: seq<Label> :=
    [SenderDataLabel, EncryptionLabel, ExporterLabel, ExternalLabel, ConfirmLabel, MembershipLabel, ResumptionLabel,
     AuthenticationLabel, InitLabel, ApplicationExportLabel]

  /** The outputs of an epoch but the `j`th. */
  ghost function OtherOutputs(d: DerivedSchedule, j: nat): iset<Secret> {
    iset i: nat | i < 10 && i != j :: Outputs(d)[i]
  }

  /** Each output is derived from the epoch's secret under its own label. */
  lemma {:induction false} ScheduleTable(joiner: Secret, psk: Secret, gc: GroupContext, i: nat)
    requires i < 10
    ensures var d := DeriveKeySchedule(joiner, psk, gc);
      && Outputs(d)[i] == Derived(Secret.EpochSecret(joiner, psk, gc), LABELS[i])
      && OutputFor(d, LABELS[i]) == Some(Outputs(d)[i])
  {
  }

  lemma {:induction false} OutputsAreOthers(joiner: Secret, psk: Secret, gc: GroupContext, j: nat)
    requires j < 10
    ensures OtherOutputs(DeriveKeySchedule(joiner, psk, gc), j)
      <= AllBut(Secret.EpochSecret(joiner, psk, gc), LABELS[j])
  {
    hide DeriveKeySchedule;
    var d, e := DeriveKeySchedule(joiner, psk, gc), Secret.EpochSecret(joiner, psk, gc);
    forall x | x in OtherOutputs(d, j) ensures x in AllBut(e, LABELS[j]) {
      var i: nat :| i < 10 && i != j && x == Outputs(d)[i];
      ScheduleTable(joiner, psk, gc, i);
      assert LABELS[i] != LABELS[j];
    }
  }

  /** No two of an epoch's ten secrets are the same, and from all the others
      together none can be learnt, nor the secret they come from, unless anybody
      can compute that. */
  lemma {:induction false} ScheduleApart(joiner: Secret, psk: Secret, gc: GroupContext, j: nat)
    requires j < 10
    ensures var d, e := DeriveKeySchedule(joiner, psk, gc), Secret.EpochSecret(joiner, psk, gc);
      && (forall i | 0 <= i < 10 && i != j :: Outputs(d)[i] != Outputs(d)[j])
      && (Learnable(OtherOutputs(d, j), [], Outputs(d)[j]) <==> Public(e))
      && (Learnable(OtherOutputs(d, j), [], e) <==> Public(e))
  {
    hide DeriveKeySchedule, AllBut, Public, Learning, OtherOutputs;
    var d, e := DeriveKeySchedule(joiner, psk, gc), Secret.EpochSecret(joiner, psk, gc);
    ScheduleTable(joiner, psk, gc, j);
    forall i | 0 <= i < 10 && i != j ensures Outputs(d)[i] != Outputs(d)[j] {
      ScheduleTable(joiner, psk, gc, i);
      assert LABELS[i] != LABELS[j];
    }
    OutputsAreOthers(joiner, psk, gc, j);
    OthersDoNotGive(e, LABELS[j]);
    if Public(e) {
      PublicAnywhere(OtherOutputs(d, j), [], e);
      DerivedToo(OtherOutputs(d, j), [], e, LABELS[j]);
    }
    if Learnable(OtherOutputs(d, j), [], e) { LearnableMore(OtherOutputs(d, j), AllBut(e, LABELS[j]), [], e); }
    if Learnable(OtherOutputs(d, j), [], Outputs(d)[j]) {
      LearnableMore(OtherOutputs(d, j), AllBut(e, LABELS[j]), [], Outputs(d)[j]);
    }
  }

  lemma {:induction false} LearnableMore(start: iset<Secret>, more: iset<Secret>, boxes: seq<Box>, x: Secret)
    requires Learnable(start, boxes, x) && start <= more
    ensures Learnable(more, boxes, x)
  {
    hide Learning;
    var steps :| Learning(start, boxes, steps) && x in steps;
    FromMore(start, more, boxes, steps);
  }

  // ---- from one epoch to the next ----

  /** Without the init secret of the epoch it is committed in, or the secret that
      comes from, the next epoch's is only to be had by opening a box; a commit
      without a path is no exception. */
  lemma {:induction false} NextEpochNeedsInit(
      env: Env, st: ClientState, o: CommitOptions, seed: Secret, d: Draft, e: Secret, start: iset<Secret>)
    requires Drafted(env, st, o, seed, d) && st.schedule == DeriveEpochKeys(e)
    requires !Learnable(start, [], e) && forall k | k in start :: !From(Derived(e, InitLabel), k)
    requires Learnable(start, CommitBoxes(CreateCommit(env, st, o, seed).value), EpochRoot(st, o, d))
    ensures Opens(start, CommitBoxes(CreateCommit(env, st, o, seed).value))
  {
    hide Learnable, CreateCommit, DraftCommit, CommitSecret, EpochRoot, Opens, EpochOf;
    RootIs(env, st, o, seed, d);
    FromInit(Derived(e, InitLabel), CommitSecret(d.created), d.applied.pskSecret, EpochOf(st, o, d).context);
    DerivedKept(
      start, CommitBoxes(CreateCommit(env, st, o, seed).value), e, InitLabel, EpochRoot(st, o, d));
  }

  lemma {:induction false} FromInit(init: Secret, commit: Secret, psk: Secret, context: GroupContext)
    ensures From(init, Secret.EpochSecret(JoinerSecret(init, commit, context), psk, context))
  {
    assert From(init, JoinerSecret(init, commit, context)) by { FromItself(init); }
  }

  /** Whoever holds every other secret of an epoch, the exporter, the authenticator
      and the resumption secret among them, gets no further than its own keys open. */
  lemma {:induction false} RestDoesNotCarryOver(
      env: Env, st: ClientState, o: CommitOptions, seed: Secret, d: Draft, joiner: Secret, psk: Secret,
      gc: GroupContext)
    requires Drafted(env, st, o, seed, d) && st.schedule == DeriveKeySchedule(joiner, psk, gc).schedule
    ensures Outputs(DeriveKeySchedule(joiner, psk, gc))[8] == st.schedule.init
    ensures var rest, boxes :=
        OtherOutputs(DeriveKeySchedule(joiner, psk, gc), 8), CommitBoxes(CreateCommit(env, st, o, seed).value);
      Learnable(rest, boxes, EpochRoot(st, o, d)) ==>
        Opens(rest, boxes) || Public(Secret.EpochSecret(joiner, psk, gc))
  {
    hide Learnable, CreateCommit, DraftCommit, CommitSecret, EpochRoot, Opens, EpochOf, Public, OtherOutputs,
      AllBut;
    var e, rest := Secret.EpochSecret(joiner, psk, gc), OtherOutputs(DeriveKeySchedule(joiner, psk, gc), 8);
    var boxes := CommitBoxes(CreateCommit(env, st, o, seed).value);
    ScheduleApart(joiner, psk, gc, 8);
    OutputsAreOthers(joiner, psk, gc, 8);
    forall k | k in rest ensures !From(Derived(e, InitLabel), k) {
      assert LABELS[8] == InitLabel;
      HeldAbove(e, InitLabel, k);
    }
    if Learnable(rest, boxes, EpochRoot(st, o, d)) && !Public(e) {
      NextEpochNeedsInit(env, st, o, seed, d, e, rest);
    }
  }

  // ---- along a path ----

  /** The private key of some node of the seed's path. */
  ghost predicate NodeKeyOf(seed: Secret, k: Secret) {
    exists j: nat :: k == NodeSecret(PathSecretAt(seed, j))
  }

  /** Nothing of the seed but its `i`th path secret, and any node keys. */
  ghost predicate HoldsFrom(start: iset<Secret>, seed: Secret, i: nat) {
    forall k | k in start :: !From(seed, k) || k == PathSecretAt(seed, i) || NodeKeyOf(seed, k)
  }

  lemma {:induction false} LowerApart(seed: Secret, i: nat, j: nat, k: Secret)
    requires seed.Random? && j < i
    requires !From(seed, k) || k == PathSecretAt(seed, i) || NodeKeyOf(seed, k)
    ensures k != PathSecretAt(seed, j)
  {
    PathSecretDepth(seed, i);
    PathSecretDepth(seed, j);
    SeedComes(seed, j);
    if NodeKeyOf(seed, k) {
      var m: nat :| k == NodeSecret(PathSecretAt(seed, m));
    }
  }

  lemma {:induction false} LowerKept(start: iset<Secret>, steps: seq<Secret>, seed: Secret, i: nat, j: nat)
    requires seed.Random? && j < i && HoldsFrom(start, seed, i) && Learning(start, [], steps)
    ensures PathSecretAt(seed, j) !in steps
    decreases |steps|, j
  {
    hide Learns, From;
    if steps != [] {
      var n, x := |steps| - 1, PathSecretAt(seed, j);
      Prefix(start, [], steps, n);
      LastStep(start, [], steps);
      LowerKept(start, steps[..n], seed, i, j);
      if steps[n] == x {
        if x in start {
          LowerApart(seed, i, j, x);
        } else {
          if j > 0 { LowerKept(start, steps[..n], seed, i, j - 1); }
          NotLearnt(steps[..n], seed, j);
        }
      }
      assert steps == steps[..n] + [steps[n]];
    }
  }

  lemma {:induction false} NotLearnt(known: seq<Secret>, seed: Secret, j: nat)
    requires seed.Random? && (j > 0 ==> PathSecretAt(seed, j - 1) !in known)
    ensures !Learns([], known, PathSecretAt(seed, j))
  {
  }

  lemma {:induction false} UpFrom(start: iset<Secret>, boxes: seq<Box>, seed: Secret, i: nat, j: nat)
    requires Learnable(start, boxes, PathSecretAt(seed, i)) && i <= j
    ensures Learnable(start, boxes, PathSecretAt(seed, j))
    decreases j
  {
    hide Learnable;
    if i < j {
      UpFrom(start, boxes, seed, i, j - 1);
      DerivedToo(start, boxes, PathSecretAt(seed, j - 1), PathLabel);
    }
  }

  /** A path secret gives those above it and no other, whatever node keys are known
      besides; and node keys alone give none. */
  lemma {:induction false} PathSecretsGive(start: iset<Secret>, seed: Secret, i: nat, j: nat)
    requires seed.Random? && HoldsFrom(start, seed, i) && PathSecretAt(seed, i) in start
    ensures Learnable(start, [], PathSecretAt(seed, j)) <==> i <= j
  {
    hide Learning, HoldsFrom;
    if i <= j {
      HeldIsLearnable(start, [], PathSecretAt(seed, i));
      UpFrom(start, [], seed, i, j);
    } else if Learnable(start, [], PathSecretAt(seed, j)) {
      var steps :| Learning(start, [], steps) && PathSecretAt(seed, j) in steps;
      LowerKept(start, steps, seed, i, j);
    }
  }

  lemma {:induction false} NodeKeysGiveNone(start: iset<Secret>, seed: Secret, j: nat)
    requires seed.Random? && forall k | k in start :: !From(seed, k) || NodeKeyOf(seed, k)
    ensures !Learnable(start, [], PathSecretAt(seed, j))
  {
    hide Learning, From;
    if Learnable(start, [], PathSecretAt(seed, j)) {
      var steps :| Learning(start, [], steps) && PathSecretAt(seed, j) in steps;
      assert HoldsFrom(start, seed, j + 1);
      LowerKept(start, steps, seed, j + 1, j);
    }
  }

  /** And it gives the private keys of its node and those above, and no other. */
  lemma {:induction false} NodeKeysFrom(start: iset<Secret>, seed: Secret, i: nat, j: nat)
    requires seed.Random? && PathSecretAt(seed, i) in start
    requires forall k | k in start :: !From(seed, k) || k == PathSecretAt(seed, i)
    ensures Learnable(start, [], NodeSecret(PathSecretAt(seed, j))) <==> i <= j
  {
    hide Learning, From, Learns;
    assert HoldsFrom(start, seed, i);
    PathSecretsGive(start, seed, i, j);
    if i <= j {
      DerivedToo(start, [], PathSecretAt(seed, j), NodeLabel);
    } else if Learnable(start, [], NodeSecret(PathSecretAt(seed, j))) {
      var steps :| Learning(start, [], steps) && NodeSecret(PathSecretAt(seed, j)) in steps;
      KeyNotLearnt(start, steps, seed, i, j);
    }
  }

  lemma {:induction false} KeyNotLearnt(start: iset<Secret>, steps: seq<Secret>, seed: Secret, i: nat, j: nat)
    requires seed.Random? && j < i && Learning(start, [], steps)
    requires forall k | k in start :: !From(seed, k) || k == PathSecretAt(seed, i)
    ensures NodeSecret(PathSecretAt(seed, j)) !in steps
    decreases |steps|
  {
    hide Learns, From;
    if steps != [] {
      var n, x := |steps| - 1, NodeSecret(PathSecretAt(seed, j));
      Prefix(start, [], steps, n);
      LastStep(start, [], steps);
      KeyNotLearnt(start, steps[..n], seed, i, j);
      if steps[n] == x {
        FromNode(seed, j);
        if x !in start {
          assert HoldsFrom(start, seed, i);
          LowerKept(start, steps[..n], seed, i, j);
          NeedsSecret(steps[..n], PathSecretAt(seed, j));
        } else {
          NodeIsNoSecret(seed, i, j);
        }
      }
      assert steps == steps[..n] + [steps[n]];
    }
  }

  lemma {:induction false} FromNode(seed: Secret, j: nat)
    ensures From(seed, NodeSecret(PathSecretAt(seed, j)))
  {
    SeedComes(seed, j);
  }

  /** A node's private key is no path secret. */
  lemma {:induction false} NodeIsNoSecret(seed: Secret, i: nat, j: nat)
    requires seed.Random?
    ensures NodeSecret(PathSecretAt(seed, j)) != PathSecretAt(seed, i)
  {
  }

  lemma {:induction false} NeedsSecret(known: seq<Secret>, x: Secret)
    requires x !in known
    ensures !Learns([], known, NodeSecret(x))
  {
  }
}

/** verifyParentHashes (src/parent-hash.ts): its climbs count chains of links as the
    code tests them. StandardLinks compares those with the links of RFC 9420. */
module ParentHashCheck {
  import opened Options
  import opened Terms
  import opened TreeMath
  import opened RatchetTree
  import opened ParentHashes

  // ---- one link of a chain ----

  /** The parent hash a node carries: parents always, leaves only from a commit. */
  function CarriedHash(n: Node): Option<Digest> {
    match n
    case Inner(p) => Some(p.parentHash)
    case Leaf(l) => if l.source.FromCommit? then Some(l.source.parentHash) else None
  }

  function Without(ns: seq<nat>, d: nat): (r: seq<nat>)
    ensures forall n :: n in r <==> n in ns && n != d
  {
    if ns == [] then [] else (if ns[0] == d then [] else [ns[0]]) + Without(ns[1..], d)
  }

  /** The leaf nodes under `c` that the list names. */
  function ListedUnder(us: seq<nat>, c: nat): seq<nat> {
    if us == [] then [] else (if Under(2 * us[0], c) then [2 * us[0]] else []) + ListedUnder(us[1..], c)
  }

  lemma {:induction false} ListedEven(us: seq<nat>, c: nat)
    ensures forall n | n in ListedUnder(us, c) :: n % 2 == 0
  {
    hide Under;
    if us != [] { ListedEven(us[1..], c); }
  }

  /** sameNodeIndexSet. */
  predicate SameIndexSet(a: seq<nat>, b: seq<nat>) {
    |a| == |b| && forall n | n in b :: n in a
  }

  /** satisfiesResolutionCriterion, for `d` below child `c` of parent `p`. */
  predicate Criterion(t: Tree, d: nat, p: nat, c: nat) {
    && p % 2 == 1 && At(t, p).Some? && At(t, p).value.Inner?
    && d in Resolution(t, c)
    && SameIndexSet(ListedUnder(Unmerged(t, p), c), Without(Resolution(t, c), d))
  }

  /** The code takes `d`'s parent hash as valid with respect to `p`. */
  predicate ValidLink(t: Tree, d: nat, p: nat) {
    && p % 2 == 1 && At(t, p).Some? && At(t, p).value.Inner?
    && Under(d, p) && d != p && At(t, d).Some?
    && CarriedHash(At(t, d).value) == Some(LinkHash(t, p, d))
    && Criterion(t, d, p, OwnChild(p, d))
  }

  /** The test the climb makes before it moves from `x` to `p`. */
  predicate LinkHolds(t: Tree, x: nat, hash: Digest, p: nat)
    requires x < |t| && t[x].Some?
  {
    p % 2 == 1 && CarriedHash(t[x].value) == Some(hash) && Criterion(t, x, p, OwnChild(p, x))
  }

  /** The one parent the climb links `x` to, if the link holds. */
  function ClimbStep(t: Tree, x: nat): (r: Option<nat>)
    requires Valid(t) && x < |t| && t[x].Some?
    ensures r.Some? ==> r.value < |t| && Level(x) < Level(r.value) && t[r.value].Some?
  {
    var (hash, p) := CalculateParentHash(t, x);
    AncestorAbove(t, x);
    if p.Some? && LinkHolds(t, x, hash, p.value) then p else None
  }

  /** The nodes the climb from `x` covers. */
  function Climb(t: Tree, x: nat): seq<nat>
    requires Valid(t) && x < |t| && t[x].Some?
    decreases Level(Root(|t|)) - Level(x)
  {
    match ClimbStep(t, x)
    case None => []
    case Some(p) =>
      LevelBound(p, |t|);
      [p] + Climb(t, p)
  }

  /** Leaf node `x` is climbed from and its climb covers `p`. */
  predicate Covers(t: Tree, x: nat, p: nat)
    requires Valid(t)
  {
    x % 2 == 0 && x < |t| && t[x].Some? && p in Climb(t, x)
  }

  /** How many of the first `n` nodes are leaves whose climb covers `p`. */
  function CoverCount(t: Tree, n: nat, p: nat): nat
    requires Valid(t) && n <= |t|
  {
    if n == 0 then 0 else CoverCount(t, n - 1, p) + (if Covers(t, n - 1, p) then 1 else 0)
  }

  predicate ParentHashesVerified(t: Tree)
    requires Valid(t)
  {
    forall p | 0 <= p < |t| && p % 2 == 1 && t[p].Some? :: CoverCount(t, |t|, p) == 1
  }

  // ---- the climb as the source runs it ----

  lemma {:induction false} ClimbRises(t: Tree, x: nat)
    requires Valid(t) && x < |t| && t[x].Some?
    ensures forall p | p in Climb(t, x) :: Level(x) < Level(p)
    decreases Level(Root(|t|)) - Level(x)
  {
    var s := ClimbStep(t, x);
    if s.Some? {
      LevelBound(s.value, |t|);
      ClimbRises(t, s.value);
    }
  }

  function Tally(m: map<nat, nat>, p: nat): nat {
    if p in m then m[p] else 0
  }

  predicate MemoOk(t: Tree, memo: map<nat, (Digest, Option<nat>)>)
    requires Valid(t)
  {
    forall k | k in memo :: k < |t| && memo[k] == CalculateParentHash(t, k)
  }

  /** Below the root there is always a parent to test, and the climb takes the test's word. */
  lemma {:induction false} StepCases(t: Tree, x: nat, hash: Digest, p: Option<nat>)
    requires Valid(t) && x < |t| && t[x].Some? && x != Root(|t|) && CalculateParentHash(t, x) == (hash, p)
    ensures p.Some? && ClimbStep(t, x) == if LinkHolds(t, x, hash, p.value) then p else None
  {
  }

  lemma {:induction false} ClimbOnce(t: Tree, x: nat, s: Option<nat>)
    requires Valid(t) && x < |t| && t[x].Some? && ClimbStep(t, x) == s
    ensures s.None? ==> Climb(t, x) == []
    ensures s.Some? ==>
      s.value < |t| && t[s.value].Some? && Level(x) < Level(s.value) <= Level(Root(|t|))
      && Climb(t, x) == [s.value] + Climb(t, s.value) && s.value !in Climb(t, s.value)
  {
    if s.Some? {
      LevelBound(s.value, |t|);
      ClimbRises(t, s.value);
    }
  }

  ghost predicate TallyPlus(after: map<nat, nat>, before: map<nat, nat>, done: seq<nat>) {
    forall p :: Tally(after, p) == Tally(before, p) + (if p in done then 1 else 0)
  }

  lemma {:induction false} TallyStep(after: map<nat, nat>, before: map<nat, nat>, done: seq<nat>, p: nat)
    requires TallyPlus(after, before, done) && p !in done
    ensures TallyPlus(after[p := Tally(after, p) + 1], before, done + [p])
  {
  }

  /** What is done and what is left make up the whole and name different nodes. */
  ghost predicate Split(whole: seq<nat>, done: seq<nat>, left: seq<nat>) {
    done + left == whole && forall p | p in left :: p !in done
  }

  lemma {:induction false} SplitStep(whole: seq<nat>, done: seq<nat>, p: nat, left: seq<nat>)
    requires Split(whole, done, [p] + left) && p !in left
    ensures Split(whole, done + [p], left) && p !in done
  {
    assert (done + [p]) + left == done + ([p] + left);
    assert p in [p] + left;
    forall q | q in left ensures q !in done + [p] { assert q in [p] + left; }
  }

  lemma {:induction false} NothingDone(whole: seq<nat>, coverage: map<nat, nat>)
    ensures Split(whole, [], whole) && TallyPlus(coverage, coverage, [])
  {
    assert [] + whole == whole;
  }

  lemma {:induction false} AllDone(whole: seq<nat>, done: seq<nat>)
    requires Split(whole, done, [])
    ensures done == whole
  {
    assert done + [] == done;
  }

  /** One leaf's climb. The memo holds hashes of this tree only; the guard keeps
      the walk off the root, so the missing-parent exception is never raised. */
  method ClimbFrom(t: Tree, x: nat, memo: map<nat, (Digest, Option<nat>)>, coverage: map<nat, nat>)
      returns (memo': map<nat, (Digest, Option<nat>)>, coverage': map<nat, nat>)
    requires Valid(t) && x < |t| && t[x].Some? && MemoOk(t, memo)
    ensures MemoOk(t, memo')
    ensures TallyPlus(coverage', coverage, Climb(t, x))
  {
    hide LinkHolds, Climb, ClimbStep, CalculateParentHash, TallyPlus, Split, Level;
    memo', coverage' := memo, coverage;
    var root: nat, current: nat := Root(|t|), x;
    ghost var done: seq<nat> := [];
    LevelBound(x, |t|);
    NothingDone(Climb(t, x), coverage);
    while current != root
      invariant current < |t| && t[current].Some? && Level(current) <= Level(root)
      invariant MemoOk(t, memo')
      invariant Split(Climb(t, x), done, Climb(t, current))
      invariant TallyPlus(coverage', coverage, done)
      decreases Level(root) - Level(current)
    {
      if current !in memo' {
        memo' := memo'[current := CalculateParentHash(t, current)];
      }
      var (hash, parent) := memo'[current];
      StepCases(t, current, hash, parent);
      ClimbOnce(t, current, ClimbStep(t, current));
      if !LinkHolds(t, current, hash, parent.value) {
        AllDone(Climb(t, x), done);
        return;
      }
      SplitStep(Climb(t, x), done, parent.value, Climb(t, parent.value));
      TallyStep(coverage', coverage, done, parent.value);
      coverage' := coverage'[parent.value := Tally(coverage', parent.value) + 1];
      done := done + [parent.value];
      current := parent.value;
    }
    RootStops(t);
    AllDone(Climb(t, x), done);
  }

  lemma {:induction false} RootStops(t: Tree)
    requires Valid(t) && Root(|t|) < |t| && t[Root(|t|)].Some?
    ensures Climb(t, Root(|t|)) == []
  {
  }

  method CountClimb(t: Tree, n: nat, memo: map<nat, (Digest, Option<nat>)>, coverage: map<nat, nat>)
      returns (memo': map<nat, (Digest, Option<nat>)>, coverage': map<nat, nat>)
    requires Valid(t) && n < |t| && MemoOk(t, memo) && forall p :: Tally(coverage, p) == CoverCount(t, n, p)
    ensures MemoOk(t, memo') && forall p :: Tally(coverage', p) == CoverCount(t, n + 1, p)
  {
    hide Climb, MemoOk, Tally;
    memo', coverage' := memo, coverage;
    if t[n].Some? && n % 2 == 0 { memo', coverage' := ClimbFrom(t, n, memo, coverage); }
  }

  method VerifyParentHashes(t: Tree) returns (ok: bool)
    requires Valid(t)
    ensures ok <==> ParentHashesVerified(t)
  {
    if forall p | 0 <= p < |t| :: t[p].None? || t[p].value.Leaf? {
      return true;
    }
    var coverage: map<nat, nat> := map[];
    var memo: map<nat, (Digest, Option<nat>)> := map[];
    var n := 0;
    while n < |t|
      invariant 0 <= n <= |t|
      invariant MemoOk(t, memo)
      invariant forall p :: Tally(coverage, p) == CoverCount(t, n, p)
    {
      memo, coverage := CountClimb(t, n, memo, coverage);
      n := n + 1;
    }
    ok := forall p | 0 <= p < |t| && t[p].Some? && t[p].value.Inner? :: Tally(coverage, p) == 1;
  }

  // ---- what the count means ----

  /** The climb looks only at the nearest non-blank ancestor, and that is the
      only place a valid link can lead. */
  lemma {:induction false} StepIsLink(t: Tree, x: nat, p: nat)
    requires Valid(t) && x < |t| && t[x].Some?
    ensures ClimbStep(t, x) == Some(p) <==> ValidLink(t, x, p) && p < |t|
  {
    AncestorAbove(t, x);
    if ValidLink(t, x, p) && p < |t| {
      LinkNearest(t, x, p);
    }
    if ClimbStep(t, x) == Some(p) {
      OtherChildApart(p, x);
    }
  }

  lemma {:induction false} LinkNearest(t: Tree, x: nat, p: nat)
    requires Valid(t) && x < |t| && p < |t| && ValidLink(t, x, p)
    ensures x != Root(|t|) && FirstNonBlankAncestor(t, x) == p
  {
    if x == Root(|t|) {
      RootTop(p, |t|);
    } else {
      var q := FirstNonBlankAncestor(t, x);
      AncestorAbove(t, x);
      AncestorNearest(t, x, p);
      if q != p {
        BelowOwnChild(p, x, q);
        NoParentBetween(t, x, p, OwnChild(p, x), q);
      }
    }
  }

  lemma {:induction false} NoParentBetween(t: Tree, x: nat, p: nat, c: nat, q: nat)
    requires Criterion(t, x, p, c) && At(t, q).Some? && q % 2 == 1 && Under(q, c)
    ensures Level(q) <= Level(x)
  {
    var r := ParentInResolution(t, q, c);
    ListedEven(Unmerged(t, p), c);
    assert r !in ListedUnder(Unmerged(t, p), c);
    assert r !in Without(Resolution(t, c), x);
  }

  lemma {:induction false} BelowOwnChild(p: nat, x: nat, q: nat)
    requires p % 2 == 1 && Under(x, p) && x != p && Under(x, q) && Under(q, p) && q != p
    ensures Under(q, OwnChild(p, x))
  {
    OtherChildApart(p, x);
    Children(p);
    Span(p);
    assert !Under(q, OtherChild(p, x));
  }

  /** A subtree holding a non-blank parent has a parent in its resolution. */
  lemma {:induction false} ParentInResolution(t: Tree, q: nat, c: nat) returns (r: nat)
    requires At(t, q).Some? && q % 2 == 1 && Under(q, c)
    ensures r in Resolution(t, c) && r % 2 == 1 && Level(q) <= Level(r)
    decreases Level(c)
  {
    Span(c);
    UnderNested(q, c);
    if At(t, c).Some? {
      r := c;
    } else {
      Children(c);
      r := ParentInResolution(t, q, if q < c then Left(c) else Right(c));
    }
  }

  /** A leaf-rooted chain of valid links ending at parent `p`. */
  ghost predicate LeafChain(t: Tree, path: seq<nat>, p: nat) {
    && |path| >= 2 && path[0] % 2 == 0 && path[|path| - 1] == p
    && forall i | 0 <= i < |path| - 1 :: ValidLink(t, path[i], path[i + 1])
  }

  /** Exactly one chain covers `p`. */
  ghost predicate CoveredOnce(t: Tree, p: nat) {
    exists path :: LeafChain(t, path, p) && forall other :: LeafChain(t, other, p) ==> other == path
  }

  ghost predicate Linked(t: Tree, path: seq<nat>) {
    path != [] && forall i | 0 <= i < |path| - 1 :: ValidLink(t, path[i], path[i + 1])
  }

  lemma {:induction false} LinkedTail(t: Tree, path: seq<nat>)
    requires Linked(t, path) && |path| > 1
    ensures Linked(t, path[1..]) && path[1..][|path| - 2] == path[|path| - 1]
  {
    var rest := path[1..];
    forall i | 0 <= i < |rest| - 1 ensures ValidLink(t, rest[i], rest[i + 1]) {
      assert ValidLink(t, path[i + 1], path[i + 1 + 1]);
    }
  }

  /** The climb from `x` covers `p` exactly when a chain of links leads there, and there is one such chain. */
  lemma {:induction false} ClimbHasChain(t: Tree, x: nat, p: nat) returns (path: seq<nat>)
    requires Valid(t) && x < |t| && t[x].Some? && p in Climb(t, x)
    ensures Linked(t, path) && |path| >= 2 && path[0] == x && path[|path| - 1] == p
    decreases Level(Root(|t|)) - Level(x)
  {
    hide ValidLink, ClimbStep;
    var q := ClimbStep(t, x).value;
    StepIsLink(t, x, q);
    LevelBound(q, |t|);
    if q == p {
      path := [x, p];
    } else {
      var rest := ClimbHasChain(t, q, p);
      path := [x] + rest;
      forall i | 0 <= i < |path| - 1 ensures ValidLink(t, path[i], path[i + 1]) {
        if i > 0 { assert path[i] == rest[i - 1] && path[i + 1] == rest[i]; }
      }
    }
  }

  lemma {:induction false} ChainInClimb(t: Tree, path: seq<nat>, p: nat)
    requires Valid(t) && Linked(t, path) && |path| >= 2 && path[|path| - 1] == p
    ensures path[0] < |t| && t[path[0]].Some? && p in Climb(t, path[0])
    decreases |path|
  {
    var x, q, rest := path[0], path[1], path[1..];
    assert ValidLink(t, path[0], path[1]);
    assert At(t, x).Some? && At(t, q).Some?;
    StepIsLink(t, x, q);
    LevelBound(q, |t|);
    if |path| > 2 {
      LinkedTail(t, path);
      ChainInClimb(t, rest, p);
    }
  }

  /** Two chains from one node to another are the same chain. */
  lemma {:induction false} FirstStep(t: Tree, a: seq<nat>)
    requires Valid(t) && Linked(t, a) && |a| >= 2
    ensures a[0] < |t| && t[a[0]].Some? && ClimbStep(t, a[0]) == Some(a[1])
  {
    assert ValidLink(t, a[0], a[1]);
    StepIsLink(t, a[0], a[1]);
  }

  lemma {:induction false} ChainsEqual(t: Tree, a: seq<nat>, b: seq<nat>)
    requires Valid(t) && Linked(t, a) && Linked(t, b) && a[0] == b[0] && a[|a| - 1] == b[|b| - 1]
    ensures a == b
    decreases |a|
  {
    hide ValidLink, ClimbStep;
    if |a| == 1 || |b| == 1 {
      if |b| > 1 { ChainUp(t, b); }
      if |a| > 1 { ChainUp(t, a); }
    } else {
      FirstStep(t, a);
      FirstStep(t, b);
      var a', b' := a[1..], b[1..];
      LinkedTail(t, a);
      LinkedTail(t, b);
      ChainsEqual(t, a', b');
      assert a == [a[0]] + a' && b == [b[0]] + b';
    }
  }

  lemma {:induction false} ChainUp(t: Tree, path: seq<nat>)
    requires Linked(t, path) && |path| > 1
    ensures Level(path[0]) < Level(path[|path| - 1])
    decreases |path|
  {
    assert ValidLink(t, path[0], path[1]);
    UnderNested(path[0], path[1]);
    if |path| > 2 {
      var rest := path[1..];
      LinkedTail(t, path);
      ChainUp(t, rest);
    }
  }

  ghost predicate NoCover(t: Tree, n: nat, p: nat)
    requires Valid(t)
  {
    forall x: nat | x < n :: !Covers(t, x, p)
  }

  ghost predicate OnlyCover(t: Tree, n: nat, p: nat, x: nat)
    requires Valid(t)
  {
    x < n && Covers(t, x, p) && forall y: nat | y < n && Covers(t, y, p) :: y == x
  }

  lemma {:induction false} CountZero(t: Tree, n: nat, p: nat)
    requires Valid(t) && n <= |t|
    ensures CoverCount(t, n, p) == 0 <==> NoCover(t, n, p)
  {
    hide Covers, Valid;
    if n > 0 {
      var m := n - 1;
      CountZero(t, m, p);
      NoCoverStep(t, n, p);
    }
  }

  lemma {:induction false} NoCoverStep(t: Tree, n: nat, p: nat)
    requires Valid(t) && n > 0
    ensures NoCover(t, n, p) <==> NoCover(t, n - 1, p) && !Covers(t, n - 1, p)
  {
  }

  /** Extending the range by one node that covers, or by one that does not. */
  lemma {:induction false} OnlyCoverStep(t: Tree, n: nat, p: nat, x: nat)
    requires Valid(t) && n > 0
    ensures !Covers(t, n - 1, p) ==> (OnlyCover(t, n, p, x) <==> OnlyCover(t, n - 1, p, x))
    ensures Covers(t, n - 1, p) ==> (OnlyCover(t, n, p, x) <==> x == n - 1 && NoCover(t, n - 1, p))
  {
    hide Covers, Valid;
  }

  ghost predicate OneCover(t: Tree, n: nat, p: nat)
    requires Valid(t)
  {
    exists x: nat :: OnlyCover(t, n, p, x)
  }

  lemma {:induction false} OneCoverStep(t: Tree, n: nat, p: nat)
    requires Valid(t) && n > 0
    ensures OneCover(t, n, p) <==> if Covers(t, n - 1, p) then NoCover(t, n - 1, p) else OneCover(t, n - 1, p)
  {
    OnlyCoverStep(t, n, p, n - 1);
    if OneCover(t, n, p) {
      var x: nat :| OnlyCover(t, n, p, x);
      OnlyCoverStep(t, n, p, x);
    }
    var m := n - 1;
    if OneCover(t, m, p) {
      var x: nat :| OnlyCover(t, m, p, x);
      OnlyCoverStep(t, n, p, x);
    }
  }

  lemma {:induction false} CountOne(t: Tree, n: nat, p: nat)
    requires Valid(t) && n <= |t|
    ensures CoverCount(t, n, p) == 1 <==> OneCover(t, n, p)
  {
    hide Covers, Valid, NoCover;
    if n > 0 {
      CountOne(t, n - 1, p);
      CountZero(t, n - 1, p);
      OneCoverStep(t, n, p);
    }
  }

  /** The check accepts exactly the trees in which every non-blank parent is
      covered by one and only one leaf-rooted chain. */
  lemma {:induction false} VerifiedIff(t: Tree)
    requires Valid(t)
    ensures ParentHashesVerified(t) <==> forall p | 0 <= p < |t| && p % 2 == 1 && t[p].Some? :: CoveredOnce(t, p)
  {
    forall p | 0 <= p < |t| && p % 2 == 1 && t[p].Some?
      ensures CoverCount(t, |t|, p) == 1 <==> CoveredOnce(t, p)
    {
      CountOne(t, |t|, p);
      OneCoverOneChain(t, p);
    }
  }

  lemma {:induction false} OneCoverOneChain(t: Tree, p: nat)
    requires Valid(t) && p < |t|
    ensures OneCover(t, |t|, p) <==> CoveredOnce(t, p)
  {
    if OneCover(t, |t|, p) {
      var x: nat :| OnlyCover(t, |t|, p, x);
      var path := ClimbHasChain(t, x, p);
      assert LeafChain(t, path, p);
      forall other | LeafChain(t, other, p) ensures other == path {
        ChainInClimb(t, other, p);
        assert Covers(t, other[0], p);
        ChainsEqual(t, other, path);
      }
    }
    if CoveredOnce(t, p) {
      var path :| LeafChain(t, path, p) && forall other :: LeafChain(t, other, p) ==> other == path;
      ChainInClimb(t, path, p);
      assert Covers(t, path[0], p);
      forall y: nat | y < |t| && Covers(t, y, p) ensures y == path[0] {
        var other := ClimbHasChain(t, y, p);
        assert LeafChain(t, other, p);
      }
      assert OnlyCover(t, |t|, p, path[0]);
    }
  }

  // ---- the set comparison ----

  ghost predicate NoDuplicates(s: seq<nat>) {
    forall i, j | 0 <= i < j < |s| :: s[i] != s[j]
  }

  /** Between lists without repeats the comparison is equality of sets. */
  lemma {:induction false} SameIndexSetIff(a: seq<nat>, b: seq<nat>)
    requires NoDuplicates(a) && NoDuplicates(b)
    ensures SameIndexSet(a, b) <==> forall n :: n in a <==> n in b
  {
    var sa, sb := AsSet(a), AsSet(b);
    DistinctSize(a);
    DistinctSize(b);
    if SameIndexSet(a, b) {
      assert sb <= sa;
      SubsetSameSize(sb, sa);
      forall n ensures n in a <==> n in b { assert n in sa <==> n in sb; }
    }
    if forall n :: n in a <==> n in b {
      forall n ensures n in sa <==> n in sb {}
      assert sa == sb;
      assert |a| == |sa| && |b| == |sb|;
    }
  }

  function AsSet(s: seq<nat>): set<nat> {
    set n | n in s
  }

  lemma {:induction false} DistinctSize(s: seq<nat>)
    requires NoDuplicates(s)
    ensures |AsSet(s)| == |s|
  {
    if s != [] {
      var n := |s| - 1;
      DistinctSize(s[..n]);
      assert s == s[..n] + [s[n]] && s[n] !in s[..n];
      assert AsSet(s) == AsSet(s[..n]) + {s[n]};
    }
  }

  lemma {:induction false} SubsetSameSize(a: set<nat>, b: set<nat>)
    requires a <= b && |a| == |b|
    ensures a == b
  {
    if x :| x in b && x !in a {
      assert a <= b - {x};
      SubsetSize(a, b - {x});
    }
  }

  lemma {:induction false} SubsetSize(a: set<nat>, b: set<nat>)
    requires a <= b
    ensures |a| <= |b|
    decreases a
  {
    if x :| x in a { SubsetSize(a - {x}, b - {x}); }
  }
}

/** Parent-hash links as section 7.9.2 of RFC 9420 states them, against the links
    the code tests: the standard compares sets of nodes, the code two lists. */
module StandardLinks {
  import opened Options
  import opened Terms
  import opened TreeMath
  import opened RatchetTree
  import opened ParentHashes
  import opened UnmergedLeaves
  import opened ParentHashCheck
  import opened ParentHashKept

  ghost predicate SameSet(a: seq<nat>, b: seq<nat>) {
    forall n :: n in a <==> n in b
  }

  /** `d`'s parent hash is valid with respect to `p`: the hash matches, `d` is in the
      resolution of the child on its side, and the leaves `p` lists under that child
      are exactly what else is in that resolution. */
  ghost predicate StandardLink(t: Tree, d: nat, p: nat) {
    && p % 2 == 1 && At(t, p).Some? && At(t, p).value.Inner?
    && Under(d, p) && d != p && At(t, d).Some?
    && CarriedHash(At(t, d).value) == Some(LinkHash(t, p, d))
    && d in Resolution(t, OwnChild(p, d))
    && SameSet(ListedUnder(Unmerged(t, p), OwnChild(p, d)), Without(Resolution(t, OwnChild(p, d)), d))
  }

  ghost predicate StandardChain(t: Tree, path: seq<nat>, p: nat) {
    && |path| >= 2 && path[0] % 2 == 0 && path[|path| - 1] == p
    && forall i | 0 <= i < |path| - 1 :: StandardLink(t, path[i], path[i + 1])
  }

  /** Exactly one chain of links leads from a leaf to `p`. */
  ghost predicate StandardCovered(t: Tree, p: nat) {
    exists path :: StandardChain(t, path, p) && forall other :: StandardChain(t, other, p) ==> other == path
  }

  ghost predicate StandardVerified(t: Tree) {
    forall p | 0 <= p < |t| && p % 2 == 1 && t[p].Some? :: StandardCovered(t, p)
  }

  /** No list repeats a leaf. */
  ghost predicate ListsDistinct(t: Tree) {
    forall x: nat :: NoDuplicates(Unmerged(t, x))
  }

  // ---- what the code's links are ----

  lemma {:induction false} ListedUnderIff(us: seq<nat>, c: nat, n: nat)
    ensures n in ListedUnder(us, c) <==> n % 2 == 0 && n / 2 in us && Under(n, c)
  {
    hide Under;
    if us != [] {
      ListedUnderIff(us[1..], c, n);
      assert us == [us[0]] + us[1..];
    }
  }

  lemma {:induction false} LeafUnderLeaf(c: nat, l: nat)
    requires c % 2 == 0 && Under(2 * l, c)
    ensures c == 2 * l
  {
  }

  /** A rightly listed leaf is in every resolution between it and the node that lists it. */
  lemma {:induction false} ListedResolved(t: Tree, p: nat, c: nat, l: nat)
    requires Sound(t) && ListedRightly(t, p, l) && Under(c, p) && Under(2 * l, c)
    ensures 2 * l in Resolution(t, c)
    decreases Level(c)
  {
    hide Lo, Hi, Level, Left, Right, LeafNodes;
    if At(t, c).Some? && c % 2 == 1 {
      assert OnPath(l, c) && l in Unmerged(t, c);
      var i :| 0 <= i < |Unmerged(t, c)| && Unmerged(t, c)[i] == l;
      assert LeafNodes(Unmerged(t, c))[i] == 2 * l;
    } else if c % 2 == 1 {
      Children(c);
      var e := if 2 * l < c then Left(c) else Right(c);
      Span(c);
      Span(e);
      assert Under(e, c) && Under(2 * l, e);
      UnderTrans(e, c, p);
      ListedResolved(t, p, e, l);
      assert Resolution(t, c) == Resolution(t, Left(c)) + Resolution(t, Right(c));
    } else {
      assert At(t, 2 * l).Some? && c == 2 * l by { LeafUnderLeaf(c, l); }
    }
  }

  lemma {:induction false} ConcatDistinct(a: seq<nat>, b: seq<nat>)
    requires NoDuplicates(a) && NoDuplicates(b) && forall n | n in a :: n !in b
    ensures NoDuplicates(a + b)
  {
    forall i, j | 0 <= i < j < |a + b| ensures (a + b)[i] != (a + b)[j] {
      if i < |a| <= j { assert a[i] in a && b[j - |a|] in b; }
    }
  }

  lemma {:induction false} WithoutDistinct(ns: seq<nat>, d: nat)
    requires NoDuplicates(ns)
    ensures NoDuplicates(Without(ns, d))
  {
    if ns != [] {
      var first: seq<nat> := if ns[0] == d then [] else [ns[0]];
      assert NoDuplicates(ns[1..]) && ns[0] !in ns[1..];
      WithoutDistinct(ns[1..], d);
      ConcatDistinct(first, Without(ns[1..], d));
    }
  }

  lemma {:induction false} ListedDistinct(us: seq<nat>, c: nat)
    requires NoDuplicates(us)
    ensures NoDuplicates(ListedUnder(us, c))
  {
    hide Under;
    if us != [] {
      var first: seq<nat> := if Under(2 * us[0], c) then [2 * us[0]] else [];
      assert NoDuplicates(us[1..]) && us[0] !in us[1..];
      ListedDistinct(us[1..], c);
      forall n | n in first ensures n !in ListedUnder(us[1..], c) { ListedUnderIff(us[1..], c, n); }
      ConcatDistinct(first, ListedUnder(us[1..], c));
    }
  }

  lemma {:induction false} ResolutionsApart(t: Tree, c: nat)
    requires Sound(t) && UnmergedOk(t) && c % 2 == 1
    ensures forall n | n in Resolution(t, Left(c)) :: n !in Resolution(t, Right(c))
  {
    hide Resolution, Lo, Hi, Level, Left, Right, UnmergedOk, Sound;
    Children(c);
    ResolutionWithin(t, Left(c));
    ResolutionWithin(t, Right(c));
  }

  lemma {:induction false} ShortDistinct(s: seq<nat>)
    ensures |s| <= 1 ==> NoDuplicates(s)
  {
  }

  lemma {:induction false} ParentDistinct(t: Tree, c: nat)
    requires ListsDistinct(t) && c % 2 == 1
    ensures NoDuplicates([c] + LeafNodes(Unmerged(t, c)))
  {
    var us := Unmerged(t, c);
    assert NoDuplicates(us);
    forall i, j | 0 <= i < j < |us| ensures LeafNodes(us)[i] != LeafNodes(us)[j] { assert us[i] != us[j]; }
    ConcatDistinct([c], LeafNodes(us));
  }

  /** A resolution repeats a node only if some list it takes over does. */
  lemma {:induction false} ResolutionDistinct(t: Tree, c: nat)
    requires Sound(t) && UnmergedOk(t)
    requires ListsDistinct(t) || forall n | n in Resolution(t, c) :: n % 2 == 0
    ensures NoDuplicates(Resolution(t, c))
    decreases Level(c)
  {
    hide Lo, Hi, Level, Left, Right, LeafNodes, UnmergedOk, Sound, NoDuplicates, ListsDistinct;
    if At(t, c).None? && c % 2 == 1 {
      Children(c);
      var a, b := Resolution(t, Left(c)), Resolution(t, Right(c));
      assert Resolution(t, c) == a + b;
      if !ListsDistinct(t) {
        forall n | n in a ensures n % 2 == 0 { assert n in a + b; }
        forall n | n in b ensures n % 2 == 0 { assert n in a + b; }
      }
      ResolutionDistinct(t, Left(c));
      ResolutionDistinct(t, Right(c));
      ResolutionsApart(t, c);
      ConcatDistinct(a, b);
    } else if At(t, c).Some? && c % 2 == 1 {
      assert Resolution(t, c) == [c] + LeafNodes(Unmerged(t, c)) && c in Resolution(t, c);
      ParentDistinct(t, c);
    } else {
      assert |Resolution(t, c)| <= 1;
      ShortDistinct(Resolution(t, c));
    }
  }

  lemma {:induction false} SetNoLarger(s: seq<nat>)
    ensures |AsSet(s)| <= |s|
  {
    if s != [] {
      var n := |s| - 1;
      SetNoLarger(s[..n]);
      assert s == s[..n] + [s[n]];
      assert AsSet(s) == AsSet(s[..n]) + {s[n]};
    }
  }

  /** What the code's comparison leaves open is settled once `b` has no repeats. */
  lemma {:induction false} NoSpareElement(a: seq<nat>, b: seq<nat>, d: nat)
    requires SameIndexSet(a, b) && NoDuplicates(b) && d !in b
    ensures d !in a
  {
    if d in a {
      DistinctSize(b);
      SetNoLarger(a);
      assert AsSet(b) + {d} <= AsSet(a);
      SubsetSize(AsSet(b) + {d}, AsSet(a));
    }
  }

  /** A leaf whose link the code accepts is not listed by the node it links to. */
  lemma {:induction false} LinkedNotListed(t: Tree, d: nat, p: nat)
    requires Valid(t) && UnmergedOk(t) && ValidLink(t, d, p)
    ensures d !in ListedUnder(Unmerged(t, p), OwnChild(p, d))
  {
    hide Resolution, LinkHash, UnmergedOk, Under, OwnChild, CarriedHash;
    var c := OwnChild(p, d);
    var a, r := ListedUnder(Unmerged(t, p), c), Resolution(t, c);
    var b := Without(r, d);
    ListedEven(Unmerged(t, p), c);
    if d % 2 == 0 {
      forall n | n in r ensures n % 2 == 0 { assert n == d || n in b; }
      ResolutionDistinct(t, c);
      WithoutDistinct(r, d);
      NoSpareElement(a, b, d);
    }
  }

  /** In a tree that passes the unmerged-leaves check, a link the code accepts is a
      link of the standard, repeated entries or not. */
  lemma {:induction false} LinkIsStandard(t: Tree, d: nat, p: nat)
    requires Valid(t) && UnmergedOk(t) && ValidLink(t, d, p)
    ensures StandardLink(t, d, p)
  {
    hide Resolution, LinkHash, Lo, Hi, Level, Left, Right, ListedUnder, Without;
    var c := OwnChild(p, d);
    LinkedNotListed(t, d, p);
    ChildUnder(p, d);
    forall n | n in ListedUnder(Unmerged(t, p), c) ensures n in Without(Resolution(t, c), d) {
      ListedUnderIff(Unmerged(t, p), c, n);
      assert ListedRightly(t, p, n / 2) && 2 * (n / 2) == n;
      ListedResolved(t, p, c, n / 2);
    }
  }

  lemma {:induction false} ChildUnder(p: nat, d: nat)
    requires p % 2 == 1
    ensures Under(OwnChild(p, d), p)
  {
    hide Lo, Hi, Level, Left, Right;
    Children(p);
    Span(p);
    Span(Left(p));
    Span(Right(p));
  }

  /** And the other way round when no list repeats a leaf. */
  lemma {:induction false} StandardIsLink(t: Tree, d: nat, p: nat)
    requires Valid(t) && UnmergedOk(t) && ListsDistinct(t) && StandardLink(t, d, p)
    ensures ValidLink(t, d, p)
  {
    var c := OwnChild(p, d);
    ResolutionDistinct(t, c);
    WithoutDistinct(Resolution(t, c), d);
    assert NoDuplicates(Unmerged(t, p));
    ListedDistinct(Unmerged(t, p), c);
    SameIndexSetIff(ListedUnder(Unmerged(t, p), c), Without(Resolution(t, c), d));
  }

  // ---- one link to each parent ----

  /** The hash a node carries is a proper part of the hash of any subtree it is in. */
  lemma {:induction false} CarriedInside(t: Tree, y: nat, x: nat, h: Digest)
    requires Under(x, y) && At(t, x).Some? && (At(t, x).value.Leaf? <==> x % 2 == 0)
    requires CarriedHash(At(t, x).value) == Some(h)
    ensures h < TreeHash(t, y)
    decreases Level(y)
  {
    hide Lo, Hi, Level, Left, Right;
    if x == y {
      if x % 2 == 0 {
        var leaf := At(t, x).value.leaf;
        assert LeafAt(t, x / 2) == Some(leaf) && leaf.source == FromCommit(h);
      }
    } else {
      Span(y);
      LeafUnderSelf(x, y);
      Children(y);
      Span(x);
      var c := OwnChild(y, x);
      CarriedInside(t, c, x, h);
    }
  }

  lemma {:induction false} LeafUnderSelf(x: nat, y: nat)
    requires Under(x, y) && x != y
    ensures y % 2 == 1
  {
  }

  /** A node the standard links is not among the leaves the parent lists. */
  lemma {:induction false} LinkedStays(t: Tree, d: nat, p: nat)
    requires Valid(t) && StandardLink(t, d, p)
    ensures Under(d, OwnChild(p, d))
    ensures var w := WithoutLeaves(t, Unmerged(t, p));
      && At(w, d).Some? && (At(w, d).value.Leaf? <==> d % 2 == 0)
      && CarriedHash(At(w, d).value) == Some(LinkHash(t, p, d))
  {
    hide Resolution, LinkHash, Lo, Hi, Level, Left, Right, ListedUnder, Without;
    var us, c := Unmerged(t, p), OwnChild(p, d);
    Children(p);
    Span(p);
    Span(d);
    WithoutLeavesAt(t, us);
    ListedUnderIff(us, c, d);
    assert d !in Without(Resolution(t, c), d);
  }

  /** Each side's hash covers the other side, so no parent is linked from both. */
  lemma {:induction false} OneSide(t: Tree, p: nat, d: nat, e: nat)
    requires Valid(t) && StandardLink(t, d, p) && StandardLink(t, e, p)
    ensures OwnChild(p, d) == OwnChild(p, e)
  {
    hide Resolution, Lo, Hi, Level, Left, Right, ListedUnder, Without, TreeHash, WithoutLeaves, StandardLink, Valid;
    StandardParent(t, d, p);
    if OwnChild(p, d) != OwnChild(p, e) {
      LinkedStays(t, d, p);
      LinkedStays(t, e, p);
      var w := WithoutLeaves(t, Unmerged(t, p));
      CarriedInside(w, OtherChild(p, d), e, LinkHash(t, p, e));
      CarriedInside(w, OtherChild(p, e), d, LinkHash(t, p, d));
    }
  }

  lemma {:induction false} StandardParent(t: Tree, d: nat, p: nat)
    requires StandardLink(t, d, p)
    ensures p % 2 == 1 && At(t, p).Some? && At(t, p).value.Inner? && Unmerged(t, p) == At(t, p).value.parent.unmerged
  {
  }

  /** Under the standard at most one node is linked to each parent. */
  lemma {:induction false} OneLink(t: Tree, p: nat, d: nat, e: nat)
    requires Valid(t) && StandardLink(t, d, p) && StandardLink(t, e, p)
    ensures d == e
  {
    hide Resolution, LinkHash, Lo, Hi, Level, Left, Right, ListedUnder, Without, Valid;
    OneSide(t, p, d, e);
    var c := OwnChild(p, d);
    assert e in Without(Resolution(t, c), d) <==> e in ListedUnder(Unmerged(t, p), c);
    assert e in Without(Resolution(t, c), e) <==> e in ListedUnder(Unmerged(t, p), c);
  }

  /** So at most one chain leads to it. */
  lemma {:induction false} OneChain(t: Tree, p: nat, a: seq<nat>, b: seq<nat>)
    requires Valid(t) && StandardChain(t, a, p) && StandardChain(t, b, p)
    ensures a == b
    decreases |a|
  {
    hide StandardLink, Valid;
    var m, n := |a| - 1, |b| - 1;
    assert StandardLink(t, a[m - 1], a[m]) && StandardLink(t, b[n - 1], b[n]);
    OneLink(t, p, a[m - 1], b[n - 1]);
    if m >= 2 {
      assert StandardLink(t, a[m - 2], a[m - 1]);
      StandardParent(t, a[m - 2], a[m - 1]);
    }
    if n >= 2 {
      assert StandardLink(t, b[n - 2], b[n - 1]);
      StandardParent(t, b[n - 2], b[n - 1]);
    }
    if m >= 2 && n >= 2 {
      OneChain(t, a[m - 1], a[..m], b[..n]);
    }
    assert a == a[..m] + [p] && b == b[..n] + [p];
  }

  lemma {:induction false} CoveredIffChain(t: Tree, p: nat)
    requires Valid(t)
    ensures StandardCovered(t, p) <==> exists path :: StandardChain(t, path, p)
  {
    hide StandardChain, Valid;
    if path :| StandardChain(t, path, p) {
      forall other | StandardChain(t, other, p) ensures other == path { OneChain(t, p, other, path); }
    }
  }

  // ---- whole trees ----

  /** Wherever the standard has a link, the two lists the code compares are equally long. */
  ghost predicate SameLengths(t: Tree) {
    forall d: nat, p: nat | StandardLink(t, d, p) :: SameLength(t, d, p)
  }

  predicate SameLength(t: Tree, d: nat, p: nat) {
    p % 2 == 1 && |ListedUnder(Unmerged(t, p), OwnChild(p, d))| == |Without(Resolution(t, OwnChild(p, d)), d)|
  }

  lemma {:induction false} DistinctSameLengths(t: Tree)
    requires Valid(t) && UnmergedOk(t) && ListsDistinct(t)
    ensures SameLengths(t)
  {
    hide StandardLink, Valid, UnmergedOk, ListsDistinct, Resolution, ListedUnder, Without;
    forall d: nat, p: nat | StandardLink(t, d, p) ensures SameLength(t, d, p)
    {
      StandardIsLink(t, d, p);
      SameLengthLink(t, d, p);
    }
  }

  lemma {:induction false} SameLengthLink(t: Tree, d: nat, p: nat)
    requires StandardLink(t, d, p)
    ensures ValidLink(t, d, p) <==> SameLength(t, d, p)
  {
    hide Resolution, LinkHash, Lo, Hi, Level, Left, Right, ListedUnder, Without;
  }

  lemma {:induction false} ChainIsStandard(t: Tree, path: seq<nat>, p: nat)
    requires Valid(t) && UnmergedOk(t)
    ensures LeafChain(t, path, p) ==> StandardChain(t, path, p)
    ensures SameLengths(t) && StandardChain(t, path, p) ==> LeafChain(t, path, p)
  {
    hide ValidLink, StandardLink, Valid, UnmergedOk;
    if LeafChain(t, path, p) {
      forall i | 0 <= i < |path| - 1 ensures StandardLink(t, path[i], path[i + 1]) {
        LinkIsStandard(t, path[i], path[i + 1]);
      }
    }
    if SameLengths(t) && StandardChain(t, path, p) {
      forall i | 0 <= i < |path| - 1 ensures ValidLink(t, path[i], path[i + 1]) {
        SameLengthLink(t, path[i], path[i + 1]);
      }
    }
  }

  /** Repeated entries or not, each parent the check accepts is one the standard accepts. */
  lemma {:induction false} CoveredIsStandard(t: Tree, p: nat)
    requires Valid(t) && UnmergedOk(t)
    ensures CoveredOnce(t, p) ==> StandardCovered(t, p)
    ensures SameLengths(t) && StandardCovered(t, p) ==> CoveredOnce(t, p)
  {
    hide LeafChain, StandardChain, Valid, UnmergedOk, SameLengths;
    CoveredIffChain(t, p);
    if CoveredOnce(t, p) {
      var path :| LeafChain(t, path, p);
      ChainIsStandard(t, path, p);
    }
    if SameLengths(t) && StandardCovered(t, p) {
      var path :| StandardChain(t, path, p);
      ChainIsStandard(t, path, p);
      forall other | LeafChain(t, other, p) ensures other == path {
        ChainIsStandard(t, other, p);
        OneChain(t, p, other, path);
      }
    }
  }

  lemma {:induction false} AcceptedSameLengths(t: Tree)
    requires Valid(t) && UnmergedOk(t)
    requires forall p | 0 <= p < |t| && p % 2 == 1 && t[p].Some? :: CoveredOnce(t, p)
    ensures SameLengths(t)
  {
    hide StandardLink, Valid, UnmergedOk, ValidLink, Resolution, ListedUnder, Without;
    forall d: nat, p: nat | StandardLink(t, d, p) ensures SameLength(t, d, p)
    {
      StandardParent(t, d, p);
      assert CoveredOnce(t, p);
      var path :| LeafChain(t, path, p);
      var e := path[|path| - 2];
      assert ValidLink(t, path[|path| - 2], path[|path| - 1]);
      LinkIsStandard(t, e, p);
      OneLink(t, p, d, e);
      SameLengthLink(t, d, p);
    }
  }

  /** Section 7.9.2 for the whole tree: among trees that pass the unmerged-leaves
      check the code accepts exactly those the standard accepts in which each link's
      two lists are equally long; nothing the standard refuses is let through. */
  lemma {:induction false} StandardVerifiedIff(t: Tree)
    requires Valid(t) && UnmergedOk(t)
    ensures ParentHashesVerified(t) <==> StandardVerified(t) && SameLengths(t)
    ensures ListsDistinct(t) ==> SameLengths(t)
  {
    hide ParentHashesVerified, CoveredOnce, StandardCovered, SameLengths, ListsDistinct;
    VerifiedIff(t);
    if ListsDistinct(t) { DistinctSameLengths(t); }
    if ParentHashesVerified(t) { AcceptedSameLengths(t); }
    forall p | 0 <= p < |t| && p % 2 == 1 && t[p].Some?
      ensures CoveredOnce(t, p) ==> StandardCovered(t, p)
      ensures SameLengths(t) && StandardCovered(t, p) ==> CoveredOnce(t, p)
    {
      CoveredIsStandard(t, p);
    }
  }

  // ---- linked trees pass the check ----

  /** A tree whose parents are all linked passes, since no parent is linked twice. */
  lemma {:induction false} LinkedVerified(t: Tree)
    requires Valid(t) && UnmergedOk(t) && HashesLinked(t)
    ensures ParentHashesVerified(t)
  {
    hide LeafChain, StandardChain, Valid, UnmergedOk, HashesLinked;
    VerifiedIff(t);
    forall p | 0 <= p < |t| && p % 2 == 1 && t[p].Some? ensures CoveredOnce(t, p) {
      var path := ChainExists(t, p);
      ChainIsStandard(t, path, p);
      forall other | LeafChain(t, other, p) ensures other == path {
        ChainIsStandard(t, other, p);
        OneChain(t, p, other, path);
      }
    }
  }

  /** And a tree that passes has its parents linked. */
  lemma {:induction false} VerifiedLinked(t: Tree)
    requires Valid(t) && ParentHashesVerified(t)
    ensures HashesLinked(t)
  {
    hide ParentHashesVerified, ValidLink;
    VerifiedIff(t);
    forall p: nat | p % 2 == 1 && At(t, p).Some? ensures HasLink(t, p) {
      assert CoveredOnce(t, p);
      var path :| LeafChain(t, path, p);
      assert ValidLink(t, path[|path| - 2], path[|path| - 1]);
    }
  }

  lemma {:induction false} OrderedDistinct(t: Tree)
    requires ListsOrdered(t)
    ensures ListsDistinct(t)
  {
    forall x: nat ensures NoDuplicates(Unmerged(t, x)) { ListedTwice(t, x); }
  }

  // ---- the hash check alone ----

  /** Wherever the code has a link, the two lists name the same nodes. */
  ghost predicate SameNodes(t: Tree) {
    forall d: nat, p: nat | ValidLink(t, d, p) :: StandardLink(t, d, p)
  }

  lemma {:induction false} SameNodesChain(t: Tree, path: seq<nat>, p: nat)
    requires SameNodes(t) && LeafChain(t, path, p)
    ensures StandardChain(t, path, p)
  {
    hide ValidLink, StandardLink;
    forall i | 0 <= i < |path| - 1 ensures StandardLink(t, path[i], path[i + 1]) {
      assert ValidLink(t, path[i], path[i + 1]);
    }
  }

  lemma {:induction false} SameLengthsChain(t: Tree, path: seq<nat>, p: nat)
    requires SameLengths(t) && StandardChain(t, path, p)
    ensures LeafChain(t, path, p)
  {
    hide ValidLink, StandardLink;
    forall i | 0 <= i < |path| - 1 ensures ValidLink(t, path[i], path[i + 1]) {
      SameLengthLink(t, path[i], path[i + 1]);
    }
  }

  /** In a tree the check accepts, a link of the code is the last of the chain to its parent. */
  lemma {:induction false} LinkOnChain(t: Tree, d: nat, p: nat, path: seq<nat>)
    requires Valid(t) && ParentHashesVerified(t) && ValidLink(t, d, p) && LeafChain(t, path, p)
    ensures path[|path| - 2] == d
  {
    hide ParentHashesVerified, ValidLink, LeafChain;
    VerifiedIff(t);
    LinkEnds(t, d, p);
    VerifiedLinked(t);
    var below: seq<nat> := [d];
    if d % 2 == 1 { below := ChainExists(t, d); }
    ChainExtend(t, below, d, p);
    assert CoveredOnce(t, p);
    assert path == below + [p];
    assert d % 2 == 1 ==> below[|below| - 1] == d && |below| >= 2 by { if d % 2 == 1 { ChainEnds(t, below, d); } }
  }

  lemma {:induction false} LinkEnds(t: Tree, d: nat, p: nat)
    requires ValidLink(t, d, p)
    ensures At(t, d).Some? && p % 2 == 1 && At(t, p).Some? && p < |t|
  {
  }

  lemma {:induction false} ChainEnds(t: Tree, path: seq<nat>, p: nat)
    requires LeafChain(t, path, p)
    ensures |path| >= 2 && path[|path| - 1] == p
  {
  }

  /** What the hash check alone lets through: a tree it accepts is one the standard
      accepts, lists of equal length included, exactly when every link it used
      compares lists that name the same nodes. */
  lemma {:induction false} HashCheckAloneIff(t: Tree)
    requires Valid(t) && ParentHashesVerified(t)
    ensures SameNodes(t) <==> StandardVerified(t) && SameLengths(t)
  {
    hide ParentHashesVerified, ValidLink, StandardLink, LeafChain, StandardChain, Valid;
    VerifiedIff(t);
    if SameNodes(t) {
      forall p | 0 <= p < |t| && p % 2 == 1 && t[p].Some? ensures StandardCovered(t, p) {
        assert CoveredOnce(t, p);
        var path :| LeafChain(t, path, p);
        SameNodesChain(t, path, p);
        CoveredIffChain(t, p);
      }
      forall d: nat, p: nat | StandardLink(t, d, p) ensures SameLength(t, d, p) { AloneSameLength(t, d, p); }
    }
    if StandardVerified(t) && SameLengths(t) {
      forall d: nat, p: nat | ValidLink(t, d, p) ensures StandardLink(t, d, p) { AloneSameNodes(t, d, p); }
    }
  }

  lemma {:induction false} AloneSameLength(t: Tree, d: nat, p: nat)
    requires Valid(t) && ParentHashesVerified(t) && SameNodes(t) && StandardLink(t, d, p)
    ensures SameLength(t, d, p)
  {
    hide ParentHashesVerified, ValidLink, StandardLink, Valid;
    VerifiedIff(t);
    StandardParent(t, d, p);
    assert CoveredOnce(t, p);
    var path :| LeafChain(t, path, p);
    var e := path[|path| - 2];
    assert ValidLink(t, path[|path| - 2], path[|path| - 1]);
    OneLink(t, p, d, e);
    SameLengthLink(t, d, p);
  }

  lemma {:induction false} AloneSameNodes(t: Tree, d: nat, p: nat)
    requires Valid(t) && ParentHashesVerified(t) && StandardVerified(t) && SameLengths(t) && ValidLink(t, d, p)
    ensures StandardLink(t, d, p)
  {
    hide ParentHashesVerified, ValidLink, StandardLink, Valid, SameLengths, LeafChain;
    LinkEnds(t, d, p);
    assert StandardCovered(t, p);
    var path :| StandardChain(t, path, p);
    SameLengthsChain(t, path, p);
    LinkOnChain(t, d, p, path);
    assert StandardLink(t, path[|path| - 2], path[|path| - 1]);
  }

  // ---- two trees ----

  /** Two members under node 1, which lists `low`; node 3 above it lists `high`.
      Every hash is the one the tree calls for. */
  function SmallTree(
      first: LeafNode, second: LeafNode, below: PublicKey, above: PublicKey, high: seq<nat>, low: seq<nat>): Tree {
    var top := Some(Inner(ParentNode(above, NoBytes, high)));
    var h := LinkHash([None, None, None, top, None, None, None], 3, 1);
    var inner := Some(Inner(ParentNode(below, h, low)));
    var g := LinkHash([None, inner, Some(Leaf(second)), top, None, None, None], 1, 0);
    [Some(Leaf(first.(source := FromCommit(g)))), inner, Some(Leaf(second)), top, None, None, None]
  }

  lemma {:induction false} SmallNumbers()
    ensures Full(7) && Left(3) == 1 && Right(3) == 5 && Left(1) == 0 && Right(1) == 2
    ensures Lo(3) == 0 && Hi(3) == 6 && Lo(1) == 0 && Hi(1) == 2 && Lo(5) == 4 && Hi(5) == 6
  {
    assert Full(1);
    assert Full(3);
  }

  lemma {:induction false} SmallHashes(
      first: LeafNode, second: LeafNode, below: PublicKey, above: PublicKey, high: seq<nat>, low: seq<nat>)
    ensures var t := SmallTree(first, second, below, above, high, low);
      && Valid(t) && At(t, 1).Some? && At(t, 1).value.Inner? && At(t, 3).Some? && At(t, 3).value.Inner?
      && CarriedHash(At(t, 1).value) == Some(LinkHash(t, 3, 1))
      && CarriedHash(At(t, 0).value) == Some(LinkHash(t, 1, 0))
  {
    hide LinkHash;
    SmallNumbers();
    var t := SmallTree(first, second, below, above, high, low);
    assert Valid(t);
    LinkHashFrame(t, [None, None, None, t[3], None, None, None], 3, 1);
    LinkHashFrame(t, [None, t[1], t[2], t[3], None, None, None], 1, 0);
  }

  lemma {:induction false} SmallLists()
    ensures ListedUnder([1, 1], 0) == [] && ListedUnder([1], 0) == []
    ensures ListedUnder([1, 0], 1) == [2, 0] && ListedUnder([1, 1], 1) == [2, 2]
    ensures Without([0], 0) == [] && Without([1, 2, 2], 1) == [2, 2] && Without([1, 2], 1) == [2]
  {
    hide Left, Right, Level;
    SmallNumbers();
    assert ListedUnder([1], 0) == [] && ListedUnder([0], 1) == [0] && ListedUnder([1], 1) == [2];
    assert [1, 1][1..] == [1] && [1, 0][1..] == [0];
    assert Without([2], 1) == [2];
    assert [2, 2][1..] == [2];
    assert Without([2, 2], 1) == [2, 2];
    assert [1, 2, 2][1..] == [2, 2] && [1, 2][1..] == [2] && [0][1..] == [];
  }

  lemma {:induction false} TwiceListedLinks(first: LeafNode, second: LeafNode, below: PublicKey, above: PublicKey)
    ensures var t := SmallTree(first, second, below, above, [1, 0], [1, 1]);
      Valid(t) && ValidLink(t, 0, 1) && ValidLink(t, 1, 3)
  {
    hide LinkHash;
    SmallNumbers();
    SmallLists();
    SmallHashes(first, second, below, above, [1, 0], [1, 1]);
    var t := SmallTree(first, second, below, above, [1, 0], [1, 1]);
    assert Resolution(t, 0) == [0];
    assert Resolution(t, 1) == [1, 2, 2] by { assert LeafNodes([1, 1]) == [2, 2]; }
  }

  /** Alone, the hash check accepts a tree the standard refuses: it sees two nodes
      on either side where the standard sees two against one. The unmerged-leaves
      check refuses that tree. */
  lemma {:induction false} HashCheckAlone(first: LeafNode, second: LeafNode, below: PublicKey, above: PublicKey)
    requires second.source.FromKeyPackage? && below != above
    ensures var t := SmallTree(first, second, below, above, [1, 0], [1, 1]);
      Valid(t) && ParentHashesVerified(t) && !StandardVerified(t) && !UnmergedOk(t)
  {
    hide LinkHash, ValidLink;
    var t := SmallTree(first, second, below, above, [1, 0], [1, 1]);
    TwiceListedLinks(first, second, below, above);
    SmallNumbers();
    assert HasLink(t, 1) && HasLink(t, 3);
    SmallHeads(first, second, below, above, [1, 0], [1, 1]);
    HeadsVerified(t);
    assert !ListedRightly(t, 3, 0) by { assert OnPath(0, 1) && Under(1, 3) && 0 !in Unmerged(t, 1); }
    assert 0 in Unmerged(t, 3);
    forall d: nat ensures !StandardLink(t, d, 3) { NotStandard(first, second, below, above, d); }
    NoLinkNoChain(t, 3);
    assert !StandardCovered(t, 3);
  }

  /** The key of the parent a node's hash was computed over. */
  function Head(n: Option<Node>): Option<PublicKey> {
    if n.None? then None else
    match CarriedHash(n.value)
    case None => None
    case Some(h) => if h.ParentHashOf? then Some(h.key) else None
  }

  lemma {:induction false} LinkHead(t: Tree, d: nat, p: nat)
    requires Valid(t) && ValidLink(t, d, p)
    ensures Head(At(t, d)) == Some(KeyOf(At(t, p).value))
  {
  }

  lemma {:induction false} LastLink(t: Tree, path: seq<nat>, p: nat)
    requires LeafChain(t, path, p)
    ensures ValidLink(t, path[|path| - 2], p)
    ensures |path| == 2 <==> path[|path| - 2] % 2 == 0
    ensures |path| > 2 ==> LeafChain(t, path[..|path| - 1], path[|path| - 2])
  {
    var n := |path| - 2;
    assert ValidLink(t, path[n], path[n + 1]);
    if n > 0 {
      assert ValidLink(t, path[n - 1], path[n - 1 + 1]);
      var front := path[..n + 1];
      forall i | 0 <= i < |front| - 1 ensures ValidLink(t, front[i], front[i + 1]) {
        assert ValidLink(t, path[i], path[i + 1]);
      }
    }
  }

  ghost predicate HeadsDiffer(t: Tree) {
    forall x: nat, y: nat | x != y && Head(At(t, x)).Some? :: Head(At(t, x)) != Head(At(t, y))
  }

  lemma {:induction false} HeadsChain(t: Tree, a: seq<nat>, b: seq<nat>, p: nat)
    requires Valid(t) && HeadsDiffer(t) && LeafChain(t, a, p) && LeafChain(t, b, p)
    ensures a == b
    decreases |a|
  {
    hide ValidLink;
    LastLink(t, a, p);
    LastLink(t, b, p);
    var d, e, a', b' := a[|a| - 2], b[|b| - 2], a[..|a| - 1], b[..|b| - 1];
    LinkHead(t, d, p);
    LinkHead(t, e, p);
    if |a| > 2 {
      HeadsChain(t, a', b', d);
    } else {
      assert a' == [d] && b' == [d];
    }
    assert a == a' + [p] && b == b' + [p];
  }

  lemma {:induction false} HeadsVerified(t: Tree)
    requires Valid(t) && HashesLinked(t) && HeadsDiffer(t)
    ensures ParentHashesVerified(t)
  {
    VerifiedIff(t);
    forall p | 0 <= p < |t| && p % 2 == 1 && t[p].Some? ensures CoveredOnce(t, p) {
      var path := ChainExists(t, p);
      forall other | LeafChain(t, other, p) ensures other == path { HeadsChain(t, other, path, p); }
    }
  }

  lemma {:induction false} NoLinkNoChain(t: Tree, p: nat)
    requires forall d: nat :: !StandardLink(t, d, p)
    ensures forall path :: !StandardChain(t, path, p)
  {
    hide StandardLink;
    forall path ensures !StandardChain(t, path, p) {
      if |path| >= 2 {
        var i := |path| - 2;
        assert !StandardLink(t, path[i], p) && path[i + 1] == path[|path| - 1];
      }
    }
  }

  lemma {:induction false} SmallHeads(
      first: LeafNode, second: LeafNode, below: PublicKey, above: PublicKey, high: seq<nat>, low: seq<nat>)
    requires second.source.FromKeyPackage? && below != above
    ensures var t := SmallTree(first, second, below, above, high, low);
      forall x: nat :: Head(At(t, x)) == if x == 0 then Some(below) else if x == 1 then Some(above) else None
  {
  }

  lemma {:induction false} NotStandard(
      first: LeafNode, second: LeafNode, below: PublicKey, above: PublicKey, d: nat)
    requires second.source.FromKeyPackage? && below != above
    ensures !StandardLink(SmallTree(first, second, below, above, [1, 0], [1, 1]), d, 3)
  {
    var t := SmallTree(first, second, below, above, [1, 0], [1, 1]);
    SmallNumbers();
    SmallHeads(first, second, below, above, [1, 0], [1, 1]);
    assert OwnChild(3, 1) == 1 && Unmerged(t, 3) == [1, 0];
    ListedUnderIff([1, 0], 1, 0);
    assert Resolution(t, 1) == [1] + LeafNodes([1, 1]);
    assert d != 1 ==> Head(At(t, d)) != Some(above);
  }

  lemma {:induction false} RepeatLinks(first: LeafNode, second: LeafNode, below: PublicKey, above: PublicKey)
    ensures var t := SmallTree(first, second, below, above, [1, 1], [1]);
      Valid(t) && StandardLink(t, 0, 1) && StandardLink(t, 1, 3) && !SameLength(t, 1, 3)
  {
    hide LinkHash;
    SmallNumbers();
    SmallLists();
    SmallHashes(first, second, below, above, [1, 1], [1]);
    var t := SmallTree(first, second, below, above, [1, 1], [1]);
    assert Resolution(t, 0) == [0];
    assert Resolution(t, 1) == [1, 2] by { assert LeafNodes([1]) == [2]; }
  }

  /** With both checks the code refuses a tree the standard's rule accepts: node 3
      lists the second member twice, where the resolution has it once. */
  lemma {:induction false} RepeatRefused(first: LeafNode, second: LeafNode, below: PublicKey, above: PublicKey)
    ensures var t := SmallTree(first, second, below, above, [1, 1], [1]);
      Valid(t) && UnmergedOk(t) && StandardVerified(t) && !ParentHashesVerified(t)
  {
    hide LinkHash, StandardLink, SameLength;
    var t := SmallTree(first, second, below, above, [1, 1], [1]);
    RepeatLinks(first, second, below, above);
    SmallNumbers();
    assert StandardChain(t, [0, 1], 1) && StandardChain(t, [0, 1, 3], 3);
    CoveredIffChain(t, 1);
    CoveredIffChain(t, 3);
    assert UnmergedOk(t) by { RepeatUnmerged(first, second, below, above); }
    assert !SameLengths(t);
    hide SameLengths, SmallTree, UnmergedOk, StandardChain, StandardCovered, ParentHashesVerified;
    StandardVerifiedIff(t);
  }

  lemma {:induction false} RepeatUnmerged(first: LeafNode, second: LeafNode, below: PublicKey, above: PublicKey)
    ensures UnmergedOk(SmallTree(first, second, below, above, [1, 1], [1]))
  {
    hide LinkHash;
    SmallNumbers();
    var t := SmallTree(first, second, below, above, [1, 1], [1]);
    assert Unmerged(t, 3) == [1, 1] && Unmerged(t, 1) == [1];
  }
}

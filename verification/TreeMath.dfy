/** Node arithmetic of the left-balanced ratchet tree (src/treemath.ts).

    The source works on bits. An odd index `x` is the node `x / 2` of the tree
    one level up, so every operation below is a recursion that halves `x`; the
    lemmas at the end of the module give back the closed forms in powers of two. */
module TreeMath {

  /** A node array in memory always has 2^(d+1) - 1 entries. */
  predicate Full(n: nat) {
    n == 1 || (n > 1 && n % 2 == 1 && Full(n / 2))
  }

  /** The number of trailing one bits: 0 for a leaf. */
  function Level(x: nat): nat {
    if x % 2 == 0 then 0 else 1 + Level(x / 2)
  }

  function Root(n: nat): nat {
    n / 2
  }

  function Left(x: nat): nat
    requires x % 2 == 1
  {
    if x / 2 % 2 == 0 then x - 1 else 2 * Left(x / 2) + 1
  }

  function Right(x: nat): nat
    requires x % 2 == 1
  {
    if x / 2 % 2 == 0 then x + 1 else 2 * Right(x / 2) + 1
  }

  function Parent(x: nat): nat {
    if x % 2 == 0 then (if x / 2 % 2 == 0 then x + 1 else x - 1) else 2 * Parent(x / 2) + 1
  }

  function Sibling(x: nat): nat
    ensures Parent(x) % 2 == 1
  {
    ParentOdd(x);
    if x < Parent(x) then Right(Parent(x)) else Left(Parent(x))
  }

  /** The first and last node of the subtree rooted at `x`; both are leaves. */
  function Lo(x: nat): nat {
    if x % 2 == 0 then x else 2 * Lo(x / 2)
  }

  function Hi(x: nat): nat {
    if x % 2 == 0 then x else 2 * Hi(x / 2) + 2
  }

  predicate Under(y: nat, x: nat) {
    Lo(x) <= y <= Hi(x)
  }

  lemma {:induction false} ParentOdd(x: nat)
    ensures Parent(x) % 2 == 1
  {
  }

  lemma {:induction false} Span(x: nat)
    ensures Lo(x) <= x <= Hi(x) && Lo(x) % 2 == 0 && Hi(x) % 2 == 0
    ensures x % 2 == 1 ==> Lo(x) < x < Hi(x)
  {
    if x % 2 == 1 { Span(x / 2); }
  }

  /** The children of an inner node split its subtree around it. */
  lemma {:induction false} Children(x: nat)
    requires x % 2 == 1
    ensures Left(x) < x < Right(x)
    ensures Level(Left(x)) + 1 == Level(x) == Level(Right(x)) + 1
    ensures Lo(Left(x)) == Lo(x) && Hi(Left(x)) == x - 1
    ensures Lo(Right(x)) == x + 1 && Hi(Right(x)) == Hi(x)
    ensures Parent(Left(x)) == x == Parent(Right(x))
  {
    hide Lo, Hi, Level, Parent;
    var y := x / 2;
    DoubleOdd(y);
    assert x == 2 * y + 1;
    if y % 2 == 0 {
      LowestInner(y);
    } else {
      Children(y);
      DoubleOdd(Left(y));
      DoubleOdd(Right(y));
    }
  }

  lemma {:induction false} LowestInner(y: nat)
    requires y % 2 == 0
    ensures var x := 2 * y + 1; Level(x) == 1 && Lo(x) == x - 1 && Hi(x) == x + 1
    ensures Parent(2 * y) == 2 * y + 1 == Parent(2 * y + 2)
    ensures Level(2 * y) == 0 == Level(2 * y + 2) && Lo(2 * y) == Hi(2 * y) == 2 * y
    ensures Lo(2 * y + 2) == Hi(2 * y + 2) == 2 * y + 2
  {
    assert (2 * y + 1) / 2 == y && (2 * y) / 2 == y && (2 * y + 2) / 2 == y + 1;
  }

  /** Doubling and setting the low bit moves a node up one level. */
  lemma {:induction false} DoubleOdd(y: nat)
    ensures (2 * y + 1) / 2 == y && (2 * y + 1) % 2 == 1
    ensures Level(2 * y + 1) == Level(y) + 1 && Parent(2 * y + 1) == 2 * Parent(y) + 1
    ensures Lo(2 * y + 1) == 2 * Lo(y) && Hi(2 * y + 1) == 2 * Hi(y) + 2
  {
  }

  /** Every node is a child of its parent. */
  lemma {:induction false} ParentChild(x: nat)
    ensures Parent(x) % 2 == 1 && Level(Parent(x)) == Level(x) + 1
    ensures x < Parent(x) ==> x == Left(Parent(x))
    ensures x >= Parent(x) ==> x == Right(Parent(x)) && x > Parent(x)
  {
    if x % 2 == 1 { ParentChild(x / 2); }
  }

  lemma {:induction false} SiblingFacts(x: nat)
    ensures Parent(Sibling(x)) == Parent(x) && Level(Sibling(x)) == Level(x)
    ensures Lo(Parent(x)) <= Lo(Sibling(x)) && Hi(Sibling(x)) <= Hi(Parent(x))
    ensures Hi(Sibling(x)) < Lo(x) || Hi(x) < Lo(Sibling(x))
    ensures forall y :: Under(y, Parent(x)) <==> (Under(y, x) || y == Parent(x) || Under(y, Sibling(x)))
  {
    ParentChild(x);
    Children(Parent(x));
    Span(x);
    Span(Sibling(x));
  }

  /** A node under `x` other than `x` has its parent under `x`. */
  lemma {:induction false} ParentUnder(y: nat, x: nat)
    requires Under(y, x) && y != x
    ensures Under(Parent(y), x) && x % 2 == 1
    decreases Level(x)
  {
    Span(x);
    if x % 2 == 0 { assert false; }
    Children(x);
    var c := if y < x then Left(x) else Right(x);
    if y != c { ParentUnder(y, c); }
  }

  lemma {:induction false} UnderNested(y: nat, x: nat)
    requires Under(y, x)
    ensures Lo(x) <= Lo(y) && Hi(y) <= Hi(x)
    ensures y != x ==> Level(y) < Level(x)
    decreases Level(x)
  {
    if y != x {
      ParentUnder(y, x);
      Children(x);
      Span(x);
      if y < x { UnderNested(y, Left(x)); } else { UnderNested(y, Right(x)); }
    }
  }

  lemma {:induction false} UnderTrans(a: nat, b: nat, c: nat)
    requires Under(a, b) && Under(b, c)
    ensures Under(a, c)
  {
    UnderNested(b, c);
  }

  /** Two subtrees are nested or disjoint. */
  lemma {:induction false} Laminar(y: nat, a: nat, b: nat)
    requires Under(y, a) && Under(y, b)
    ensures Under(a, b) || Under(b, a)
    decreases Level(a) - Level(y)
  {
    UnderNested(y, a);
    if y != a && y != b {
      ParentChild(y);
      ParentUnder(y, a);
      ParentUnder(y, b);
      Laminar(Parent(y), a, b);
    }
  }

  // ---- bounded by the size of the tree ----

  lemma {:induction false} RootSpan(n: nat)
    requires Full(n)
    ensures Lo(Root(n)) == 0 && Hi(Root(n)) == n - 1 && Root(n) < n
    ensures forall x | 0 <= x < n :: Under(x, Root(n))
  {
    if n > 1 { RootSpan(n / 2); }
  }

  lemma {:induction false} ParentInTree(x: nat, n: nat)
    requires Full(n) && x < n && x != Root(n)
    ensures Parent(x) < n && Level(x) < Level(Parent(x)) <= Level(Root(n))
  {
    RootSpan(n);
    ParentUnder(x, Root(n));
    ParentChild(x);
    UnderNested(Parent(x), Root(n));
  }

  lemma {:induction false} SubtreeInTree(x: nat, n: nat)
    requires Full(n) && x < n
    ensures Hi(x) < n
  {
    RootSpan(n);
    UnderNested(x, Root(n));
  }

  lemma {:induction false} LevelBound(x: nat, n: nat)
    requires Full(n) && x < n
    ensures Level(x) <= Level(Root(n))
    ensures Level(x) == Level(Root(n)) ==> x == Root(n)
  {
    RootSpan(n);
    UnderNested(x, Root(n));
  }

  /** The ancestors of `x`, nearest first, up to the root. */
  function DirectPath(x: nat, n: nat): seq<nat>
    requires Full(n) && x < n
    decreases Level(Root(n)) - Level(x)
  {
    if x == Root(n) then [] else
    ParentInTree(x, n);
    [Parent(x)] + DirectPath(Parent(x), n)
  }

  predicate IsAncestor(child: nat, ancestor: nat, n: nat)
    requires Full(n) && child < n
  {
    ancestor in DirectPath(child, n)
  }

  /** The path walk finds exactly the nodes whose subtree contains `x`. */
  lemma {:induction false} IsAncestorIff(x: nat, a: nat, n: nat)
    requires Full(n) && x < n && a < n
    ensures IsAncestor(x, a, n) <==> (Under(x, a) && a != x)
    decreases Level(Root(n)) - Level(x)
  {
    if x == Root(n) {
      RootTop(a, n);
    } else {
      ParentInTree(x, n);
      UnderParent(x, a);
      IsAncestorIff(Parent(x), a, n);
    }
  }

  lemma {:induction false} RootTop(a: nat, n: nat)
    requires Full(n) && a < n
    ensures Under(Root(n), a) ==> a == Root(n)
  {
    RootSpan(n);
    if Under(Root(n), a) {
      UnderNested(Root(n), a);
      UnderNested(a, Root(n));
    }
  }

  lemma {:induction false} UnderParent(x: nat, a: nat)
    ensures Under(x, Parent(x))
    ensures (Under(x, a) && a != x) <==> (Under(Parent(x), a))
  {
    Span(x);
    SiblingFacts(x);
    if Under(x, a) && a != x { ParentUnder(x, a); }
    if Under(Parent(x), a) {
      UnderTrans(x, Parent(x), a);
      UnderNested(Parent(x), a);
      ParentChild(x);
    }
  }

  // ---- the closed forms the source computes with shifts and masks ----

  function Pow2(k: nat): (p: nat)
    ensures p > 0
  {
    if k == 0 then 1 else 2 * Pow2(k - 1)
  }

  /** left, right and parent as the source writes them: flip bit k-1, flip bits
      k and k-1, set bit k and clear bit k+1, where k is the level. */
  lemma {:induction false} ClosedForms(x: nat)
    ensures Lo(x) == x + 1 - Pow2(Level(x)) && Hi(x) == x + Pow2(Level(x)) - 1
    ensures x % 2 == 1 ==> Left(x) == x - Pow2(Level(x) - 1) && Right(x) == x + Pow2(Level(x) - 1)
    ensures Parent(x) == if x / Pow2(Level(x)) / 2 % 2 == 0 then x + Pow2(Level(x)) else x - Pow2(Level(x))
  {
    if x % 2 == 1 {
      ClosedForms(x / 2);
      var p := Pow2(Level(x / 2));
      HalfDiv(x, p);
    }
  }

  lemma {:induction false} HalfDiv(x: nat, p: nat)
    requires p > 0
    ensures x / (2 * p) == x / 2 / p
  {
    var q, r := x / 2 / p, x / 2 % p;
    assert x / 2 == q * p + r;
    assert x == (2 * p) * q + (2 * r + x % 2);
    var rem := 2 * r + x % 2;
    assert 0 <= rem < 2 * p;
    DivUnique(x, 2 * p, q, rem);
  }

  lemma {:induction false} DivUnique(x: nat, d: nat, q: nat, r: nat)
    requires d > 0 && x == d * q + r && r < d
    ensures x / d == q
  {
    var q' := x / d;
    if q > q' { MulStep(d, q, q'); }
    if q < q' { MulStep(d, q', q); }
  }

  lemma {:induction false} MulStep(d: nat, a: nat, b: nat)
    requires a > b
    ensures d * a >= d * b + d
  {
    if a > b + 1 { MulStep(d, a - 1, b); }
    assert d * a == d * (a - 1) + d;
  }
}

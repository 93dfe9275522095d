/**
 The O(log n) guarantee claimed in src/rbtree.c:36-39.
 */
module RbHeight {
  import opened RbTrees

  function Height<N>(t: Tree<N>): nat {
    match t
    case Nil => 0
    case T(l, _, _, r) => 1 + if Height(l) >= Height(r) then Height(l) else Height(r)
  }

  function Pow2(k: nat): nat {
    if k == 0 then 1 else 2 * Pow2(k - 1)
  }

  lemma Pow2Sum(a: nat, b: nat)
    ensures Pow2(a + b) == Pow2(a) * Pow2(b)
  {
    if a > 0 {
      Pow2Sum(a - 1, b);
      assert Pow2(a + b) == 2 * (Pow2(a - 1) * Pow2(b));
    }
  }

  lemma Pow2Mono(a: nat, b: nat)
    requires a <= b
    ensures Pow2(a) <= Pow2(b)
  {
    if a < b { Pow2Mono(a, b - 1); }
  }

  /** A path has at most two nodes for every black one, and black height h needs 2^h - 1 nodes. */
  lemma {:induction false} RbBounds<N>(t: Tree<N>, h: nat)
    requires Rb(t, h)
    ensures Height(t) <= 2 * h + if IsRed(t) then 1 else 0
    ensures Pow2(h) <= |Inorder(t)| + 1
  {
    if t.T? {
      var k := if t.red then h else h - 1;
      RbBounds(t.left, k);
      RbBounds(t.right, k);
    }
  }

  lemma SquareMono(a: nat, b: nat)
    requires a <= b
    ensures a * a <= b * b
  {
    assert a * a <= a * b <= b * b;
  }

  /** Height at most 2 * log2(n + 1), stated without logarithms. */
  lemma {:induction false} HeightBound<N>(t: Tree<N>)
    requires RedBlack(t)
    ensures Pow2(Height(t)) <= (|Inorder(t)| + 1) * (|Inorder(t)| + 1)
  {
    var h := BlackHeight(t);
    RbBounds(t, h);
    Pow2Mono(Height(t), h + h);
    Pow2Sum(h, h);
    SquareMono(Pow2(h), |Inorder(t)| + 1);
  }
}

/**
 The rebalancing cases of src/rbtree.c:71-360 as facts about abstract trees: which
 red-black properties each case restores, and that the in-order sequence stays.
 */
module RbCases {
  import opened RbTrees
  import opened RbLinks

  // ---------------------------------------------------------------- in-order

  lemma Assoc5<X>(a: seq<X>, x: seq<X>, b: seq<X>, y: seq<X>, c: seq<X>)
    ensures a + x + (b + y + c) == (a + x + b) + y + c
  {
  }

  lemma {:induction false} SpinInorder<N>(s: Spin<N>, xr: bool, yr: bool, ar': bool, xr': bool, yr': bool)
    ensures Inorder(Plug(s.up, s.New(ar', xr', yr'))) == Inorder(Plug(s.up, s.Old(xr, yr)))
  {
    PlugInorder(s.up, s.New(ar', xr', yr'));
    PlugInorder(s.up, s.Old(xr, yr));
    assert Inorder(s.New(ar', xr', yr')) == Inorder(s.Old(xr, yr)) by {
      assert Inorder(Repaint(s.a, ar')) == Inorder(s.a);
      if s.d.Left? {
        Assoc5(Inorder(s.a), [s.x], Inorder(s.b), [s.y], Inorder(s.c));
      } else {
        Assoc5(Inorder(s.c), [s.y], Inorder(s.b), [s.x], Inorder(s.a));
      }
    }
  }

  /** A double rotation is two single ones: first `z` over `x`, then `z` over `y`. */
  function FirstSpin<N>(s: Twist<N>, yr: bool): Spin<N> {
    Spin(In(s.d, s.y, yr, s.e, s.up), Flip(s.d), s.c, s.z, s.b, s.x, s.a)
  }

  function SecondSpin<N>(s: Twist<N>, xr: bool): Spin<N> {
    Spin(s.up, s.d, Mk(s.d, s.a, s.x, xr, s.b), s.z, s.c, s.y, s.e)
  }

  lemma {:induction false} TwistSpins<N>(s: Twist<N>, xr: bool, zr: bool, yr: bool, xr': bool, zr': bool, yr': bool)
    ensures Plug(s.up, s.Old(xr, zr, yr)) == Plug(FirstSpin(s, yr).up, FirstSpin(s, yr).Old(zr, xr))
    ensures Plug(FirstSpin(s, yr).up, FirstSpin(s, yr).New(IsRed(s.c), zr, xr'))
      == Plug(s.up, SecondSpin(s, xr').Old(zr, yr))
    ensures Plug(s.up, SecondSpin(s, xr').New(xr', zr', yr')) == Plug(s.up, s.New(xr', zr', yr'))
  {
    assert Repaint(s.c, IsRed(s.c)) == s.c;
    if s.d.Left? {} else {}
  }

  lemma {:induction false} TwistInorder<N>(s: Twist<N>, xr: bool, zr: bool, yr: bool, xr': bool, zr': bool, yr': bool)
    ensures Inorder(Plug(s.up, s.New(xr', zr', yr'))) == Inorder(Plug(s.up, s.Old(xr, zr, yr)))
  {
    TwistSpins(s, xr, zr, yr, xr', zr', yr');
    SpinInorder(FirstSpin(s, yr), zr, xr, IsRed(s.c), zr, xr');
    SpinInorder(SecondSpin(s, xr'), zr, yr, xr', zr', yr');
  }

  lemma {:induction false} PaintInorder<N>(c: Ctx<N>, t: Tree<N>, red: bool)
    ensures Inorder(Plug(c, Repaint(t, red))) == Inorder(Plug(c, t))
  {
    PlugInorder(c, t);
    PlugInorder(c, Repaint(t, red));
  }

  lemma {:induction false} RbCWeaken<N>(c: Ctx<N>, h: nat)
    requires RbC(c, true, h)
    ensures RbC(c, false, h) && c.In? && !c.red
  {
  }

  // ---------------------------------------------------------------- insertion

  /** The loop invariant of `__rb_insert`: only the edge above the red `t` may break a property. */
  ghost predicate RedHole<N>(c: Ctx<N>, t: Tree<N>, h: nat) {
    IsRed(t) && Rb(t, h) && RbC(c, false, h)
  }

  /** No parent: the node becomes the black root (src/rbtree.c:85-87). */
  lemma {:induction false} InsertRoot<N>(t: Tree<N>, h: nat)
    requires RedHole(Top, t, h)
    ensures RedBlack(Repaint(t, false))
  {
    PlugRb(Top, Repaint(t, false), h + 1);
  }

  /** A black parent (src/rbtree.c:88-89). */
  lemma {:induction false} InsertBlackParent<N>(c: Ctx<N>, t: Tree<N>, h: nat)
    requires RedHole(c, t, h) && c.In? && !c.red
    ensures RedBlack(Plug(c, t))
  {
    PlugRb(c, t, h);
  }

  /** A red parent is not the root, and the grandparent is black. */
  lemma {:induction false} InsertRedParent<N>(c: Ctx<N>, t: Tree<N>, h: nat)
    requires RedHole(c, t, h) && c.In? && c.red
    ensures c.up.In? && !c.up.red && !IsRed(c.other) && !IsRed(t.left) && !IsRed(t.right)
  {
    assert RbC(c.up, true, h);
  }

  /** Case 1, colour flips (src/rbtree.c:95-115). */
  lemma {:induction false} InsertFlip<N>(c: Ctx<N>, t: Tree<N>, h: nat)
    requires RedHole(c, t, h) && c.In? && c.red && c.up.In? && IsRed(c.up.other)
    ensures RedHole(c.up.up,
                    Mk(c.up.side, Mk(c.side, t, c.n, false, c.other), c.up.n, true, Repaint(c.up.other, false)), h + 1)
  {
    assert RbC(c.up, true, h) && RbC(c.up.up, false, h + 1);
    OpenRb(c.side, t, c.n, false, c.other, h + 1);
    OpenRb(c.up.side, Mk(c.side, t, c.n, false, c.other), c.up.n, true, Repaint(c.up.other, false), h + 1);
  }

  /** Case 3, rotation at the grandparent (src/rbtree.c:142-157). */
  lemma {:induction false} InsertSpin<N>(s: Spin<N>, h: nat)
    requires RedHole(In(s.d, s.x, true, s.b, In(s.d, s.y, false, s.c, s.up)), s.a, h) && !IsRed(s.c)
    ensures RedBlack(Plug(s.up, s.New(true, false, true)))
  {
    assert RbC(In(s.d, s.y, false, s.c, s.up), true, h);
    assert Repaint(s.a, true) == s.a;
    OpenRb(s.d, s.b, s.y, true, s.c, h);
    OpenRb(s.d, s.a, s.x, false, Mk(s.d, s.b, s.y, true, s.c), h + 1);
    PlugRb(s.up, s.New(true, false, true), h + 1);
  }

  /** Case 2 then Case 3, double rotation (src/rbtree.c:117-157). */
  lemma {:induction false} InsertTwist<N>(s: Twist<N>, h: nat)
    requires RedHole(In(Flip(s.d), s.x, true, s.a, In(s.d, s.y, false, s.e, s.up)), Mk(s.d, s.b, s.z, true, s.c), h)
      && !IsRed(s.e)
    ensures RedBlack(Plug(s.up, s.New(true, false, true)))
  {
    assert RbC(In(s.d, s.y, false, s.e, s.up), true, h);
    OpenRb(s.d, s.b, s.z, true, s.c, h);
    OpenRb(s.d, s.a, s.x, true, s.b, h);
    OpenRb(s.d, s.c, s.y, true, s.e, h);
    OpenRb(s.d, Mk(s.d, s.a, s.x, true, s.b), s.z, false, Mk(s.d, s.c, s.y, true, s.e), h + 1);
    PlugRb(s.up, s.New(true, false, true), h + 1);
  }

  // ---------------------------------------------------------------- erasure

  /** The loop invariant of `____rb_erase_color`: paths through the black `t` are one black node short. */
  ghost predicate ShortHole<N>(c: Ctx<N>, t: Tree<N>, h: nat) {
    c.In? && !IsRed(t) && Rb(t, h) && RbC(c, false, h + 1)
  }

  lemma {:induction false} EraseSibling<N>(c: Ctx<N>, t: Tree<N>, h: nat)
    requires ShortHole(c, t, h)
    ensures c.other.T?
    ensures c.other.red ==>
      !c.red && c.other.left.T? && c.other.right.T? && !IsRed(c.other.left) && !IsRed(c.other.right)
  {
    assert Rb(c.other, h + 1);
    if c.other.red { assert Rb(c.other.left, h + 1) && Rb(c.other.right, h + 1); }
  }

  /** Case 1, a red sibling (src/rbtree.c:216-233); `c` is the hole on side Flip(s.d) of s.y. */
  lemma {:induction false} EraseCase1<N>(s: Spin<N>, h: nat)
    requires ShortHole(In(Flip(s.d), s.y, false, Mk(s.d, s.a, s.x, true, s.b), s.up), s.c, h)
    ensures var c' := In(Flip(s.d), s.y, true, s.b, In(Flip(s.d), s.x, false, s.a, s.up));
      Plug(s.up, s.New(IsRed(s.a), false, true)) == Plug(c', s.c) && ShortHole(c', s.c, h)
  {
    OpenRb(s.d, s.a, s.x, true, s.b, h + 1);
    assert Repaint(s.a, IsRed(s.a)) == s.a;
    if s.d.Left? {} else {}
  }

  /** Case 2, sibling colour flip (src/rbtree.c:253-263). */
  lemma {:induction false} EraseCase2<N>(c: Ctx<N>, t: Tree<N>, h: nat)
    requires ShortHole(c, t, h) && c.other.T? && !c.other.red && !IsRed(c.other.left) && !IsRed(c.other.right)
    ensures var m := Mk(c.side, t, c.n, false, Repaint(c.other, true));
      Rb(m, h + 1)
      && (if c.red || c.up.Top? then RedBlack(Plug(c.up, m)) else ShortHole(c.up, m, h + 1))
  {
    var m := Mk(c.side, t, c.n, false, Repaint(c.other, true));
    OpenRb(c.side, t, c.n, false, Repaint(c.other, true), h + 1);
    if c.red { RbCWeaken(c.up, h + 1); }
    if c.red || c.up.Top? { PlugRb(c.up, m, h + 1); }
  }

  /** Case 4, rotation at the parent (src/rbtree.c:287-307). */
  lemma {:induction false} EraseCase4<N>(s: Spin<N>, yr: bool, h: nat)
    requires ShortHole(In(Flip(s.d), s.y, yr, Mk(s.d, s.a, s.x, false, s.b), s.up), s.c, h) && IsRed(s.a)
    ensures RedBlack(Plug(s.up, s.New(false, yr, false)))
  {
    var g := if yr then h + 1 else h + 2;
    OpenRb(s.d, s.a, s.x, false, s.b, h + 1);
    OpenRb(s.d, s.b, s.y, false, s.c, h + 1);
    OpenRb(s.d, Repaint(s.a, false), s.x, yr, Mk(s.d, s.b, s.y, false, s.c), g);
    PlugRb(s.up, s.New(false, yr, false), g);
  }

  /** Case 3 then Case 4, double rotation (src/rbtree.c:265-307). */
  lemma {:induction false} EraseCase34<N>(s: Twist<N>, yr: bool, h: nat)
    requires ShortHole(In(Flip(s.d), s.y, yr, Mk(s.d, s.a, s.x, false, Mk(s.d, s.b, s.z, true, s.c)), s.up), s.e, h)
    requires !IsRed(s.a)
    ensures !IsRed(s.b) && !IsRed(s.c)
    ensures RedBlack(Plug(s.up, s.New(false, yr, false)))
  {
    var g := if yr then h + 1 else h + 2;
    OpenRb(s.d, s.a, s.x, false, Mk(s.d, s.b, s.z, true, s.c), h + 1);
    OpenRb(s.d, s.b, s.z, true, s.c, h);
    OpenRb(s.d, s.a, s.x, false, s.b, h + 1);
    OpenRb(s.d, s.c, s.y, false, s.e, h + 1);
    OpenRb(s.d, Mk(s.d, s.a, s.x, false, s.b), s.z, yr, Mk(s.d, s.c, s.y, false, s.e), g);
    PlugRb(s.up, s.New(false, yr, false), g);
  }

  // ---------------------------------------------------------------- unlinking

  /** Unlinking a node with at most one child, painted `red` (src/rbtree_augmented.h:146-169). */
  lemma {:induction false} UnlinkRb<N>(k: Ctx<N>, d: Side, x: N, xr: bool, r: Tree<N>)
    requires RedBlack(Plug(k, Mk(d, Nil, x, xr, r)))
    ensures r.T? ==> r.red && !xr
    ensures r.T? || xr || k.Top? ==> RedBlack(Plug(k, Repaint(r, false)))
    ensures r.Nil? && !xr && k.In? ==> ShortHole(k, Nil, 0)
  {
    var t := Mk(d, Nil, x, xr, r);
    var h := BlackHeight(t);
    UnplugRb(k, t);
    OpenRb(d, Nil, x, xr, r, h);
    if r.T? {
      PlugRb(k, Repaint(r, false), h);
    } else if xr {
      RbCWeaken(k, h);
      PlugRb(k, Nil, h);
    } else if k.Top? {
      PlugRb(k, Nil, 0);
    }
  }

  // -------------------------------------------------- the successor (src/rbtree_augmented.h:170-229)

  /** The leftmost node of `r`, as the subtree below it. */
  function MinTree<N>(r: Tree<N>): Tree<N>
    requires r.T?
  {
    if r.left.Nil? then r else MinTree(r.left)
  }

  /** `r` without its leftmost node, whose right child takes the place, painted black. */
  function DropMin<N>(r: Tree<N>): Tree<N>
    requires r.T?
  {
    if r.left.Nil? then Repaint(r.right, false) else T(DropMin(r.left), r.n, r.red, r.right)
  }

  /** The context of the leftmost node of `r`, itself in the hole of `b`. */
  function SpineCtx<N>(r: Tree<N>, b: Ctx<N>): Ctx<N>
    requires r.T?
    decreases r
  {
    if r.left.Nil? then b else SpineCtx(r.left, In(Left, r.n, r.red, r.right, b))
  }

  lemma {:induction false} SpinePlug<N>(r: Tree<N>, b: Ctx<N>)
    requires r.T?
    ensures MinTree(r).T? && MinTree(r).left.Nil?
    ensures Plug(SpineCtx(r, b), MinTree(r)) == Plug(b, r)
    ensures Plug(SpineCtx(r, b), Repaint(MinTree(r).right, false)) == Plug(b, DropMin(r))
    decreases r
  {
    if r.left.T? { SpinePlug(r.left, In(Left, r.n, r.red, r.right, b)); }
  }

  lemma {:induction false} SpineRb<N>(r: Tree<N>, b: Ctx<N>, c: Ctx<N>, red: bool, h: nat)
    requires r.T? && (forall q: bool, i: nat :: RbC(b, q, i) <==> RbC(c, q, i))
    ensures RbC(SpineCtx(r, b), red, h) <==> RbC(SpineCtx(r, c), red, h)
    decreases r
  {
    if r.left.T? {
      SpineRb(r.left, In(Left, r.n, r.red, r.right, b), In(Left, r.n, r.red, r.right, c), red, h);
    }
  }

  lemma {:induction false} SpineIn<N>(r: Tree<N>, b: Ctx<N>)
    requires r.T? && b.In?
    ensures SpineCtx(r, b).In?
    decreases r
  {
    if r.left.T? { SpineIn(r.left, In(Left, r.n, r.red, r.right, b)); }
  }

  lemma {:induction false} DropMinInorder<N>(r: Tree<N>)
    requires r.T?
    ensures MinTree(r).T? && Inorder(r) == [MinTree(r).n] + Inorder(DropMin(r))
  {
    if r.left.T? {
      DropMinInorder(r.left);
      assert Inorder(r) == [MinTree(r).n] + (Inorder(DropMin(r.left)) + [r.n] + Inorder(r.right));
    } else {
      assert Inorder(r) == [r.n] + Inorder(r.right);
    }
  }

  /** Putting the successor `s` in the place of `x` keeps or breaks exactly what unlinking `s` does. */
  lemma {:induction false} SuccessorRb<N>(c: Ctx<N>, l: Tree<N>, x: N, xr: bool, r: Tree<N>)
    requires r.T? && RedBlack(Plug(c, T(l, x, xr, r)))
    ensures MinTree(r).T?
    ensures
      var m := MinTree(r);
      var t, b := T(l, m.n, xr, DropMin(r)), In(Right, m.n, xr, l, c);
      && (m.right.T? || m.red ==> RedBlack(Plug(c, t)))
      && (m.right.Nil? && !m.red ==> Plug(SpineCtx(r, b), Nil) == Plug(c, t) && ShortHole(SpineCtx(r, b), Nil, 0))
  {
    var b := In(Right, x, xr, l, c);
    SpinePlug(r, b);
    var m, k := MinTree(r), SpineCtx(r, b);
    var b' := In(Right, m.n, xr, l, c);
    SpinePlug(r, b');
    SpineIn(r, b);
    SpineIn(r, b');
    UnlinkRb(k, Left, m.n, m.red, m.right);
    if m.right.T? || m.red {
      UnplugRb(b, DropMin(r));
      PlugRb(b', DropMin(r), BlackHeight(DropMin(r)));
    } else {
      SpineRb(r, b, b', false, 1);
    }
  }

  lemma {:induction false} SuccessorInorder<N>(c: Ctx<N>, l: Tree<N>, x: N, xr: bool, r: Tree<N>)
    requires r.T?
    ensures MinTree(r).T?
    ensures Inorder(Plug(c, T(l, x, xr, r))) == (Before(c) + Inorder(l)) + [x] + (Inorder(r) + After(c))
    ensures Inorder(Plug(c, T(l, MinTree(r).n, xr, DropMin(r)))) == (Before(c) + Inorder(l)) + (Inorder(r) + After(c))
  {
    DropMinInorder(r);
    PlugInorder(c, T(l, x, xr, r));
    Regroup(Before(c), Inorder(l), [x], Inorder(r), After(c));
    PlugInorder(c, T(l, MinTree(r).n, xr, DropMin(r)));
    Regroup(Before(c), Inorder(l), [MinTree(r).n], Inorder(DropMin(r)), After(c));
  }

  lemma Regroup<X>(a: seq<X>, b: seq<X>, c: seq<X>, d: seq<X>, e: seq<X>)
    ensures a + (b + c + d) + e == (a + b) + c + (d + e)
    ensures a + (b + c + d) + e == (a + b) + ((c + d) + e)
  {
  }
}

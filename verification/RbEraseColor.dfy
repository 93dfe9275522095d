/**
 `____rb_erase_color` (src/rbtree.c:200-360), with the rotate callback of the augmented
 variant.  The two mirrored halves of the loop are written out, as in the source.
 */
module RbEraseColor {
  import opened RbTrees
  import opened RbLinks
  import opened RbCases
  import opened RbSteps
  import opened RbState
  import opened RbHeap
  import opened RbInsert

  /** Case 2: sibling colour flip (src/rbtree.c:253-263, 325-335); `done` unless the loop goes on at the parent. */
  method FlipSibling<V, A(!new)>(root: Root<V, A>, sibling: Node<V, A>, parent: Node<V, A>,
                                 ghost x: Fixed<Node<V, A>, A>, ghost c: Ctx<Node<V, A>>, ghost t: Tree<Node<V, A>>)
    returns (done: bool)
    requires Holds(x, root.Snap(x.nodes), Plug(c, t)) && c.In? && c.other.T? && sibling == c.other.n && parent == c.n
    modifies x.nodes
    ensures Holds(x, root.Snap(x.nodes), Plug(c.up, Mk(c.side, t, c.n, false, Repaint(c.other, true))))
    ensures done == (c.red || c.up.Top?)
  {
    SiblingState(x, root.Snap(x.nodes), c, t);
    root.SetParentColor(x.nodes, sibling, parent, true);
    assert parent.red == c.red && Ref(parent.parent) == Parent(c.up);
    if parent.red {
      root.SetParentColor(x.nodes, parent, parent.parent, false);
      done := true;
    } else {
      done := parent.parent == null;
    }
  }

  // ------------------------------------------------ the node is a left child (src/rbtree.c:215-307)

  /** Case 4: left rotate at parent and colour flips (src/rbtree.c:299-306). */
  method KeepLinksLeft<V, A(!new)>(root: Root<V, A>, ghost s: set<Node<V, A>>, sibling: Node<V, A>, parent: Node<V, A>,
                                   tmp1: Node<V, A>, tmp2: Node?<V, A>)
    requires sibling in s && parent in s && sibling != parent && tmp1 in s && tmp1 != parent
      && (tmp2 == null || (tmp2 in s && tmp2 != parent))
    requires parent.parent == null || (parent.parent in s && parent.parent != parent)
    modifies root`rb_node, s`left, s`right, s`parent, s`red
    ensures root.Snap(s) == old(root.Snap(s)).(v := TurnKeep(old(root.Snap(s)).v, Right, sibling, parent, Some(tmp1),
                                                             Ref(tmp2)),
                                               r := NewRoot(old(root.Snap(s)), parent, sibling))
    ensures parent.right == tmp2 && parent.left == old(parent.left)
  {
    root.PutRight(s, parent, tmp2);
    root.PutLeft(s, sibling, parent);
    root.SetParentColor(s, tmp1, sibling, false);
    if tmp2 != null { root.SetParent(s, tmp2, parent); }
    root.RotateSetParents(s, parent, sibling, false);
  }

  method KeepLeft<V, A(!new)>(root: Root<V, A>, ghost s: set<Node<V, A>>, sibling: Node<V, A>, parent: Node<V, A>,
                              tmp1: Node<V, A>, tmp2: Node?<V, A>)
    requires sibling in s && parent in s && sibling != parent && tmp1 in s && tmp1 != parent
      && (tmp2 == null || (tmp2 in s && tmp2 != parent))
    requires parent.parent == null || (parent.parent in s && parent.parent != parent)
    requires parent.left == null || parent.left in s
    modifies root`rb_node, root`turns, s
    ensures root.turns == old(root.turns) + 1
    ensures root.Snap(s) == KeepShot(FoldOf(root.cb), old(root.Snap(s)), Right, sibling, parent, Some(tmp1), Ref(tmp2))
  {
    KeepLinksLeft(root, s, sibling, parent, tmp1, tmp2);
    root.AugmentRotate(s, parent, sibling);
  }

  /** Case 3: right rotate at sibling (src/rbtree.c:277-283); the parents of sibling and tmp2 stay stale. */
  method KinkLinksLeft<V, A(!new)>(root: Root<V, A>, ghost s: set<Node<V, A>>, sibling: Node<V, A>, parent: Node<V, A>,
                                   tmp2: Node<V, A>, tmp1: Node?<V, A>)
    requires sibling in s && parent in s && tmp2 in s && sibling != parent && sibling != tmp2 && parent != tmp2
      && (tmp1 == null || tmp1 in s)
    modifies s`left, s`right, s`parent, s`red
    ensures root.Snap(s) == old(root.Snap(s)).(v := Kink(old(root.Snap(s)).v, Right, sibling, tmp2, parent, Ref(tmp1)))
    ensures sibling.left == tmp1 && sibling.right == old(sibling.right)
  {
    root.PutLeft(s, sibling, tmp1);
    root.PutRight(s, tmp2, sibling);
    root.PutRight(s, parent, tmp2);
    if tmp1 != null { root.SetParentColor(s, tmp1, sibling, false); }
  }

  method KinkLeft<V, A(!new)>(root: Root<V, A>, ghost s: set<Node<V, A>>, sibling: Node<V, A>, parent: Node<V, A>,
                              tmp2: Node<V, A>)
    requires sibling in s && parent in s && tmp2 in s && sibling != parent && sibling != tmp2 && parent != tmp2
    requires (tmp2.right == null || tmp2.right in s) && (sibling.right == null || sibling.right in s)
    modifies root`turns, s
    ensures root.turns == old(root.turns) + 1
    ensures root.Snap(s) == KinkShot(FoldOf(root.cb), old(root.Snap(s)), Right, sibling, tmp2, parent,
                                     old(Ref(tmp2.right)))
  {
    KinkLinksLeft(root, s, sibling, parent, tmp2, tmp2.right);
    root.AugmentRotate(s, sibling, tmp2);
  }

  /** Case 1: left rotate at parent (src/rbtree.c:226-232). */
  method EraseCase1Left<V, A(!new)>(root: Root<V, A>, sibling: Node<V, A>, parent: Node<V, A>,
                                    ghost x: Fixed<Node<V, A>, A>, ghost c: Ctx<Node<V, A>>,
                                    ghost t: Tree<Node<V, A>>, ghost h: nat)
    returns (tmp1: Node<V, A>, ghost c': Ctx<Node<V, A>>)
    requires x.f == FoldOf(root.cb) && Holds(x, root.Snap(x.nodes), Plug(c, t)) && ShortHole(c, t, h)
    requires c.side == Left && c.other.T? && c.other.red && sibling == c.other.n && parent == c.n
    modifies root`rb_node, root`turns, x.nodes
    ensures Holds(x, root.Snap(x.nodes), Plug(c', t)) && ShortHole(c', t, h)
    ensures c'.side == Left && c'.n == parent && c'.red && c'.other.T? && !c'.other.red && tmp1 == c'.other.n
      && root.turns == old(root.turns) + 1
  {
    EraseSibling(c, t, h);
    ghost var o := c.other;
    ghost var w := Spin(c.up, Right, o.right, o.n, o.left, c.n, t);
    assert Plug(c, t) == Plug(w.up, w.Old(true, false));
    TurnState(x, root.Snap(x.nodes), w, true, false, true);
    EraseCase1(w, h);
    c' := In(Left, c.n, true, o.left, In(Left, o.n, false, o.right, c.up));
    tmp1 := sibling.left;
    RotateLeft(root, x.nodes, sibling, parent, tmp1);
  }

  /** Case 4 (src/rbtree.c:299-306). */
  method EraseOuterLeft<V, A(!new)>(root: Root<V, A>, sibling: Node<V, A>, parent: Node<V, A>, tmp1: Node<V, A>,
                                    ghost x: Fixed<Node<V, A>, A>, ghost c: Ctx<Node<V, A>>,
                                    ghost t: Tree<Node<V, A>>, ghost h: nat)
    returns (ghost t': Tree<Node<V, A>>)
    requires x.f == FoldOf(root.cb) && Holds(x, root.Snap(x.nodes), Plug(c, t)) && ShortHole(c, t, h)
    requires c.side == Left && c.other.T? && !c.other.red && sibling == c.other.n && parent == c.n
    requires IsRed(c.other.right) && tmp1 == c.other.right.n
    modifies root`rb_node, root`turns, x.nodes
    ensures Holds(x, root.Snap(x.nodes), t') && RedBlack(t') && root.turns == old(root.turns) + 1
  {
    ghost var o := c.other;
    ghost var w := Spin(c.up, Right, o.right, o.n, o.left, c.n, t);
    assert Plug(c, t) == Plug(w.up, w.Old(false, c.red));
    KeepState(x, root.Snap(x.nodes), w, false, c.red);
    EraseCase4(w, c.red, h);
    t' := Plug(w.up, w.New(false, c.red, false));
    KeepLeft(root, x.nodes, sibling, parent, tmp1, sibling.left);
  }

  /** Case 3 followed by Case 4 (src/rbtree.c:277-306). */
  method EraseInnerLeft<V, A(!new)>(root: Root<V, A>, sibling: Node<V, A>, parent: Node<V, A>, tmp2: Node<V, A>,
                                    ghost x: Fixed<Node<V, A>, A>, ghost c: Ctx<Node<V, A>>,
                                    ghost t: Tree<Node<V, A>>, ghost h: nat)
    returns (ghost t': Tree<Node<V, A>>)
    requires x.f == FoldOf(root.cb) && Holds(x, root.Snap(x.nodes), Plug(c, t)) && ShortHole(c, t, h)
    requires c.side == Left && c.other.T? && !c.other.red && sibling == c.other.n && parent == c.n
    requires !IsRed(c.other.right) && IsRed(c.other.left) && tmp2 == c.other.left.n
    modifies root`rb_node, root`turns, x.nodes
    ensures Holds(x, root.Snap(x.nodes), t') && RedBlack(t') && root.turns == old(root.turns) + 2
  {
    ghost var o := c.other;
    ghost var w := Twist(c.up, Right, o.right, o.n, o.left.right, o.left.n, o.left.left, c.n, t);
    assert Plug(c, t) == Plug(w.up, w.Old(false, true, c.red));
    EraseCase34(w, c.red, h);
    KinkState(x, root.Snap(x.nodes), w, c.red);
    t' := Plug(w.up, w.New(false, c.red, false));
    KinkLeft(root, x.nodes, sibling, parent, tmp2);
    KeepLeft(root, x.nodes, tmp2, parent, sibling, tmp2.left);
  }

  /** One iteration when the node is a left child; `done` unless the loop goes on at the parent. */
  method EraseStepLeft<V, A(!new)>(root: Root<V, A>, sibling0: Node<V, A>, parent: Node<V, A>,
                                   ghost x: Fixed<Node<V, A>, A>, ghost c0: Ctx<Node<V, A>>,
                                   ghost t: Tree<Node<V, A>>, ghost h: nat)
    returns (done: bool, ghost c: Ctx<Node<V, A>>, ghost t': Tree<Node<V, A>>)
    requires x.f == FoldOf(root.cb) && Holds(x, root.Snap(x.nodes), Plug(c0, t)) && ShortHole(c0, t, h)
    requires c0.side == Left && c0.other.T? && sibling0 == c0.other.n && parent == c0.n && sibling0 in x.nodes
      && sibling0.red == c0.other.red
    modifies root`rb_node, root`turns, x.nodes
    ensures Holds(x, root.Snap(x.nodes), Plug(c, t'))
    ensures done ==> RedBlack(Plug(c, t')) && root.turns <= old(root.turns) + 3
    ensures !done ==> root.turns == old(root.turns) && c == c0.up && ShortHole(c, t', h + 1) && parent == t'.n
  {
    c := c0;
    var sibling := sibling0;
    if sibling.red {
      sibling, c := EraseCase1Left(root, sibling, parent, x, c, t, h);
    }
    done, c, t' := EraseBlackLeft(root, sibling, parent, x, c, t, h);
  }

  /** Cases 2, 3 and 4: the sibling is black (src/rbtree.c:234-307). */
  method EraseBlackLeft<V, A(!new)>(root: Root<V, A>, sibling: Node<V, A>, parent: Node<V, A>,
                                    ghost x: Fixed<Node<V, A>, A>, ghost c0: Ctx<Node<V, A>>,
                                    ghost t: Tree<Node<V, A>>, ghost h: nat)
    returns (done: bool, ghost c: Ctx<Node<V, A>>, ghost t': Tree<Node<V, A>>)
    requires x.f == FoldOf(root.cb) && Holds(x, root.Snap(x.nodes), Plug(c0, t)) && ShortHole(c0, t, h)
    requires c0.side == Left && c0.other.T? && !c0.other.red && sibling == c0.other.n && parent == c0.n
    modifies root`rb_node, root`turns, x.nodes
    ensures Holds(x, root.Snap(x.nodes), Plug(c, t'))
    ensures done ==> RedBlack(Plug(c, t')) && root.turns <= old(root.turns) + 2
    ensures !done ==>
      !c0.red && root.turns == old(root.turns) && c == c0.up && ShortHole(c, t', h + 1) && parent == t'.n
  {
    c := c0;
    SiblingKids(x, root.Snap(x.nodes), c, t);
    var tmp1 := sibling.right;
    if tmp1 == null || !tmp1.red {
      var tmp2 := sibling.left;
      if tmp2 == null || !tmp2.red {
        EraseCase2(c, t, h);
        done := FlipSibling(root, sibling, parent, x, c, t);
        t' := Mk(c.side, t, c.n, false, Repaint(c.other, true));
        c := c.up;
      } else {
        t' := EraseInnerLeft(root, sibling, parent, tmp2, x, c, t, h);
        c, done := Top, true;
      }
    } else {
      t' := EraseOuterLeft(root, sibling, parent, tmp1, x, c, t, h);
      c, done := Top, true;
    }
  }

  // ------------------------------------------------ the node is a right child (src/rbtree.c:308-358)

  /** Case 4: right rotate at parent and colour flips (src/rbtree.c:349-356). */
  method KeepLinksRight<V, A(!new)>(root: Root<V, A>, ghost s: set<Node<V, A>>, sibling: Node<V, A>, parent: Node<V, A>,
                                   tmp1: Node<V, A>, tmp2: Node?<V, A>)
    requires sibling in s && parent in s && sibling != parent && tmp1 in s && tmp1 != parent
      && (tmp2 == null || (tmp2 in s && tmp2 != parent))
    requires parent.parent == null || (parent.parent in s && parent.parent != parent)
    modifies root`rb_node, s`right, s`left, s`parent, s`red
    ensures root.Snap(s) == old(root.Snap(s)).(v := TurnKeep(old(root.Snap(s)).v, Left, sibling, parent, Some(tmp1),
                                                             Ref(tmp2)),
                                               r := NewRoot(old(root.Snap(s)), parent, sibling))
    ensures parent.left == tmp2 && parent.right == old(parent.right)
  {
    root.PutLeft(s, parent, tmp2);
    root.PutRight(s, sibling, parent);
    root.SetParentColor(s, tmp1, sibling, false);
    if tmp2 != null { root.SetParent(s, tmp2, parent); }
    root.RotateSetParents(s, parent, sibling, false);
  }

  method KeepRight<V, A(!new)>(root: Root<V, A>, ghost s: set<Node<V, A>>, sibling: Node<V, A>, parent: Node<V, A>,
                              tmp1: Node<V, A>, tmp2: Node?<V, A>)
    requires sibling in s && parent in s && sibling != parent && tmp1 in s && tmp1 != parent
      && (tmp2 == null || (tmp2 in s && tmp2 != parent))
    requires parent.parent == null || (parent.parent in s && parent.parent != parent)
    requires parent.right == null || parent.right in s
    modifies root`rb_node, root`turns, s
    ensures root.turns == old(root.turns) + 1
    ensures root.Snap(s) == KeepShot(FoldOf(root.cb), old(root.Snap(s)), Left, sibling, parent, Some(tmp1), Ref(tmp2))
  {
    KeepLinksRight(root, s, sibling, parent, tmp1, tmp2);
    root.AugmentRotate(s, parent, sibling);
  }

  /** Case 3: left rotate at sibling (src/rbtree.c:338-344); the parents of sibling and tmp2 stay stale. */
  method KinkLinksRight<V, A(!new)>(root: Root<V, A>, ghost s: set<Node<V, A>>, sibling: Node<V, A>, parent: Node<V, A>,
                                   tmp2: Node<V, A>, tmp1: Node?<V, A>)
    requires sibling in s && parent in s && tmp2 in s && sibling != parent && sibling != tmp2 && parent != tmp2
      && (tmp1 == null || tmp1 in s)
    modifies s`right, s`left, s`parent, s`red
    ensures root.Snap(s) == old(root.Snap(s)).(v := Kink(old(root.Snap(s)).v, Left, sibling, tmp2, parent, Ref(tmp1)))
    ensures sibling.right == tmp1 && sibling.left == old(sibling.left)
  {
    root.PutRight(s, sibling, tmp1);
    root.PutLeft(s, tmp2, sibling);
    root.PutLeft(s, parent, tmp2);
    if tmp1 != null { root.SetParentColor(s, tmp1, sibling, false); }
  }

  method KinkRight<V, A(!new)>(root: Root<V, A>, ghost s: set<Node<V, A>>, sibling: Node<V, A>, parent: Node<V, A>,
                               tmp2: Node<V, A>)
    requires sibling in s && parent in s && tmp2 in s && sibling != parent && sibling != tmp2 && parent != tmp2
    requires (tmp2.left == null || tmp2.left in s) && (sibling.left == null || sibling.left in s)
    modifies root`turns, s
    ensures root.turns == old(root.turns) + 1
    ensures root.Snap(s) == KinkShot(FoldOf(root.cb), old(root.Snap(s)), Left, sibling, tmp2, parent,
                                     old(Ref(tmp2.left)))
  {
    KinkLinksRight(root, s, sibling, parent, tmp2, tmp2.left);
    root.AugmentRotate(s, sibling, tmp2);
  }

  /** Case 1: right rotate at parent (src/rbtree.c:312-318). */
  method EraseCase1Right<V, A(!new)>(root: Root<V, A>, sibling: Node<V, A>, parent: Node<V, A>,
                                    ghost x: Fixed<Node<V, A>, A>, ghost c: Ctx<Node<V, A>>,
                                    ghost t: Tree<Node<V, A>>, ghost h: nat)
    returns (tmp1: Node<V, A>, ghost c': Ctx<Node<V, A>>)
    requires x.f == FoldOf(root.cb) && Holds(x, root.Snap(x.nodes), Plug(c, t)) && ShortHole(c, t, h)
    requires c.side == Right && c.other.T? && c.other.red && sibling == c.other.n && parent == c.n
    modifies root`rb_node, root`turns, x.nodes
    ensures Holds(x, root.Snap(x.nodes), Plug(c', t)) && ShortHole(c', t, h)
    ensures c'.side == Right && c'.n == parent && c'.red && c'.other.T? && !c'.other.red && tmp1 == c'.other.n
      && root.turns == old(root.turns) + 1
  {
    EraseSibling(c, t, h);
    ghost var o := c.other;
    ghost var w := Spin(c.up, Left, o.left, o.n, o.right, c.n, t);
    assert Plug(c, t) == Plug(w.up, w.Old(true, false));
    TurnState(x, root.Snap(x.nodes), w, true, false, true);
    EraseCase1(w, h);
    c' := In(Right, c.n, true, o.right, In(Right, o.n, false, o.left, c.up));
    tmp1 := sibling.right;
    RotateRight(root, x.nodes, sibling, parent, tmp1);
  }

  /** Case 4 (src/rbtree.c:349-356). */
  method EraseOuterRight<V, A(!new)>(root: Root<V, A>, sibling: Node<V, A>, parent: Node<V, A>, tmp1: Node<V, A>,
                                    ghost x: Fixed<Node<V, A>, A>, ghost c: Ctx<Node<V, A>>,
                                    ghost t: Tree<Node<V, A>>, ghost h: nat)
    returns (ghost t': Tree<Node<V, A>>)
    requires x.f == FoldOf(root.cb) && Holds(x, root.Snap(x.nodes), Plug(c, t)) && ShortHole(c, t, h)
    requires c.side == Right && c.other.T? && !c.other.red && sibling == c.other.n && parent == c.n
    requires IsRed(c.other.left) && tmp1 == c.other.left.n
    modifies root`rb_node, root`turns, x.nodes
    ensures Holds(x, root.Snap(x.nodes), t') && RedBlack(t') && root.turns == old(root.turns) + 1
  {
    ghost var o := c.other;
    ghost var w := Spin(c.up, Left, o.left, o.n, o.right, c.n, t);
    assert Plug(c, t) == Plug(w.up, w.Old(false, c.red));
    KeepState(x, root.Snap(x.nodes), w, false, c.red);
    EraseCase4(w, c.red, h);
    t' := Plug(w.up, w.New(false, c.red, false));
    KeepRight(root, x.nodes, sibling, parent, tmp1, sibling.right);
  }

  /** Case 3 followed by Case 4 (src/rbtree.c:338-356). */
  method EraseInnerRight<V, A(!new)>(root: Root<V, A>, sibling: Node<V, A>, parent: Node<V, A>, tmp2: Node<V, A>,
                                    ghost x: Fixed<Node<V, A>, A>, ghost c: Ctx<Node<V, A>>,
                                    ghost t: Tree<Node<V, A>>, ghost h: nat)
    returns (ghost t': Tree<Node<V, A>>)
    requires x.f == FoldOf(root.cb) && Holds(x, root.Snap(x.nodes), Plug(c, t)) && ShortHole(c, t, h)
    requires c.side == Right && c.other.T? && !c.other.red && sibling == c.other.n && parent == c.n
    requires !IsRed(c.other.left) && IsRed(c.other.right) && tmp2 == c.other.right.n
    modifies root`rb_node, root`turns, x.nodes
    ensures Holds(x, root.Snap(x.nodes), t') && RedBlack(t') && root.turns == old(root.turns) + 2
  {
    ghost var o := c.other;
    ghost var w := Twist(c.up, Left, o.left, o.n, o.right.left, o.right.n, o.right.right, c.n, t);
    assert Plug(c, t) == Plug(w.up, w.Old(false, true, c.red));
    EraseCase34(w, c.red, h);
    KinkState(x, root.Snap(x.nodes), w, c.red);
    t' := Plug(w.up, w.New(false, c.red, false));
    KinkRight(root, x.nodes, sibling, parent, tmp2);
    KeepRight(root, x.nodes, tmp2, parent, sibling, tmp2.right);
  }

  /** One iteration when the node is a right child; `done` unless the loop goes on at the parent. */
  method EraseStepRight<V, A(!new)>(root: Root<V, A>, sibling0: Node<V, A>, parent: Node<V, A>,
                                   ghost x: Fixed<Node<V, A>, A>, ghost c0: Ctx<Node<V, A>>,
                                   ghost t: Tree<Node<V, A>>, ghost h: nat)
    returns (done: bool, ghost c: Ctx<Node<V, A>>, ghost t': Tree<Node<V, A>>)
    requires x.f == FoldOf(root.cb) && Holds(x, root.Snap(x.nodes), Plug(c0, t)) && ShortHole(c0, t, h)
    requires c0.side == Right && c0.other.T? && sibling0 == c0.other.n && parent == c0.n && sibling0 in x.nodes
      && sibling0.red == c0.other.red
    modifies root`rb_node, root`turns, x.nodes
    ensures Holds(x, root.Snap(x.nodes), Plug(c, t'))
    ensures done ==> RedBlack(Plug(c, t')) && root.turns <= old(root.turns) + 3
    ensures !done ==> root.turns == old(root.turns) && c == c0.up && ShortHole(c, t', h + 1) && parent == t'.n
  {
    c := c0;
    var sibling := sibling0;
    if sibling.red {
      sibling, c := EraseCase1Right(root, sibling, parent, x, c, t, h);
    }
    done, c, t' := EraseBlackRight(root, sibling, parent, x, c, t, h);
  }

  /** Cases 2, 3 and 4: the sibling is black (src/rbtree.c:320-357). */
  method EraseBlackRight<V, A(!new)>(root: Root<V, A>, sibling: Node<V, A>, parent: Node<V, A>,
                                    ghost x: Fixed<Node<V, A>, A>, ghost c0: Ctx<Node<V, A>>,
                                    ghost t: Tree<Node<V, A>>, ghost h: nat)
    returns (done: bool, ghost c: Ctx<Node<V, A>>, ghost t': Tree<Node<V, A>>)
    requires x.f == FoldOf(root.cb) && Holds(x, root.Snap(x.nodes), Plug(c0, t)) && ShortHole(c0, t, h)
    requires c0.side == Right && c0.other.T? && !c0.other.red && sibling == c0.other.n && parent == c0.n
    modifies root`rb_node, root`turns, x.nodes
    ensures Holds(x, root.Snap(x.nodes), Plug(c, t'))
    ensures done ==> RedBlack(Plug(c, t')) && root.turns <= old(root.turns) + 2
    ensures !done ==>
      !c0.red && root.turns == old(root.turns) && c == c0.up && ShortHole(c, t', h + 1) && parent == t'.n
  {
    c := c0;
    SiblingKids(x, root.Snap(x.nodes), c, t);
    var tmp1 := sibling.left;
    if tmp1 == null || !tmp1.red {
      var tmp2 := sibling.right;
      if tmp2 == null || !tmp2.red {
        EraseCase2(c, t, h);
        done := FlipSibling(root, sibling, parent, x, c, t);
        t' := Mk(c.side, t, c.n, false, Repaint(c.other, true));
        c := c.up;
      } else {
        t' := EraseInnerRight(root, sibling, parent, tmp2, x, c, t, h);
        c, done := Top, true;
      }
    } else {
      t' := EraseOuterRight(root, sibling, parent, tmp1, x, c, t, h);
      c, done := Top, true;
    }
  }

  // ---------------------------------------------------------------- the loop

  /** One iteration (src/rbtree.c:206-358). */
  method EraseStep<V, A(!new)>(root: Root<V, A>, node: Node?<V, A>, parent: Node<V, A>,
                               ghost x: Fixed<Node<V, A>, A>, ghost c0: Ctx<Node<V, A>>,
                               ghost t: Tree<Node<V, A>>, ghost h: nat)
    returns (done: bool, ghost c: Ctx<Node<V, A>>, ghost t': Tree<Node<V, A>>)
    requires x.f == FoldOf(root.cb) && Holds(x, root.Snap(x.nodes), Plug(c0, t)) && ShortHole(c0, t, h)
    requires Ref(node) == Ptr(t) && parent == c0.n
    modifies root`rb_node, root`turns, x.nodes
    ensures Holds(x, root.Snap(x.nodes), Plug(c, t'))
    ensures done ==> RedBlack(Plug(c, t')) && root.turns <= old(root.turns) + 3
    ensures !done ==> root.turns == old(root.turns) && c == c0.up && ShortHole(c, t', h + 1) && parent == t'.n
    ensures !done ==> Depth(c) + 1 == Depth(c0)
  {
    EraseSibling(c0, t, h);
    Look(x, root.Snap(x.nodes), c0, t);
    Uncle(x, root.Snap(x.nodes), c0, t);
    var sibling := parent.right;
    if node != sibling {
      done, c, t' := EraseStepLeft(root, sibling, parent, x, c0, t, h);
    } else {
      sibling := parent.left;
      done, c, t' := EraseStepRight(root, sibling, parent, x, c0, t, h);
    }
  }

  /** `____rb_erase_color` (src/rbtree.c:200-360): `c0` is the context that lost a black node. */
  method EraseFix<V, A(!new)>(root: Root<V, A>, rebalance: Node<V, A>, ghost x: Fixed<Node<V, A>, A>,
                              ghost c0: Ctx<Node<V, A>>)
    returns (ghost t': Tree<Node<V, A>>)
    requires x.f == FoldOf(root.cb) && Holds(x, root.Snap(x.nodes), Plug(c0, Nil)) && ShortHole(c0, Nil, 0)
      && rebalance == c0.n
    modifies root`rb_node, root`turns, x.nodes
    ensures Holds(x, root.Snap(x.nodes), t') && RedBlack(t') && root.turns <= old(root.turns) + 3
  {
    var node: Node?<V, A>, parent := null, rebalance;
    ghost var c, t, h := c0, Nil, 0;
    while true
      invariant Holds(x, root.Snap(x.nodes), Plug(c, t)) && ShortHole(c, t, h)
      invariant Ref(node) == Ptr(t) && parent == c.n && root.turns == old(root.turns)
      decreases Depth(c)
    {
      var done;
      done, c, t := EraseStep(root, node, parent, x, c, t, h);
      if done {
        t' := Plug(c, t);
        return;
      }
      h := h + 1;
      Look(x, root.Snap(x.nodes), c, t);
      node := parent;
      parent := node.parent;
    }
  }
}

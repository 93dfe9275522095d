/**
 rb_link_node (src/rbtree.h:80-87) and `__rb_insert` (src/rbtree.c:71-194), with the
 rotate callback of the augmented variant (src/rbtree.c:404-408).  The two mirrored
 halves of the loop are written out, as in the source.
 */
module RbInsert {
  import opened RbTrees
  import opened RbLinks
  import opened RbCases
  import opened RbSteps
  import opened RbState
  import opened RbHeap

  /** Case 1: colour flips (src/rbtree.c:109-113, 162-166). */
  method FlipColors<V, A(!new)>(root: Root<V, A>, ghost s: set<Node<V, A>>, uncle: Node<V, A>, parent: Node<V, A>,
                                gparent: Node<V, A>)
    requires uncle in s && parent in s && gparent in s && gparent != uncle && gparent != parent
    modifies s`parent, s`red
    ensures root.Snap(s) == old(root.Snap(s)).(v := FlipPut(old(root.Snap(s)).v, uncle, parent, gparent))
  {
    root.SetParentColor(s, uncle, gparent, false);
    root.SetParentColor(s, parent, gparent, false);
    root.SetParentColor(s, gparent, gparent.parent, true);
  }

  // ------------------------------------------------ the parent is a left child (src/rbtree.c:94-157)

  /** Case 3: right rotate at gparent (src/rbtree.c:151-156). */
  method TurnRight<V, A(!new)>(root: Root<V, A>, ghost s: set<Node<V, A>>, parent: Node<V, A>, gparent: Node<V, A>,
                               tmp: Node?<V, A>)
    requires parent in s && gparent in s && parent != gparent && (tmp == null || (tmp in s && tmp != gparent))
    requires gparent.parent == null || (gparent.parent in s && gparent.parent != gparent)
    modifies root`rb_node, s`left, s`right, s`parent, s`red
    ensures root.Snap(s) == old(root.Snap(s)).(v := Turn(old(root.Snap(s)).v, Left, parent, gparent, Ref(tmp), true),
                                               r := NewRoot(old(root.Snap(s)), gparent, parent))
    ensures gparent.left == tmp && gparent.right == old(gparent.right)
  {
    root.PutLeft(s, gparent, tmp);
    root.PutRight(s, parent, gparent);
    if tmp != null { root.SetParentColor(s, tmp, gparent, false); }
    root.RotateSetParents(s, gparent, parent, true);
  }

  method RotateRight<V, A(!new)>(root: Root<V, A>, ghost s: set<Node<V, A>>, parent: Node<V, A>, gparent: Node<V, A>,
                                 tmp: Node?<V, A>)
    requires parent in s && gparent in s && parent != gparent && (tmp == null || (tmp in s && tmp != gparent))
    requires gparent.parent == null || (gparent.parent in s && gparent.parent != gparent)
    requires gparent.right == null || gparent.right in s
    modifies root`rb_node, root`turns, s
    ensures root.turns == old(root.turns) + 1
    ensures root.Snap(s) == TurnShot(FoldOf(root.cb), old(root.Snap(s)), Left, parent, gparent, Ref(tmp), true)
  {
    TurnRight(root, s, parent, gparent, tmp);
    root.AugmentRotate(s, gparent, parent);
  }

  /** Case 2: left rotate at parent (src/rbtree.c:131-137). */
  method BendLinksLeft<V, A(!new)>(root: Root<V, A>, ghost s: set<Node<V, A>>, node: Node<V, A>, parent: Node<V, A>,
                                   tmp: Node?<V, A>)
    requires node in s && parent in s && node != parent && (tmp == null || (tmp in s && tmp != parent))
    modifies s`left, s`right, s`parent, s`red
    ensures root.Snap(s) == old(root.Snap(s)).(v := Bend(old(root.Snap(s)).v, Left, parent, node, Ref(tmp)))
    ensures parent.left == old(parent.left) && parent.right == tmp
  {
    root.PutRight(s, parent, tmp);
    root.PutLeft(s, node, parent);
    if tmp != null { root.SetParentColor(s, tmp, parent, false); }
    root.SetParentColor(s, parent, node, true);
  }

  method BendLeft<V, A(!new)>(root: Root<V, A>, ghost s: set<Node<V, A>>, node: Node<V, A>, parent: Node<V, A>)
    requires node in s && parent in s && node != parent
      && (node.left == null || (node.left in s && node.left != parent))
    requires parent.left == null || parent.left in s
    modifies root`turns, s
    ensures root.turns == old(root.turns) + 1
    ensures root.Snap(s) == BendShot(FoldOf(root.cb), old(root.Snap(s)), Left, parent, node, old(Ref(node.left)))
  {
    BendLinksLeft(root, s, node, parent, node.left);
    root.AugmentRotate(s, parent, node);
  }

  /** Case 3 alone: node is the outer child (src/rbtree.c:142-157). */
  method InsertOuterLeft<V, A(!new)>(root: Root<V, A>, parent: Node<V, A>, gparent: Node<V, A>,
                                     ghost x: Fixed<Node<V, A>, A>, ghost c: Ctx<Node<V, A>>,
                                     ghost t: Tree<Node<V, A>>, ghost h: nat)
    returns (ghost t': Tree<Node<V, A>>)
    requires x.f == FoldOf(root.cb) && Holds(x, root.Snap(x.nodes), Plug(c, t)) && RedHole(c, t, h)
    requires c.In? && c.red && c.side == Left && c.up.In? && c.up.side == Left && !c.up.red && !IsRed(c.up.other)
    requires parent == c.n && gparent == c.up.n
    modifies root`rb_node, root`turns, x.nodes
    ensures Holds(x, root.Snap(x.nodes), t') && RedBlack(t') && root.turns == old(root.turns) + 1
  {
    ghost var w := Spin(c.up.up, Left, t, c.n, c.other, c.up.n, c.up.other);
    assert Plug(c, t) == Plug(w.up, w.Old(true, false));
    InsertRedParent(c, t, h);
    TurnState(x, root.Snap(x.nodes), w, true, false, true);
    InsertSpin(w, h);
    t' := Plug(w.up, w.New(true, false, true));
    RotateRight(root, x.nodes, parent, gparent, parent.right);
  }

  /** Case 2 followed by Case 3: node is the inner child (src/rbtree.c:117-157). */
  method InsertInnerLeft<V, A(!new)>(root: Root<V, A>, node: Node<V, A>, parent: Node<V, A>, gparent: Node<V, A>,
                                     ghost x: Fixed<Node<V, A>, A>, ghost c: Ctx<Node<V, A>>,
                                     ghost t: Tree<Node<V, A>>, ghost h: nat)
    returns (ghost t': Tree<Node<V, A>>)
    requires x.f == FoldOf(root.cb) && Holds(x, root.Snap(x.nodes), Plug(c, t)) && RedHole(c, t, h)
    requires c.In? && c.red && c.side == Right && c.up.In? && c.up.side == Left && !c.up.red && !IsRed(c.up.other)
    requires node == t.n && parent == c.n && gparent == c.up.n
    modifies root`rb_node, root`turns, x.nodes
    ensures Holds(x, root.Snap(x.nodes), t') && RedBlack(t') && root.turns == old(root.turns) + 2
  {
    ghost var w := Twist(c.up.up, Left, c.other, c.n, t.left, t.n, t.right, c.up.n, c.up.other);
    assert Plug(c, t) == Plug(w.up, w.Old(true, true, false));
    InsertRedParent(c, t, h);
    BendState(x, root.Snap(x.nodes), w, true, true, false);
    InsertTwist(w, h);
    t' := Plug(w.up, w.New(true, false, true));
    BendLeft(root, x.nodes, node, parent);
    RotateRight(root, x.nodes, node, gparent, node.right);
  }

  // ------------------------------------------------ the parent is a right child (src/rbtree.c:158-192)

  /** Case 3: left rotate at gparent (src/rbtree.c:185-190). */
  method TurnLeft<V, A(!new)>(root: Root<V, A>, ghost s: set<Node<V, A>>, parent: Node<V, A>, gparent: Node<V, A>,
                              tmp: Node?<V, A>)
    requires parent in s && gparent in s && parent != gparent && (tmp == null || (tmp in s && tmp != gparent))
    requires gparent.parent == null || (gparent.parent in s && gparent.parent != gparent)
    modifies root`rb_node, s`right, s`left, s`parent, s`red
    ensures root.Snap(s) == old(root.Snap(s)).(v := Turn(old(root.Snap(s)).v, Right, parent, gparent, Ref(tmp), true),
                                               r := NewRoot(old(root.Snap(s)), gparent, parent))
    ensures gparent.right == tmp && gparent.left == old(gparent.left)
  {
    root.PutRight(s, gparent, tmp);
    root.PutLeft(s, parent, gparent);
    if tmp != null { root.SetParentColor(s, tmp, gparent, false); }
    root.RotateSetParents(s, gparent, parent, true);
  }

  method RotateLeft<V, A(!new)>(root: Root<V, A>, ghost s: set<Node<V, A>>, parent: Node<V, A>, gparent: Node<V, A>,
                                tmp: Node?<V, A>)
    requires parent in s && gparent in s && parent != gparent && (tmp == null || (tmp in s && tmp != gparent))
    requires gparent.parent == null || (gparent.parent in s && gparent.parent != gparent)
    requires gparent.left == null || gparent.left in s
    modifies root`rb_node, root`turns, s
    ensures root.turns == old(root.turns) + 1
    ensures root.Snap(s) == TurnShot(FoldOf(root.cb), old(root.Snap(s)), Right, parent, gparent, Ref(tmp), true)
  {
    TurnLeft(root, s, parent, gparent, tmp);
    root.AugmentRotate(s, gparent, parent);
  }

  /** Case 2: right rotate at parent (src/rbtree.c:173-179). */
  method BendLinksRight<V, A(!new)>(root: Root<V, A>, ghost s: set<Node<V, A>>, node: Node<V, A>, parent: Node<V, A>,
                                    tmp: Node?<V, A>)
    requires node in s && parent in s && node != parent && (tmp == null || (tmp in s && tmp != parent))
    modifies s`right, s`left, s`parent, s`red
    ensures root.Snap(s) == old(root.Snap(s)).(v := Bend(old(root.Snap(s)).v, Right, parent, node, Ref(tmp)))
    ensures parent.right == old(parent.right) && parent.left == tmp
  {
    root.PutLeft(s, parent, tmp);
    root.PutRight(s, node, parent);
    if tmp != null { root.SetParentColor(s, tmp, parent, false); }
    root.SetParentColor(s, parent, node, true);
  }

  method BendRight<V, A(!new)>(root: Root<V, A>, ghost s: set<Node<V, A>>, node: Node<V, A>, parent: Node<V, A>)
    requires node in s && parent in s && node != parent
      && (node.right == null || (node.right in s && node.right != parent))
    requires parent.right == null || parent.right in s
    modifies root`turns, s
    ensures root.turns == old(root.turns) + 1
    ensures root.Snap(s) == BendShot(FoldOf(root.cb), old(root.Snap(s)), Right, parent, node, old(Ref(node.right)))
  {
    BendLinksRight(root, s, node, parent, node.right);
    root.AugmentRotate(s, parent, node);
  }

  /** Case 3 alone: node is the outer child (src/rbtree.c:184-191). */
  method InsertOuterRight<V, A(!new)>(root: Root<V, A>, parent: Node<V, A>, gparent: Node<V, A>,
                                     ghost x: Fixed<Node<V, A>, A>, ghost c: Ctx<Node<V, A>>,
                                     ghost t: Tree<Node<V, A>>, ghost h: nat)
    returns (ghost t': Tree<Node<V, A>>)
    requires x.f == FoldOf(root.cb) && Holds(x, root.Snap(x.nodes), Plug(c, t)) && RedHole(c, t, h)
    requires c.In? && c.red && c.side == Right && c.up.In? && c.up.side == Right && !c.up.red && !IsRed(c.up.other)
    requires parent == c.n && gparent == c.up.n
    modifies root`rb_node, root`turns, x.nodes
    ensures Holds(x, root.Snap(x.nodes), t') && RedBlack(t') && root.turns == old(root.turns) + 1
  {
    ghost var w := Spin(c.up.up, Right, t, c.n, c.other, c.up.n, c.up.other);
    assert Plug(c, t) == Plug(w.up, w.Old(true, false));
    InsertRedParent(c, t, h);
    TurnState(x, root.Snap(x.nodes), w, true, false, true);
    InsertSpin(w, h);
    t' := Plug(w.up, w.New(true, false, true));
    RotateLeft(root, x.nodes, parent, gparent, parent.left);
  }

  /** Case 2 followed by Case 3: node is the inner child (src/rbtree.c:170-191). */
  method InsertInnerRight<V, A(!new)>(root: Root<V, A>, node: Node<V, A>, parent: Node<V, A>, gparent: Node<V, A>,
                                     ghost x: Fixed<Node<V, A>, A>, ghost c: Ctx<Node<V, A>>,
                                     ghost t: Tree<Node<V, A>>, ghost h: nat)
    returns (ghost t': Tree<Node<V, A>>)
    requires x.f == FoldOf(root.cb) && Holds(x, root.Snap(x.nodes), Plug(c, t)) && RedHole(c, t, h)
    requires c.In? && c.red && c.side == Left && c.up.In? && c.up.side == Right && !c.up.red && !IsRed(c.up.other)
    requires node == t.n && parent == c.n && gparent == c.up.n
    modifies root`rb_node, root`turns, x.nodes
    ensures Holds(x, root.Snap(x.nodes), t') && RedBlack(t') && root.turns == old(root.turns) + 2
  {
    ghost var w := Twist(c.up.up, Right, c.other, c.n, t.right, t.n, t.left, c.up.n, c.up.other);
    assert Plug(c, t) == Plug(w.up, w.Old(true, true, false));
    InsertRedParent(c, t, h);
    BendState(x, root.Snap(x.nodes), w, true, true, false);
    InsertTwist(w, h);
    t' := Plug(w.up, w.New(true, false, true));
    BendRight(root, x.nodes, node, parent);
    RotateLeft(root, x.nodes, node, gparent, node.left);
  }

  // ---------------------------------------------------------------- the loop

  /** Cases 2 and 3, on either side. */
  method InsertRotate<V, A(!new)>(root: Root<V, A>, node: Node<V, A>, parent: Node<V, A>, gparent: Node<V, A>,
                                  leftParent: bool,
                                  ghost x: Fixed<Node<V, A>, A>, ghost c: Ctx<Node<V, A>>,
                                  ghost t: Tree<Node<V, A>>, ghost h: nat)
    returns (ghost t': Tree<Node<V, A>>)
    requires x.f == FoldOf(root.cb) && Holds(x, root.Snap(x.nodes), Plug(c, t)) && RedHole(c, t, h)
    requires c.In? && c.red && c.up.In? && leftParent == c.up.side.Left? && !c.up.red && !IsRed(c.up.other)
    requires node == t.n && parent == c.n && gparent == c.up.n
    modifies root`rb_node, root`turns, x.nodes
    ensures Holds(x, root.Snap(x.nodes), t') && RedBlack(t') && root.turns <= old(root.turns) + 2
  {
    Look(x, root.Snap(x.nodes), c, t);
    if leftParent {
      if node == parent.right {
        t' := InsertInnerLeft(root, node, parent, gparent, x, c, t, h);
      } else {
        t' := InsertOuterLeft(root, parent, gparent, x, c, t, h);
      }
    } else {
      if node == parent.left {
        t' := InsertInnerRight(root, node, parent, gparent, x, c, t, h);
      } else {
        t' := InsertOuterRight(root, parent, gparent, x, c, t, h);
      }
    }
  }

  /** One iteration of the loop below a red parent (src/rbtree.c:91-192): it ends, or goes on two levels up. */
  method InsertStep<V, A(!new)>(root: Root<V, A>, node: Node<V, A>, parent: Node<V, A>,
                                ghost x: Fixed<Node<V, A>, A>, ghost c: Ctx<Node<V, A>>,
                                ghost t: Tree<Node<V, A>>, ghost h: nat)
    returns (done: bool, ghost c': Ctx<Node<V, A>>, ghost t': Tree<Node<V, A>>, gparent: Node<V, A>, next: Node?<V, A>)
    requires x.f == FoldOf(root.cb) && Holds(x, root.Snap(x.nodes), Plug(c, t)) && RedHole(c, t, h)
    requires node == t.n && Some(parent) == Parent(c) && parent.red
    modifies root`rb_node, root`turns, x.nodes
    ensures Holds(x, root.Snap(x.nodes), Plug(c', t'))
    ensures done ==> RedBlack(Plug(c', t')) && root.turns <= old(root.turns) + 2
    ensures !done ==>
      root.turns == old(root.turns) && c.up.In? && c' == c.up.up && RedHole(c', t', h + 1) && Depth(c') + 2 == Depth(c)
    ensures !done ==> gparent == t'.n && Ref(next) == Parent(c')
  {
    Look(x, root.Snap(x.nodes), c, t);
    InsertRedParent(c, t, h);
    ghost var h0, p := root.Snap(x.nodes), Mk(c.side, t, c.n, c.red, c.other);
    assert Plug(c, t) == Plug(c.up, p) && Ptr(p) == Some(c.n);
    Look(x, h0, c.up, p);
    Uncle(x, h0, c.up, p);
    gparent := parent.parent;
    var leftParent := parent != gparent.right;
    var tmp := if leftParent then gparent.right else gparent.left;
    assert Ref(tmp) == Ptr(c.up.other) && leftParent == c.up.side.Left?;
    if tmp != null && tmp.red {
      FlipState(x, h0, c, t);
      InsertFlip(c, t, h);
      FlipColors(root, x.nodes, tmp, parent, gparent);
      c', t', done := c.up.up, Flipped(c, t), false;
      Look(x, root.Snap(x.nodes), c', t');
      next := gparent.parent;
    } else {
      t' := InsertRotate(root, node, parent, gparent, leftParent, x, c, t, h);
      c', done, next := Top, true, null;
    }
  }

  /** `__rb_insert` (src/rbtree.c:71-194): `c0` is the context of the red leaf `start`. */
  method InsertFix<V, A(!new)>(root: Root<V, A>, start: Node<V, A>, ghost x: Fixed<Node<V, A>, A>,
                               ghost c0: Ctx<Node<V, A>>)
    returns (ghost t': Tree<Node<V, A>>)
    requires x.f == FoldOf(root.cb) && Holds(x, root.Snap(x.nodes), Plug(c0, T(Nil, start, true, Nil)))
      && RbC(c0, false, 0)
    modifies root`rb_node, root`turns, x.nodes
    ensures Holds(x, root.Snap(x.nodes), t') && RedBlack(t') && root.turns <= old(root.turns) + 2
  {
    ghost var c, t, h := c0, T(Nil, start, true, Nil), 0;
    Look(x, root.Snap(x.nodes), c, t);
    var node, parent := start, start.parent;
    while parent != null && parent.red
      invariant Holds(x, root.Snap(x.nodes), Plug(c, t)) && RedHole(c, t, h)
      invariant node == t.n && Ref(parent) == Parent(c) && root.turns == old(root.turns)
      decreases Depth(c)
    {
      var done;
      done, c, t, node, parent := InsertStep(root, node, parent, x, c, t, h);
      if done {
        t' := Plug(c, t);
        return;
      }
      h := h + 1;
    }
    t' := InsertEnd(root, node, parent, x, c, t, h);
  }

  /** The first two branches (src/rbtree.c:85-89): the node is the root, or its parent is black. */
  method InsertEnd<V, A(!new)>(root: Root<V, A>, node: Node<V, A>, parent: Node?<V, A>,
                               ghost x: Fixed<Node<V, A>, A>, ghost c: Ctx<Node<V, A>>,
                               ghost t: Tree<Node<V, A>>, ghost h: nat)
    returns (ghost t': Tree<Node<V, A>>)
    requires Holds(x, root.Snap(x.nodes), Plug(c, t)) && RedHole(c, t, h) && node == t.n && Ref(parent) == Parent(c)
    requires parent == null || !parent.red
    modifies x.nodes
    ensures Holds(x, root.Snap(x.nodes), t') && RedBlack(t')
  {
    Look(x, root.Snap(x.nodes), c, t);
    if parent == null {
      PaintState(x, root.Snap(x.nodes), c, t, false);
      InsertRoot(t, h);
      root.SetParentColor(x.nodes, node, null, false);
      t' := Repaint(t, false);
    } else {
      InsertBlackParent(c, t, h);
      t' := Plug(c, t);
    }
  }
}

/**
 The intrusive nodes and the root of src/rbtree.h, on the heap.  `entry` stands for
 the structure a node is embedded in (rb_entry).  `__rb_parent_color` is kept as two
 fields; RB_CLEAR_NODE stores the node's own address, which reads as a red node that is
 its own parent.
 */
module RbHeap {
  import opened RbTrees
  import opened RbLinks
  import opened RbAugment
  import opened RbState

  class Node<V, A(!new,==)> {
    const entry: V
    var left: Node?<V, A>
    var right: Node?<V, A>
    var parent: Node?<V, A>
    var red: bool
    var aug: A

    /** A node that is in no tree (RB_CLEAR_NODE, src/rbtree.h:58-59). */
    constructor (entry: V, aug: A)
      ensures this.entry == entry && this.aug == aug
      ensures left == null && right == null && Empty()
    {
      this.entry := entry;
      this.aug := aug;
      left, right, parent, red := null, null, this, true;
    }

    /** RB_EMPTY_NODE (src/rbtree.h:56-57). */
    predicate Empty()
      reads this
    {
      parent == this && red
    }
  }

  /** The callbacks generated by RB_DECLARE_CALLBACKS: `rbcompute` is a fold. */
  datatype Augment<!V, !A> = Augment(unit: A, op: (A, A) -> A, of: V -> A)

  /** The dummy callbacks of the plain tree (src/rbtree.c:376-382). */
  function Plain<V>(): Augment<V, ()> {
    Augment((), (a: (), b: ()) => (), (v: V) => ())
  }

  ghost function FoldOf<V, A(!new)>(cb: Augment<V, A>): Fold<Node<V, A>, A> {
    Fold(cb.unit, cb.op, (n: Node<V, A>) => cb.of(n.entry))
  }

  ghost function Ref<V, A(!new)>(x: Node?<V, A>): Option<Node<V, A>> {
    if x == null then None else Some(x)
  }

  ghost function CellOf<V, A(!new)>(n: Node<V, A>): Cell<Node<V, A>>
    reads n`left, n`right, n`parent, n`red
  {
    Cell(Ref(n.left), Ref(n.right), Ref(n.parent), n.red)
  }

  ghost function ViewOf<V, A(!new)>(s: set<Node<V, A>>): View<Node<V, A>>
    reads s`left, s`right, s`parent, s`red
  {
    map n | n in s :: CellOf(n)
  }

  ghost function AugOf<V, A(!new)>(s: set<Node<V, A>>): map<Node<V, A>, A>
    reads s`aug
  {
    map n | n in s :: n.aug
  }

  function AugAt<V, A(!new)>(cb: Augment<V, A>, n: Node?<V, A>): A
    reads if n == null then {} else {n}
  {
    if n == null then cb.unit else n.aug
  }

  /** rbcompute: the fold of a node from its children's stored values. */
  function Compute<V, A(!new)>(cb: Augment<V, A>, n: Node<V, A>): A
    reads n, if n.left == null then {} else {n.left}, if n.right == null then {} else {n.right}
  {
    cb.op(cb.op(AugAt(cb, n.left), cb.of(n.entry)), AugAt(cb, n.right))
  }

  class Root<V, A(!new,==)> {
    const cb: Augment<V, A>
    var rb_node: Node?<V, A>
    ghost var tree: Tree<Node<V, A>>
    ghost var nodes: set<Node<V, A>>
    /** The rotations performed so far: the source calls the rotate callback once for each. */
    ghost var turns: nat

    constructor (cb: Augment<V, A>)
      ensures this.cb == cb && tree == Nil && nodes == {} && turns == 0 && Valid()
        && (Lawful(cb.unit, cb.op) ==> Augmented())
    {
      this.cb := cb;
      rb_node := null;
      tree := Nil;
      nodes := {};
      turns := 0;
      new;
      Unseal(ViewOf(nodes), tree);
      UnsealUp(FoldOf(cb), AugOf(nodes), tree);
    }

    /** The heap holds `tree`: child links, parent links, colours and the root pointer. */
    ghost predicate Shaped()
      reads this, nodes
    {
      nodes == Nodes(tree) && Wired(ViewOf(nodes), tree) && Ref(rb_node) == Ptr(tree)
    }

    ghost predicate Valid()
      reads this, nodes
    {
      Shaped() && RedBlack(tree)
    }

    /** Every stored value is the fold of its subtree. */
    ghost predicate Augmented()
      reads this, nodes
    {
      Upkept(FoldOf(cb), AugOf(nodes), tree)
    }

    ghost function Seq(): seq<Node<V, A>>
      reads this
    {
      Inorder(tree)
    }

    /** Everything the rebalancing code reads or writes. */
    ghost function Snap(s: set<Node<V, A>>): Shot<Node<V, A>, A>
      reads this`rb_node, s
    {
      Shot(ViewOf(s), AugOf(s), Ref(rb_node))
    }

    method PutRoot(ghost s: set<Node<V, A>>, k: Node?<V, A>)
      modifies this`rb_node
      ensures Snap(s) == old(Snap(s)).(r := Ref(k))
    {
      rb_node := k;
    }

    method PutLeft(ghost s: set<Node<V, A>>, n: Node<V, A>, k: Node?<V, A>)
      requires n in s
      modifies n`left
      ensures n.left == k && Snap(s) == old(Snap(s)).(v := PutKid(old(Snap(s)).v, n, Left, Ref(k)))
    {
      n.left := k;
      assert AugOf(s) == old(AugOf(s));
      assert ViewOf(s) == PutKid(old(ViewOf(s)), n, Left, Ref(k));
    }

    method PutRight(ghost s: set<Node<V, A>>, n: Node<V, A>, k: Node?<V, A>)
      requires n in s
      modifies n`right
      ensures n.right == k && Snap(s) == old(Snap(s)).(v := PutKid(old(Snap(s)).v, n, Right, Ref(k)))
    {
      n.right := k;
      assert AugOf(s) == old(AugOf(s));
      assert ViewOf(s) == PutKid(old(ViewOf(s)), n, Right, Ref(k));
    }

    /** rb_set_parent_color (src/rbtree_augmented.h:116-120). */
    method SetParentColor(ghost s: set<Node<V, A>>, n: Node<V, A>, p: Node?<V, A>, red: bool)
      requires n in s
      modifies n`parent, n`red
      ensures Snap(s) == old(Snap(s)).(v := PutPC(old(Snap(s)).v, Some(n), Ref(p), red))
    {
      n.parent, n.red := p, red;
      assert AugOf(s) == old(AugOf(s));
      assert ViewOf(s) == PutPC(old(ViewOf(s)), Some(n), Ref(p), red);
    }

    /** rb_set_parent (src/rbtree_augmented.h:111-114). */
    method SetParent(ghost s: set<Node<V, A>>, n: Node<V, A>, p: Node?<V, A>)
      requires n in s
      modifies n`parent
      ensures Snap(s) == old(Snap(s)).(v := PutParent(old(Snap(s)).v, Some(n), Ref(p)))
    {
      n.parent := p;
    }

    method PutAug(ghost s: set<Node<V, A>>, n: Node<V, A>, a: A)
      requires n in s
      modifies n`aug
      ensures n.aug == a && Snap(s) == old(Snap(s)).(m := old(Snap(s)).m[n := a])
    {
      n.aug := a;
    }

    /** __rb_change_child (src/rbtree_augmented.h:122-133). */
    method ChangeChild(ghost s: set<Node<V, A>>, was: Node<V, A>, now: Node?<V, A>, parent: Node?<V, A>)
      requires parent == null || parent in s
      modifies this`rb_node
      modifies (if parent == null then {} else {parent})`left
      modifies (if parent == null then {} else {parent})`right
      ensures Snap(s) == old(Snap(s)).(v := PutChild(old(Snap(s)).v, was, Ref(now), Ref(parent)),
                                       r := if parent == null then Ref(now) else old(Snap(s)).r)
    {
      if parent != null {
        if parent.left == was {
          PutLeft(s, parent, now);
        } else {
          PutRight(s, parent, now);
        }
      } else {
        PutRoot(s, now);
      }
    }

    /** __rb_rotate_set_parents (src/rbtree.c:61-69). */
    method RotateSetParents(ghost s: set<Node<V, A>>, was: Node<V, A>, now: Node<V, A>, red: bool)
      requires was in s && now in s && was != now && (was.parent == null || (was.parent in s && was.parent != was))
      modifies this`rb_node, s`left, s`right, s`parent, s`red
      ensures Snap(s) == old(Snap(s)).(v := PutRotate(old(Snap(s)).v, was, now, red),
                                       r := NewRoot(old(Snap(s)), was, now))
      ensures was.left == old(was.left) && was.right == old(was.right)
    {
      var parent := was.parent;
      SwapParents(s, was, now, red);
      ChangeChild(s, was, now, parent);
    }

    /** The first two assignments of it. */
    method SwapParents(ghost s: set<Node<V, A>>, was: Node<V, A>, now: Node<V, A>, red: bool)
      requires was in s && now in s
      modifies s`parent, s`red
      ensures var h := old(Snap(s));
        Snap(s) == h.(v := PutPC(PutPC(h.v, Some(now), h.v[was].parent, h.v[was].red), Some(was), Some(now), red))
    {
      SetParentColor(s, now, was.parent, was.red);
      SetParentColor(s, was, now, red);
    }

    /** The rotate callback (src/rbtree_augmented.h:86-93). */
    method AugmentRotate(ghost s: set<Node<V, A>>, was: Node<V, A>, now: Node<V, A>)
      requires was in s && now in s && was != now
      requires (was.left == null || was.left in s) && (was.right == null || was.right in s)
      modifies this`turns, was`aug, now`aug
      ensures turns == old(turns) + 1
      ensures Snap(s) == old(Snap(s)).(m := RotateAug(FoldOf(cb), old(Snap(s)).m, old(Snap(s)).v, was, now))
    {
      turns := turns + 1;
      PutAug(s, now, was.aug);
      PutAug(s, was, Compute(cb, was));
    }
  }
}

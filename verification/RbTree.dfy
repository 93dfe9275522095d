/**
 The interface of src/rbtree.h: linking, inserting and erasing nodes.  The contracts speak
 of the in-order sequence of nodes, of the red-black properties, and of the augmented values.
 */
module RbTree {
  import opened Seqs
  import opened RbTrees
  import opened RbLinks
  import opened RbAugment
  import opened RbPropagate
  import opened RbState
  import opened RbHeap
  import opened RbInsert
  import opened RbErase
  import opened RbEraseColor

  // ---------------------------------------------------------------- finding a node's context

  /** The context and the subtree of the node `n` of `t`. */
  ghost function Locate<N>(c: Ctx<N>, t: Tree<N>, n: N): (Ctx<N>, Tree<N>)
    requires n in Nodes(t)
    decreases t
  {
    if t.n == n then (c, t)
    else if n in Nodes(t.left) then Locate(In(Left, t.n, t.red, t.right, c), t.left, n)
    else Locate(In(Right, t.n, t.red, t.left, c), t.right, n)
  }

  lemma {:induction false} Located<N>(c: Ctx<N>, t: Tree<N>, n: N)
    requires n in Nodes(t)
    ensures var (k, s) := Locate(c, t, n); Plug(k, s) == Plug(c, t) && s.T? && s.n == n
    decreases t
  {
    if t.n == n {
    } else if n in Nodes(t.left) {
      Located(In(Left, t.n, t.red, t.right, c), t.left, n);
    } else {
      Located(In(Right, t.n, t.red, t.left, c), t.right, n);
    }
  }

  // ---------------------------------------------------------------- from the object to a snapshot and back

  ghost function FixedOf<V, A(!new)>(root: Root<V, A>): Fixed<Node<V, A>, A>
    reads root, root.nodes
  {
    Fixed(FoldOf(root.cb), root.nodes, Inorder(root.tree), root.Augmented())
  }

  lemma {:induction false} Enter<V, A(!new)>(root: Root<V, A>)
    requires root.Shaped()
    ensures Holds(FixedOf(root), root.Snap(root.nodes), root.tree)
  {
    Reveal(FixedOf(root), root.Snap(root.nodes), root.tree);
  }

  lemma {:induction false} Leave<V, A(!new)>(root: Root<V, A>, x: Fixed<Node<V, A>, A>)
    requires root.nodes == x.nodes && Holds(x, root.Snap(x.nodes), root.tree) && x.f == FoldOf(root.cb)
    ensures root.Shaped() && Inorder(root.tree) == x.order
    ensures x.up ==> root.Augmented()
  {
    Reveal(x, root.Snap(x.nodes), root.tree);
  }

  /** What an augmented tree stores at a node: the fold of the in-order sequence of its subtree. */
  lemma {:induction false} AugmentedIsFold<V, A(!new)>(root: Root<V, A>, n: Node<V, A>)
    requires root.Shaped() && root.Augmented() && n in root.nodes
    ensures n.aug == FoldSeq(FoldOf(root.cb), Inorder(Locate(Top, root.tree, n).1))
  {
    var f, m := FoldOf(root.cb), AugOf(root.nodes);
    Located(Top, root.tree, n);
    var (c, t) := Locate(Top, root.tree, n);
    UnsealUp(f, m, root.tree);
    PlugConsistent(f, m, c, t);
    PlugDistinct(c, t);
    ConsistentIsFold(f, m, t);
  }

  /** Forgetting the fields of an erased node. */
  lemma {:induction false} Shrink<N, A(!new)>(y: Fixed<N, A>, h: Shot<N, A>, g: Shot<N, A>, t: Tree<N>)
    requires Kept(y, h, t) && g.r == h.r && g.m.Keys == y.nodes
    requires Same(h.v, g.v, y.nodes) && Agree(h.m, g.m, y.nodes)
    requires y.up ==> Lawful(y.f.unit, y.f.op)
    ensures Holds(y, g, t)
  {
    Unseal(h.v, t);
    Unseal(g.v, t);
    Frame(h.v, g.v, t, None);
    if y.up {
      FrameConsistent(y.f, h.m, g.m, t);
      UnsealUp(y.f, g.m, t);
    }
    Reveal(y, g, t);
  }

  // ---------------------------------------------------------------- insertion

  /** The assignments of rb_link_node. */
  ghost function LinkPut<N>(v: View<N>, n: N, p: Option<N>, left: bool): View<N> {
    var u := PutKid(PutKid(PutPC(v, Some(n), p, true), n, Left, None), n, Right, None);
    if p.None? then u else PutKid(u, p.value, if left then Left else Right, Some(n))
  }

  lemma LinkCells<N>(v: View<N>, n: N, p: Option<N>, left: bool)
    requires n in v && (p.Some? ==> p.value in v && p.value != n)
    ensures var w := LinkPut(v, n, p, left);
      && Only(v, w, {n} + Opt(p)) && w[n] == Cell(None, None, p, true)
      && (p.Some? ==> w[p.value] == WithKid(v[p.value], if left then Left else Right, Some(n)))
  {
  }

  lemma {:induction false} LinkNodes<N>(v: View<N>, c: Ctx<N>, n: N)
    requires Wired(v, Plug(c, Nil))
    ensures c.In? ==> c.n in v && c.n in Nodes(Plug(c, Nil))
    ensures Nodes(Plug(c, T(Nil, n, true, Nil))) == Nodes(Plug(c, Nil)) + {n}
    ensures Ptr(Plug(c, T(Nil, n, true, Nil))) == if c.Top? then Some(n) else Ptr(Plug(c, Nil))
  {
    Unseal(v, Plug(c, Nil));
    PlugLinked(v, c, Nil);
    PlugDistinct(c, Nil);
    PlugDistinct(c, T(Nil, n, true, Nil));
    PlugPtr(c, Nil, T(Nil, n, true, Nil));
  }

  /** Here `v` has at least the nodes of the tree. */
  lemma {:induction false} LinkWired<N>(v: View<N>, c: Ctx<N>, n: N, left: bool)
    requires Wired(v, Plug(c, Nil)) && n !in Nodes(Plug(c, Nil)) && n in v && (c.In? ==> left == c.side.Left?)
    ensures Wired(LinkPut(v, n, Parent(c), left), Plug(c, T(Nil, n, true, Nil)))
  {
    var t, w := T(Nil, n, true, Nil), LinkPut(v, n, Parent(c), left);
    LinkNodes(v, c, n);
    Unseal(v, Plug(c, Nil));
    PlugLinked(v, c, Nil);
    PlugDistinct(c, Nil);
    LinkCells(v, n, Parent(c), left);
    StillAbove(v, w, {n} + Opt(Parent(c)), c);
    Rehole(v, w, c, None, Some(n));
    PlugLinked(w, c, t);
    PlugDistinct(c, t);
    Unseal(w, Plug(c, t));
  }

  method LinkFields<V, A(!new)>(root: Root<V, A>, ghost s: set<Node<V, A>>, node: Node<V, A>, parent: Node?<V, A>,
                                left: bool)
    requires node in s && (parent == null || (parent in s && parent != node))
    modifies root`rb_node, s`left, s`right, s`parent, s`red
    ensures var h := old(root.Snap(s));
      root.Snap(s) == h.(v := LinkPut(h.v, node, Ref(parent), left), r := if parent == null then Some(node) else h.r)
  {
    root.SetParentColor(s, node, parent, true);
    root.PutLeft(s, node, null);
    root.PutRight(s, node, null);
    if parent == null {
      root.PutRoot(s, node);
    } else if left {
      root.PutLeft(s, parent, node);
    } else {
      root.PutRight(s, parent, node);
    }
  }

  lemma {:induction false} Widen<V, A(!new)>(root: Root<V, A>, s: set<Node<V, A>>)
    requires root.Shaped() && root.nodes <= s
    ensures Wired(ViewOf(s), root.tree)
  {
    Unseal(ViewOf(root.nodes), root.tree);
    Unseal(ViewOf(s), root.tree);
    Frame(ViewOf(root.nodes), ViewOf(s), root.tree, None);
  }

  /** On the nodes of the tree and the new one. */
  method LinkLinks<V, A(!new)>(root: Root<V, A>, ghost s: set<Node<V, A>>, node: Node<V, A>, parent: Node?<V, A>,
                               left: bool,
                               ghost c: Ctx<Node<V, A>>)
    requires Wired(ViewOf(s), Plug(c, Nil)) && Ref(root.rb_node) == Ptr(Plug(c, Nil)) && Nodes(Plug(c, Nil)) <= s
    requires node in s && node !in Nodes(Plug(c, Nil)) && Ref(parent) == Parent(c) && (c.In? ==> left == c.side.Left?)
    modifies root`rb_node, s`left, s`right, s`parent, s`red
    ensures Wired(ViewOf(s), Plug(c, T(Nil, node, true, Nil))) && AugOf(s) == old(AugOf(s))
    ensures Ref(root.rb_node) == Ptr(Plug(c, T(Nil, node, true, Nil)))
    ensures Nodes(Plug(c, T(Nil, node, true, Nil))) == Nodes(Plug(c, Nil)) + {node}
  {
    ghost var h := root.Snap(s);
    LinkNodes(h.v, c, node);
    LinkFields(root, s, node, parent, left);
    LinkDone(h, root.Snap(s), c, node, left);
  }

  /** The new shape of the tree. */
  method LinkShape<V, A(!new)>(root: Root<V, A>, node: Node<V, A>, parent: Node?<V, A>, left: bool,
                               ghost c: Ctx<Node<V, A>>)
    requires root.Shaped() && node !in root.nodes && root.tree == Plug(c, Nil)
    requires Ref(parent) == Parent(c) && (c.In? ==> left == c.side.Left?)
    modifies root, node, root.nodes
    ensures root.Shaped() && root.tree == Plug(c, T(Nil, node, true, Nil)) && root.nodes == old(root.nodes) + {node}
    ensures root.turns == old(root.turns) && AugOf(root.nodes) == old(AugOf(root.nodes + {node}))
  {
    ghost var s := root.nodes + {node};
    Widen(root, s);
    LinkLinks(root, s, node, parent, left, c);
    ghost var g, m := ViewOf(s), AugOf(s);
    root.tree, root.nodes := Plug(c, T(Nil, node, true, Nil)), s;
    assert ViewOf(root.nodes) == g && AugOf(root.nodes) == m;
  }

  lemma {:induction false} LinkDone<N, A>(h: Shot<N, A>, g: Shot<N, A>, c: Ctx<N>, n: N, left: bool)
    requires Wired(h.v, Plug(c, Nil)) && n !in Nodes(Plug(c, Nil)) && n in h.v && (c.In? ==> left == c.side.Left?)
    requires h.r == Ptr(Plug(c, Nil))
      && g == h.(v := LinkPut(h.v, n, Parent(c), left), r := if c.Top? then Some(n) else h.r)
    ensures Wired(g.v, Plug(c, T(Nil, n, true, Nil))) && g.r == Ptr(Plug(c, T(Nil, n, true, Nil)))
  {
    LinkNodes(h.v, c, n);
    LinkWired(h.v, c, n, left);
  }

  /** rb_link_node (src/rbtree.h:80-87): `*rb_link` is the hole of `c`. */
  method LinkNode<V, A(!new)>(root: Root<V, A>, node: Node<V, A>, parent: Node?<V, A>, left: bool,
                              ghost c: Ctx<Node<V, A>>)
    requires root.Valid() && node !in root.nodes && root.tree == Plug(c, Nil)
    requires Ref(parent) == Parent(c) && (c.In? ==> left == c.side.Left?)
    modifies root, node, root.nodes
    ensures root.tree == Plug(c, T(Nil, node, true, Nil)) && root.Shaped() && RbC(c, false, 0)
    ensures root.nodes == old(root.nodes) + {node} && root.turns == old(root.turns)
    ensures AugOf(root.nodes) == old(AugOf(root.nodes + {node}))
    ensures root.Seq() == Before(c) + [node] + After(c) && old(root.Seq()) == Before(c) + After(c)
  {
    LinkOrder(c, node);
    UnplugRb(c, Nil);
    LinkShape(root, node, parent, left, c);
  }

  lemma {:induction false} LinkOrder<N>(c: Ctx<N>, n: N)
    ensures Inorder(Plug(c, T(Nil, n, true, Nil))) == Before(c) + [n] + After(c)
    ensures Inorder(Plug(c, Nil)) == Before(c) + After(c)
  {
    PlugInorder(c, T(Nil, n, true, Nil));
    PlugInorder(c, Nil);
    assert [] + [n] + [] == [n];
    assert Before(c) + [] + After(c) == Before(c) + After(c);
  }

  /** rb_insert_color and __rb_insert_augmented (src/rbtree.c:384-387, 404-408). */
  method InsertColor<V, A(!new)>(root: Root<V, A>, node: Node<V, A>, ghost c: Ctx<Node<V, A>>)
    requires root.Shaped() && root.tree == Plug(c, T(Nil, node, true, Nil)) && RbC(c, false, 0)
    modifies root, root.nodes
    ensures root.Valid() && root.nodes == old(root.nodes) && root.Seq() == old(root.Seq())
    ensures old(root.Augmented()) ==> root.Augmented()
    ensures root.turns <= old(root.turns) + 2
  {
    ghost var x := FixedOf(root);
    Enter(root);
    ghost var t';
    t' := InsertFix(root, node, x, c);
    root.tree := t';
    Leave(root, x);
  }

  /** rb_link_node followed by rb_insert_color, as every caller has it. */
  method LinkInsert<V, A(!new)>(root: Root<V, A>, node: Node<V, A>, parent: Node?<V, A>, left: bool,
                                ghost c: Ctx<Node<V, A>>)
    requires root.Valid() && node !in root.nodes && root.tree == Plug(c, Nil)
    requires Ref(parent) == Parent(c) && (c.In? ==> left == c.side.Left?)
    modifies root, node, root.nodes
    ensures root.Valid() && root.nodes == old(root.nodes) + {node} && root.turns <= old(root.turns) + 2
    ensures root.Seq() == Before(c) + [node] + After(c) && old(root.Seq()) == Before(c) + After(c)
  {
    LinkNode(root, node, parent, left, c);
    InsertColor(root, node, c);
  }

  /** With its own value in the new leaf, everything but the path above it is up to date. */
  lemma {:induction false} LeafAug<N, A(!new)>(f: Fold<N, A>, m: map<N, A>, w: map<N, A>, c: Ctx<N>, n: N)
    requires Upkept(f, m, Plug(c, Nil)) && Agree(m, w, Nodes(Plug(c, Nil))) && n in w && w[n] == f.of(n)
    ensures Lawful(f.unit, f.op) && Walk(f, w, c, T(Nil, n, true, Nil))
  {
    UnsealUp(f, m, Plug(c, Nil));
    FrameConsistent(f, m, w, Plug(c, Nil));
    AboveOf(f, w, c, Nil);
  }

  lemma {:induction false} LeafPath<N>(nodes: set<N>, v: View<N>, c: Ctx<N>, t: Tree<N>)
    requires Wired(v, Plug(c, t)) && Nodes(Plug(c, t)) <= nodes
    ensures Path(nodes, v, c, t, None)
  {
    Unseal(v, Plug(c, t));
    LinkedSpine(v, c, t, None);
    PlugDistinct(c, t);
  }

  /**
   Insertion into an augmented tree: the leaf gets its own value and is linked, the values
   above it are propagated, and the tree is rebalanced (src/rbtree_augmented.h:40-78).  The
   walk has to start at the parent: started at the leaf it would stop there.
   */
  method InsertAugmented<V, A(!new,==)>(root: Root<V, A>, node: Node<V, A>, parent: Node?<V, A>, left: bool,
                                        ghost c: Ctx<Node<V, A>>)
    requires root.Valid() && root.Augmented() && node !in root.nodes && root.tree == Plug(c, Nil)
    requires Ref(parent) == Parent(c) && (c.In? ==> left == c.side.Left?)
    modifies root, node, root.nodes
    ensures root.Valid() && root.Augmented() && root.nodes == old(root.nodes) + {node}
    ensures root.Seq() == Before(c) + [node] + After(c) && root.turns <= old(root.turns) + 2
  {
    node.aug := root.cb.of(node.entry);
    LinkPropagate(root, node, parent, left, c);
    InsertColor(root, node, c);
  }

  /** The part before the rebalancing. */
  method LinkPropagate<V, A(!new,==)>(root: Root<V, A>, node: Node<V, A>, parent: Node?<V, A>, left: bool,
                                      ghost c: Ctx<Node<V, A>>)
    requires root.Valid() && root.Augmented() && node !in root.nodes && root.tree == Plug(c, Nil)
      && node.aug == root.cb.of(node.entry)
    requires Ref(parent) == Parent(c) && (c.In? ==> left == c.side.Left?)
    modifies root, node, root.nodes
    ensures root.Shaped() && root.Augmented() && root.nodes == old(root.nodes) + {node} && root.turns == old(root.turns)
    ensures root.tree == Plug(c, T(Nil, node, true, Nil)) && RbC(c, false, 0)
    ensures root.Seq() == Before(c) + [node] + After(c)
  {
    ghost var f, m, t := FoldOf(root.cb), AugOf(root.nodes), T(Nil, node, true, Nil);
    LinkNode(root, node, parent, left, c);
    LeafAug(f, m, AugOf(root.nodes), c, node);
    LeafPath(root.nodes, ViewOf(root.nodes), c, t);
    Propagate(root, root.nodes, parent, null, true, c, t);
    UnsealUp(f, AugOf(root.nodes), root.tree);
  }

  // ---------------------------------------------------------------- erasure

  /** Unlink, then rebalance where a black node is missing. */
  method EraseNode<V, A(!new,==)>(root: Root<V, A>, node: Node<V, A>, ghost x: Fixed<Node<V, A>, A>,
                                  ghost c: Ctx<Node<V, A>>, ghost t: Tree<Node<V, A>>)
    returns (ghost y: Fixed<Node<V, A>, A>, ghost t': Tree<Node<V, A>>)
    requires x.f == FoldOf(root.cb) && Holds(x, root.Snap(x.nodes), Plug(c, t)) && RedBlack(Plug(c, t)) && t.T?
      && t.n == node
    requires x.up ==> Lawful(x.f.unit, x.f.op)
    modifies root`rb_node, root`turns, x.nodes
    ensures Without(x, y, node) && Holds(y, root.Snap(y.nodes), t') && RedBlack(t') && root.turns <= old(root.turns) + 3
  {
    ghost var k;
    var rebalance;
    rebalance, y, t', k := Unlink(root, node, x, c, t);
    Shrink(y, root.Snap(x.nodes), root.Snap(y.nodes), t');
    if rebalance != null {
      t' := EraseFix(root, rebalance, y, k);
    }
  }

  /** rb_erase and rb_erase_augmented (src/rbtree.c:389-395, src/rbtree_augmented.h:235-242). */
  method Erase<V, A(!new,==)>(root: Root<V, A>, node: Node<V, A>)
    requires root.Valid() && node in root.nodes
    modifies root, root.nodes
    ensures root.Valid() && root.nodes == old(root.nodes) - {node}
    ensures Removed(old(root.Seq()), node, root.Seq())
    ensures old(root.Augmented()) ==> root.Augmented()
    ensures root.turns <= old(root.turns) + 3
  {
    ghost var x := FixedOf(root);
    Enter(root);
    Located(Top, root.tree, node);
    ghost var (c, t) := Locate(Top, root.tree, node);
    if x.up { UnsealUp(x.f, AugOf(x.nodes), root.tree); }
    ghost var y, t';
    y, t' := EraseNode(root, node, x, c, t);
    ghost var g := root.Snap(y.nodes);
    root.tree, root.nodes := t', y.nodes;
    assert root.Snap(y.nodes) == g;
    Leave(root, y);
  }

  /** RB_CLEAR_NODE (src/rbtree.h:58-59) on a node outside the tree. */
  method ClearNode<V, A(!new,==)>(root: Root<V, A>, node: Node<V, A>)
    requires root.Valid() && node !in root.nodes
    modifies node
    ensures root.Valid() && node.Empty()
    ensures old(root.Augmented()) ==> root.Augmented()
  {
    ghost var g := root.Snap(root.nodes);
    node.parent, node.red := node, true;
    assert root.Snap(root.nodes) == g;
  }

  /** rb_erase_init (src/rbtree.h:100-104): also marks the node as being in no tree. */
  method EraseInit<V, A(!new,==)>(root: Root<V, A>, node: Node<V, A>)
    requires root.Valid() && node in root.nodes
    modifies root, root.nodes
    ensures root.Valid() && root.nodes == old(root.nodes) - {node}
    ensures Removed(old(root.Seq()), node, root.Seq())
    ensures old(root.Augmented()) ==> root.Augmented()
    ensures node.Empty() && root.turns <= old(root.turns) + 3
  {
    Erase(root, node);
    ClearNode(root, node);
  }
}

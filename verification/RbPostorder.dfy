/**
 Post-order stepping (src/rbtree.c:512-548).
 */
module RbPostorder {
  import opened Seqs
  import opened RbTrees
  import opened RbLinks
  import opened RbHeap
  import opened RbTree
  import opened RbIterate

  ghost function Postorder<N>(t: Tree<N>): seq<N> {
    match t
    case Nil => []
    case T(l, n, _, r) => Postorder(l) + Postorder(r) + [n]
  }

  /** What the post-order walk visits before and after the subtree in the hole. */
  ghost function PostBefore<N>(c: Ctx<N>): seq<N> {
    match c
    case Top => []
    case In(d, n, _, o, up) => PostBefore(up) + if d.Left? then [] else Postorder(o)
  }

  ghost function PostAfter<N>(c: Ctx<N>): seq<N> {
    match c
    case Top => []
    case In(d, n, _, o, up) => (if d.Left? then Postorder(o) else []) + [n] + PostAfter(up)
  }

  lemma {:induction false} PlugPostorder<N>(c: Ctx<N>, t: Tree<N>)
    ensures Postorder(Plug(c, t)) == PostBefore(c) + Postorder(t) + PostAfter(c)
    decreases c
  {
    if c.In? {
      PlugPostorder(c.up, Mk(c.side, t, c.n, c.red, c.other));
      MkPostorder(c, t);
    }
  }

  /** The seam between a subtree with its parent and what is above. */
  lemma MkPostorder<N>(c: Ctx<N>, t: Tree<N>)
    requires c.In?
    ensures PostBefore(c.up) + Postorder(Mk(c.side, t, c.n, c.red, c.other)) + PostAfter(c.up)
      == PostBefore(c) + Postorder(t) + PostAfter(c)
  {
    var b, i, o, n, a := PostBefore(c.up), Postorder(t), Postorder(c.other), [c.n], PostAfter(c.up);
    PostSeams(b, i, o, n, a);
    if c.side.Left? {
      assert PostBefore(c) == b + [] == b;
    } else {
      assert PostAfter(c) == [] + n + a == n + a;
    }
  }

  lemma PostSeams<X>(b: seq<X>, i: seq<X>, o: seq<X>, n: seq<X>, a: seq<X>)
    ensures b + (i + o + n) + a == b + i + (o + n + a)
    ensures b + (o + i + n) + a == (b + o) + i + (n + a)
  {
  }

  /** Every node once: the post-order is a rearrangement of the in-order. */
  lemma {:induction false} PostorderPermutes<N>(t: Tree<N>)
    ensures multiset(Postorder(t)) == multiset(Inorder(t)) && |Postorder(t)| == |Inorder(t)|
  {
    if t.T? {
      PostorderPermutes(t.left);
      PostorderPermutes(t.right);
    }
  }

  lemma {:induction false} PostorderNoDup<N>(t: Tree<N>)
    requires Distinct(t)
    ensures NoDup(Postorder(t)) && Elements(Postorder(t), Nodes(t))
  {
    if t.T? {
      PostorderNoDup(t.left);
      PostorderNoDup(t.right);
      AppendNoDup(Postorder(t.left), Postorder(t.right), t.n);
    }
  }

  lemma AppendNoDup<X>(l: seq<X>, r: seq<X>, x: X)
    requires NoDup(l) && NoDup(r) && x !in l && x !in r && Unshared(l, r)
    ensures NoDup(l + r + [x])
  {
    var s := l + r + [x];
    forall i, j | 0 <= i < j < |s| ensures s[i] != s[j] {
      if i < |l| <= j < |l| + |r| { assert s[i] in l && s[j] in r; }
    }
  }

  /** Children before parents: everything below a node comes before it, in one block. */
  lemma {:induction false} PostorderChildrenFirst<N>(c: Ctx<N>, t: Tree<N>)
    requires t.T?
    ensures Postorder(Plug(c, t)) == (PostBefore(c) + Postorder(t.left) + Postorder(t.right)) + [t.n] + PostAfter(c)
  {
    PlugPostorder(c, t);
    var a, b, l, r, n := PostAfter(c), PostBefore(c), Postorder(t.left), Postorder(t.right), [t.n];
    assert b + (l + r + n) + a == (b + l + r) + n + a;
  }

  /** The first node of a subtree in post-order (src/rbtree.c:512-522). */
  ghost function Deepest<N>(t: Tree<N>): N
    requires t.T?
  {
    if t.left.T? then Deepest(t.left) else if t.right.T? then Deepest(t.right) else t.n
  }

  lemma {:induction false} DeepestFirst<N>(t: Tree<N>)
    requires t.T?
    ensures Postorder(t) != [] && Postorder(t)[0] == Deepest(t)
  {
    if t.left.T? { DeepestFirst(t.left); } else if t.right.T? { DeepestFirst(t.right); }
  }

  /** rb_left_deepest_node (src/rbtree.c:512-522). */
  method LeftDeepest<V, A(!new)>(root: Root<V, A>, n0: Node<V, A>, ghost c0: Ctx<Node<V, A>>,
                                 ghost t0: Tree<Node<V, A>>) returns (n: Node<V, A>)
    requires root.Shaped() && root.tree == Plug(c0, t0) && t0.T? && n0 == t0.n
    ensures Postorder(t0) != [] && n == Postorder(t0)[0]
  {
    n := n0;
    ghost var c, t := c0, t0;
    See(root, c, t);
    while n.left != null || n.right != null
      invariant root.Shaped() && t.T? && n == t.n && root.tree == Plug(c, t)
        && CellOf(n) == Cell(Ptr(t.left), Ptr(t.right), Parent(c), t.red)
      invariant Deepest(t) == Deepest(t0)
      decreases t
    {
      if n.left != null {
        assert Plug(In(Left, t.n, t.red, t.right, c), t.left) == Plug(c, t);
        c, t := In(Left, t.n, t.red, t.right, c), t.left;
        n := n.left;
      } else {
        assert Plug(In(Right, t.n, t.red, t.left, c), t.right) == Plug(c, t);
        c, t := In(Right, t.n, t.red, t.left, c), t.right;
        n := n.right;
      }
      See(root, c, t);
    }
    DeepestFirst(t0);
  }

  /** rb_first_postorder (src/rbtree.c:542-548). */
  method FirstPostorder<V, A(!new)>(root: Root<V, A>) returns (n: Node?<V, A>)
    requires root.Shaped()
    ensures n == if Postorder(root.tree) == [] then null else Postorder(root.tree)[0]
  {
    See(root, Top, root.tree);
    if root.rb_node == null {
      return null;
    }
    n := LeftDeepest(root, root.rb_node, Top, root.tree);
  }

  /** rb_next_postorder (src/rbtree.c:524-540). */
  method NextPostorder<V, A(!new)>(root: Root<V, A>, node: Node?<V, A>) returns (r: Node?<V, A>)
    requires root.Shaped() && (node == null || node in root.nodes)
    ensures node == null ==> r == null
    ensures node != null ==> Succeeds(Postorder(root.tree), node, r)
  {
    if node == null {
      return null;
    }
    Located(Top, root.tree, node);
    ghost var (c, t) := Locate(Top, root.tree, node);
    See(root, c, t);
    PostorderChildrenFirst(c, t);
    var parent := node.parent;
    if parent != null && node == parent.left && parent.right != null {
      ghost var p := Mk(Left, t, c.n, c.red, c.other);
      assert Plug(c, t) == Plug(c.up, p) == Plug(In(Right, c.n, c.red, t, c.up), c.other);
      r := LeftDeepest(root, parent.right, In(Right, c.n, c.red, t, c.up), c.other);
    } else {
      r := parent;
    }
    NextInSeq(PostBefore(c) + Postorder(t.left) + Postorder(t.right), node, PostAfter(c), r);
  }

  /** rbtree_postorder_for_each: every node once, children before parents. */
  method EnumeratePostorder<V, A(!new)>(root: Root<V, A>) returns (visited: seq<Node<V, A>>)
    requires root.Shaped()
    ensures visited == Postorder(root.tree) && NoDup(visited) && Elements(visited, root.nodes)
  {
    ghost var all := Postorder(root.tree);
    Unseal(ViewOf(root.nodes), root.tree);
    PostorderNoDup(root.tree);
    visited := [];
    var n := FirstPostorder(root);
    WalkStart(all, root.nodes, n);
    while n != null
      invariant root.Shaped() && all == Postorder(root.tree) && Walks(all, root.nodes, visited, n)
      decreases |all| - |visited|
    {
      WalkAt(all, root.nodes, visited, n);
      var r := NextPostorder(root, n);
      WalkStep(all, root.nodes, visited, n, r);
      visited := visited + [n];
      n := r;
    }
    WalkEnd(all, root.nodes, visited);
  }
}

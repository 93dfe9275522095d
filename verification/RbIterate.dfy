/**
 In-order and post-order stepping (src/rbtree.c:413-494, 512-548).
 */
module RbIterate {
  import opened Seqs
  import opened RbTrees
  import opened RbLinks
  import opened RbCases
  import opened RbState
  import opened RbHeap
  import opened RbTree

  /** What can be read at and above a position of a shaped tree. */
  lemma {:induction false} See<V, A(!new)>(root: Root<V, A>, c: Ctx<Node<V, A>>, t: Tree<Node<V, A>>)
    requires root.Shaped() && root.tree == Plug(c, t)
    ensures Ref(root.rb_node) == Ptr(root.tree)
    ensures t.T? ==> CellOf(t.n) == Cell(Ptr(t.left), Ptr(t.right), Parent(c), t.red) && Parent(c) != Some(t.n)
    ensures c.In? ==> CellOf(c.n) == MkCell(c.side, Ptr(t), Ptr(c.other), Parent(c.up), c.red)
    ensures c.In? && t.T? ==> Ptr(c.other) != Ptr(t)
  {
    Enter(root);
    Look(FixedOf(root), root.Snap(root.nodes), c, t);
    LookPtr(FixedOf(root), root.Snap(root.nodes), c, t);
  }

  /** The in-order sequence around the root of a subtree. */
  lemma {:induction false} Around3<N>(c: Ctx<N>, t: Tree<N>)
    requires t.T?
    ensures Inorder(Plug(c, t)) == (Before(c) + Inorder(t.left)) + [t.n] + (Inorder(t.right) + After(c))
  {
    PlugInorder(c, t);
    Regroup(Before(c), Inorder(t.left), [t.n], Inorder(t.right), After(c));
  }

  /** rb_first (src/rbtree.c:413-423). */
  method First<V, A(!new)>(root: Root<V, A>) returns (n: Node?<V, A>)
    requires root.Shaped()
    ensures n == if root.Seq() == [] then null else root.Seq()[0]
  {
    See(root, Top, root.tree);
    n := root.rb_node;
    if n == null {
      return;
    }
    n := Leftmost(root, n, Top, root.tree);
  }

  /** The leftmost node of the subtree `t0`, by following left links. */
  method Leftmost<V, A(!new)>(root: Root<V, A>, n0: Node<V, A>, ghost c0: Ctx<Node<V, A>>, ghost t0: Tree<Node<V, A>>)
    returns (n: Node<V, A>)
    requires root.Shaped() && root.tree == Plug(c0, t0) && t0.T? && n0 == t0.n
    ensures Inorder(t0) != [] && n == Inorder(t0)[0]
  {
    n := n0;
    ghost var c, t := c0, t0;
    See(root, c, t);
    while n.left != null
      invariant root.Shaped() && t.T? && n == t.n && root.tree == Plug(c, t)
        && CellOf(n) == Cell(Ptr(t.left), Ptr(t.right), Parent(c), t.red)
      invariant FirstOf(t) == FirstOf(t0)
      decreases t
    {
      assert Plug(In(Left, t.n, t.red, t.right, c), t.left) == Plug(c, t);
      c, t := In(Left, t.n, t.red, t.right, c), t.left;
      n := n.left;
      See(root, c, t);
    }
    FirstOfInorder(t0);
  }

  ghost function FirstOf<N>(t: Tree<N>): N
    requires t.T?
  {
    if t.left.Nil? then t.n else FirstOf(t.left)
  }

  lemma {:induction false} FirstOfInorder<N>(t: Tree<N>)
    requires t.T?
    ensures Inorder(t) != [] && Inorder(t)[0] == FirstOf(t)
  {
    if t.left.T? { FirstOfInorder(t.left); }
  }

  ghost function LastOf<N>(t: Tree<N>): N
    requires t.T?
  {
    if t.right.Nil? then t.n else LastOf(t.right)
  }

  lemma {:induction false} LastOfInorder<N>(t: Tree<N>)
    requires t.T?
    ensures Inorder(t) != [] && Inorder(t)[|Inorder(t)| - 1] == LastOf(t)
  {
    if t.right.T? { LastOfInorder(t.right); }
  }

  /** The rightmost node of the subtree `t0`, by following right links. */
  method Rightmost<V, A(!new)>(root: Root<V, A>, n0: Node<V, A>, ghost c0: Ctx<Node<V, A>>, ghost t0: Tree<Node<V, A>>)
    returns (n: Node<V, A>)
    requires root.Shaped() && root.tree == Plug(c0, t0) && t0.T? && n0 == t0.n
    ensures Inorder(t0) != [] && n == Inorder(t0)[|Inorder(t0)| - 1]
  {
    n := n0;
    ghost var c, t := c0, t0;
    See(root, c, t);
    while n.right != null
      invariant root.Shaped() && t.T? && n == t.n && root.tree == Plug(c, t)
        && CellOf(n) == Cell(Ptr(t.left), Ptr(t.right), Parent(c), t.red)
      invariant LastOf(t) == LastOf(t0)
      decreases t
    {
      assert Plug(In(Right, t.n, t.red, t.left, c), t.right) == Plug(c, t);
      c, t := In(Right, t.n, t.red, t.left, c), t.right;
      n := n.right;
      See(root, c, t);
    }
    LastOfInorder(t0);
  }

  /** rb_last (src/rbtree.c:425-435). */
  method Last<V, A(!new)>(root: Root<V, A>) returns (n: Node?<V, A>)
    requires root.Shaped()
    ensures n == if root.Seq() == [] then null else root.Seq()[|root.Seq()| - 1]
  {
    See(root, Top, root.tree);
    n := root.rb_node;
    if n == null {
      return;
    }
    n := Rightmost(root, n, Top, root.tree);
  }

  /** `r` comes just after `n` in `s`, or `n` is last and `r` is null. */
  ghost predicate Succeeds<V, A(!new)>(s: seq<Node<V, A>>, n: Node<V, A>, r: Node?<V, A>) {
    exists i :: 0 <= i < |s| && s[i] == n && r == if i + 1 < |s| then s[i + 1] else null
  }

  /** `r` comes just before `n` in `s`, or `n` is first and `r` is null. */
  ghost predicate Precedes<V, A(!new)>(s: seq<Node<V, A>>, n: Node<V, A>, r: Node?<V, A>) {
    exists i :: 0 <= i < |s| && s[i] == n && r == if i > 0 then s[i - 1] else null
  }

  /** The walk up from a subtree: what follows it in the sequence is the first left-hand ancestor. */
  ghost function UpRight<N>(c: Ctx<N>): Option<N> {
    if c.Top? then None else if c.side.Left? then Some(c.n) else UpRight(c.up)
  }

  ghost function UpLeft<N>(c: Ctx<N>): Option<N> {
    if c.Top? then None else if c.side.Right? then Some(c.n) else UpLeft(c.up)
  }

  lemma {:induction false} UpRightAfter<N>(c: Ctx<N>)
    ensures UpRight(c) == if After(c) == [] then None else Some(After(c)[0])
  {
    if c.In? && c.side.Right? {
      UpRightAfter(c.up);
      assert After(c) == [] + After(c.up) == After(c.up);
    } else if c.In? {
      assert After(c) == [c.n] + Inorder(c.other) + After(c.up);
    }
  }

  lemma {:induction false} UpLeftBefore<N>(c: Ctx<N>)
    ensures UpLeft(c) == if Before(c) == [] then None else Some(Before(c)[|Before(c)| - 1])
  {
    if c.In? && c.side.Left? {
      UpLeftBefore(c.up);
      assert Before(c) == Before(c.up) + [] == Before(c.up);
    } else if c.In? {
      assert Before(c) == Before(c.up) + (Inorder(c.other) + [c.n]);
    }
  }

  lemma SucceedsAt<V, A(!new)>(s: seq<Node<V, A>>, i: nat, n: Node<V, A>, r: Node?<V, A>)
    requires i < |s| && s[i] == n && r == if i + 1 < |s| then s[i + 1] else null
    ensures Succeeds(s, n, r)
  {
  }

  lemma PrecedesAt<V, A(!new)>(s: seq<Node<V, A>>, i: nat, n: Node<V, A>, r: Node?<V, A>)
    requires i < |s| && s[i] == n && r == if i > 0 then s[i - 1] else null
    ensures Precedes(s, n, r)
  {
  }

  lemma NextInSeq<V, A(!new)>(pre: seq<Node<V, A>>, n: Node<V, A>, post: seq<Node<V, A>>, r: Node?<V, A>)
    requires r == if post == [] then null else post[0]
    ensures Succeeds(pre + [n] + post, n, r)
  {
    var s, i := pre + [n] + post, |pre|;
    assert post != [] ==> s[i + 1] == post[0];
    SucceedsAt(s, i, n, r);
  }

  lemma PrevInSeq<V, A(!new)>(pre: seq<Node<V, A>>, n: Node<V, A>, post: seq<Node<V, A>>, r: Node?<V, A>)
    requires r == if pre == [] then null else pre[|pre| - 1]
    ensures Precedes(pre + [n] + post, n, r)
  {
    var s, i := pre + [n] + post, |pre|;
    assert pre != [] ==> s[i - 1] == pre[i - 1];
    PrecedesAt(s, i, n, r);
  }

  /** rb_next (src/rbtree.c:437-466). */
  method Next<V, A(!new)>(root: Root<V, A>, node0: Node<V, A>) returns (r: Node?<V, A>)
    requires root.Shaped() && (node0 in root.nodes || node0.Empty())
    ensures node0.Empty() ==> r == null
    ensures node0 in root.nodes ==> !node0.Empty() && Succeeds(root.Seq(), node0, r)
  {
    if node0 in root.nodes {
      Located(Top, root.tree, node0);
      See(root, Locate(Top, root.tree, node0).0, Locate(Top, root.tree, node0).1);
    }
    if node0.parent == node0 && node0.red {
      return null;
    }
    ghost var (c, t) := Locate(Top, root.tree, node0);
    Around3(c, t);
    ghost var pre, post := Before(c) + Inorder(t.left), Inorder(t.right) + After(c);
    if node0.right != null {
      assert Plug(In(Right, t.n, t.red, t.left, c), t.right) == Plug(c, t);
      r := Leftmost(root, node0.right, In(Right, t.n, t.red, t.left, c), t.right);
      NextInSeq(pre, node0, post, r);
      return;
    }
    UpRightAfter(c);
    assert post == After(c);
    var node, parent := node0, node0.parent;
    ghost var k, u := c, t;
    while parent != null && node == parent.right
      invariant root.Shaped() && root.tree == Plug(k, u) && u.T? && node == u.n && Ref(parent) == Parent(k)
        && UpRight(k) == UpRight(c)
      invariant k.In? ==>
        CellOf(k.n) == MkCell(k.side, Ptr(u), Ptr(k.other), Parent(k.up), k.red) && Ptr(k.other) != Ptr(u)
      decreases k
    {
      assert Plug(k, u) == Plug(k.up, Mk(k.side, u, k.n, k.red, k.other));
      k, u := k.up, Mk(k.side, u, k.n, k.red, k.other);
      node := parent;
      parent := node.parent;
      See(root, k, u);
    }
    r := parent;
    NextInSeq(pre, node0, post, r);
  }

  /** rb_prev (src/rbtree.c:468-494). */
  method Prev<V, A(!new)>(root: Root<V, A>, node0: Node<V, A>) returns (r: Node?<V, A>)
    requires root.Shaped() && (node0 in root.nodes || node0.Empty())
    ensures node0.Empty() ==> r == null
    ensures node0 in root.nodes ==> !node0.Empty() && Precedes(root.Seq(), node0, r)
  {
    if node0 in root.nodes {
      Located(Top, root.tree, node0);
      See(root, Locate(Top, root.tree, node0).0, Locate(Top, root.tree, node0).1);
    }
    if node0.parent == node0 && node0.red {
      return null;
    }
    ghost var (c, t) := Locate(Top, root.tree, node0);
    Around3(c, t);
    ghost var pre, post := Before(c) + Inorder(t.left), Inorder(t.right) + After(c);
    if node0.left != null {
      assert Plug(In(Left, t.n, t.red, t.right, c), t.left) == Plug(c, t);
      r := Rightmost(root, node0.left, In(Left, t.n, t.red, t.right, c), t.left);
      PrevInSeq(pre, node0, post, r);
      return;
    }
    UpLeftBefore(c);
    assert pre == Before(c);
    var node, parent := node0, node0.parent;
    ghost var k, u := c, t;
    while parent != null && node == parent.left
      invariant root.Shaped() && root.tree == Plug(k, u) && u.T? && node == u.n && Ref(parent) == Parent(k)
        && UpLeft(k) == UpLeft(c)
      invariant k.In? ==>
        CellOf(k.n) == MkCell(k.side, Ptr(u), Ptr(k.other), Parent(k.up), k.red) && Ptr(k.other) != Ptr(u)
      decreases k
    {
      assert Plug(k, u) == Plug(k.up, Mk(k.side, u, k.n, k.red, k.other));
      k, u := k.up, Mk(k.side, u, k.n, k.red, k.other);
      node := parent;
      parent := node.parent;
      See(root, k, u);
    }
    r := parent;
    PrevInSeq(pre, node0, post, r);
  }

  /** In a sequence without repetition, stepping back undoes stepping forward. */
  lemma PrevUndoesNext<V, A(!new)>(s: seq<Node<V, A>>, n: Node<V, A>, r: Node<V, A>, p: Node?<V, A>)
    requires NoDup(s) && Succeeds(s, n, r) && Precedes(s, r, p)
    ensures p == n
  {
    var i :| 0 <= i < |s| && s[i] == n && r == if i + 1 < |s| then s[i + 1] else null;
    var j :| 0 <= j < |s| && s[j] == r && p == if j > 0 then s[j - 1] else null;
    assert s[i + 1] == s[j];
  }

  /** rb_prev undoes rb_next wherever the latter is not null. */
  method NextThenPrev<V, A(!new)>(root: Root<V, A>, node: Node<V, A>) returns (next: Node?<V, A>, back: Node?<V, A>)
    requires root.Shaped() && node in root.nodes
    ensures Succeeds(root.Seq(), node, next)
    ensures next != null ==> back == node
  {
    Unseal(ViewOf(root.nodes), root.tree);
    InorderNoDup(root.tree);
    InorderNodes(root.tree);
    next := Next(root, node);
    back := null;
    if next != null {
      assert next in root.Seq();
      back := Prev(root, next);
      PrevUndoesNext(root.Seq(), node, next, back);
    }
  }

  /** After the first `k` nodes comes the next one, or the end. */
  ghost predicate AtPlace<V, A(!new)>(s: seq<Node<V, A>>, k: nat, n: Node?<V, A>) {
    k <= |s| && n == if k < |s| then s[k] else null
  }

  lemma SucceedsPlace<V, A(!new)>(s: seq<Node<V, A>>, k: nat, n: Node<V, A>, r: Node?<V, A>)
    requires NoDup(s) && AtPlace(s, k, n) && Succeeds(s, n, r)
    ensures k < |s| && AtPlace(s, k + 1, r)
  {
    var i :| 0 <= i < |s| && s[i] == n && r == if i + 1 < |s| then s[i + 1] else null;
    assert s[i] == s[k];
  }

  /** `visited` are the first nodes of `all`, the nodes of the tree without repetition, and `n` comes next. */
  ghost predicate Walks<V, A(!new)>(all: seq<Node<V, A>>, nodes: set<Node<V, A>>, visited: seq<Node<V, A>>,
                                    n: Node?<V, A>) {
    forall k: Seal :: Walking(k, all, nodes, visited, n)
  }

  ghost predicate Walking<V, A(!new)>(k: Seal, all: seq<Node<V, A>>, nodes: set<Node<V, A>>,
                                      visited: seq<Node<V, A>>, n: Node?<V, A>) {
    && NoDup(all) && Elements(all, nodes)
    && |visited| <= |all| && visited == all[..|visited|] && AtPlace(all, |visited|, n)
  }

  lemma WalkStart<V, A(!new)>(all: seq<Node<V, A>>, nodes: set<Node<V, A>>, n: Node?<V, A>)
    requires NoDup(all) && Elements(all, nodes) && AtPlace(all, 0, n)
    ensures Walks(all, nodes, [], n)
  {
    assert Walking(Seal, all, nodes, [], n);
  }

  lemma WalkAt<V, A(!new)>(all: seq<Node<V, A>>, nodes: set<Node<V, A>>, visited: seq<Node<V, A>>, n: Node<V, A>)
    requires Walks(all, nodes, visited, n)
    ensures n in nodes && |visited| < |all|
  {
    assert Walking(Seal, all, nodes, visited, n);
    assert n in all;
  }

  lemma WalkStep<V, A(!new)>(all: seq<Node<V, A>>, nodes: set<Node<V, A>>, visited: seq<Node<V, A>>, n: Node<V, A>,
                             r: Node?<V, A>)
    requires Walks(all, nodes, visited, n) && Succeeds(all, n, r)
    ensures Walks(all, nodes, visited + [n], r)
  {
    assert Walking(Seal, all, nodes, visited, n);
    SucceedsPlace(all, |visited|, n, r);
    assert visited + [n] == all[..|visited| + 1];
    assert Walking(Seal, all, nodes, visited + [n], r);
  }

  lemma WalkEnd<V, A(!new)>(all: seq<Node<V, A>>, nodes: set<Node<V, A>>, visited: seq<Node<V, A>>)
    requires Walks(all, nodes, visited, null)
    ensures visited == all && NoDup(all) && Elements(all, nodes)
  {
    assert Walking(Seal, all, nodes, visited, null);
  }

  /** The loop every caller writes with rb_first and rb_next: it visits the in-order sequence, each node once. */
  method Enumerate<V, A(!new)>(root: Root<V, A>) returns (visited: seq<Node<V, A>>)
    requires root.Shaped()
    ensures visited == root.Seq() && NoDup(visited)
  {
    ghost var all := root.Seq();
    Unseal(ViewOf(root.nodes), root.tree);
    InorderNoDup(root.tree);
    InorderNodes(root.tree);
    visited := [];
    var nd := First(root);
    WalkStart(all, root.nodes, nd);
    while nd != null
      invariant root.Shaped() && all == root.Seq() && Walks(all, root.nodes, visited, nd)
      decreases |all| - |visited|
    {
      WalkAt(all, root.nodes, visited, nd);
      var r := Next(root, nd);
      WalkStep(all, root.nodes, visited, nd, r);
      visited := visited + [nd];
      nd := r;
    }
    WalkEnd(all, root.nodes, visited);
  }
}

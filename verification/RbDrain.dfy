/**
 Emptying a tree while walking it (src/map.c:83-95, src/machine.c:92-102): the successor is
 saved, then the current node is erased.  Erasing relinks nodes and never exchanges them,
 so the saved successor is the new first node.
 */
module RbDrain {
  import opened Seqs
  import opened RbTrees
  import opened RbLinks
  import opened RbHeap
  import opened RbIterate

  /** The current node is the first of the tree. */
  ghost predicate AtFirst<V, A(!new)>(s: seq<Node<V, A>>, n: Node?<V, A>) {
    n == if s == [] then null else s[0]
  }

  lemma {:induction false} FirstRemoved<V, A(!new)>(t: Tree<Node<V, A>>, n: Node<V, A>, next: Node?<V, A>,
                                                    after: seq<Node<V, A>>)
    requires Distinct(t) && AtFirst(Inorder(t), n) && Succeeds(Inorder(t), n, next) && Removed(Inorder(t), n, after)
    ensures Inorder(t) == [n] + after && AtFirst(after, next)
  {
    var s := Inorder(t);
    InorderNoDup(t);
    var i :| 0 <= i < |s| && s[i] == n && next == if i + 1 < |s| then s[i + 1] else null;
    assert s[i] == s[0];
    var j :| 0 <= j < |s| && s[j] == n && after == s[..j] + s[j + 1..];
    assert s[j] == s[0];
  }

  lemma {:induction false} ShapedDistinct<V, A(!new)>(root: Root<V, A>)
    requires root.Shaped()
    ensures Distinct(root.tree)
  {
    Unseal(ViewOf(root.nodes), root.tree);
  }

  /** A tree without repetition has as many nodes as its sequence is long. */
  lemma {:induction false} InorderSize<N>(t: Tree<N>)
    requires Distinct(t)
    ensures |Inorder(t)| == |Nodes(t)|
  {
    if t.T? {
      InorderSize(t.left);
      InorderSize(t.right);
      assert Nodes(t) == (Nodes(t.left) + Nodes(t.right)) + {t.n};
    }
  }

  ghost predicate Split<X>(all: seq<X>, done: seq<X>, rest: seq<X>) {
    all == done + rest
  }

  lemma Shift<X>(all: seq<X>, done: seq<X>, x: X, was: seq<X>, rest: seq<X>)
    requires Split(all, done, was) && was == [x] + rest
    ensures Split(all, done + [x], rest)
  {
  }
}

/**
 What every tree descent of the library relies on (src/dso.c:268-281, src/map.c:151-160,
 src/machine.c:211-225, src/dso.c:34-62): the nodes passed on the left and on the right
 stay on their side of the query, and a node linked where the descent ends keeps the
 order.
 */
module RbSearch {
  import opened Seqs
  import opened RbTrees
  import opened RbIterate

  ghost predicate All<N>(s: seq<N>, p: N -> bool) {
    forall i :: 0 <= i < |s| ==> p(s[i])
  }

  /** `p` holds of a prefix. */
  ghost predicate Prefix<N>(s: seq<N>, p: N -> bool) {
    forall i, j :: 0 <= i < j < |s| && p(s[j]) ==> p(s[i])
  }

  /** `p` holds of a suffix. */
  ghost predicate Suffix<N>(s: seq<N>, p: N -> bool) {
    forall i, j :: 0 <= i < j < |s| && p(s[i]) ==> p(s[j])
  }

  ghost predicate Ordered<N>(s: seq<N>, lt: (N, N) -> bool) {
    forall i, j :: 0 <= i < j < |s| ==> lt(s[i], s[j])
  }

  lemma AllConcat<N>(a: seq<N>, b: seq<N>, p: N -> bool)
    ensures All(a + b, p) <==> All(a, p) && All(b, p)
  {
    if All(a + b, p) {
      forall i | 0 <= i < |a| ensures p(a[i]) { assert (a + b)[i] == a[i]; }
      forall i | 0 <= i < |b| ensures p(b[i]) { assert (a + b)[|a| + i] == b[i]; }
    }
  }

  lemma PrefixSplit<N>(pre: seq<N>, n: N, post: seq<N>, p: N -> bool)
    requires Prefix(pre + [n] + post, p) && p(n)
    ensures All(pre, p)
  {
    var s := pre + [n] + post;
    forall i | 0 <= i < |pre| ensures p(pre[i]) { assert s[i] == pre[i] && s[|pre|] == n; }
  }

  lemma SuffixSplit<N>(pre: seq<N>, n: N, post: seq<N>, p: N -> bool)
    requires Suffix(pre + [n] + post, p) && p(n)
    ensures All(post, p)
  {
    var s := pre + [n] + post;
    forall i | 0 <= i < |post| ensures p(post[i]) { assert s[|pre| + 1 + i] == post[i] && s[|pre|] == n; }
  }

  /** The descent state: everything before the hole is on the right side of the query, everything after on the left. */
  ghost predicate Between<N>(c: Ctx<N>, goRight: N -> bool, goLeft: N -> bool) {
    All(Before(c), goRight) && All(After(c), goLeft)
  }

  lemma {:induction false} GoLeft<N>(c: Ctx<N>, t: Tree<N>, goRight: N -> bool, goLeft: N -> bool)
    requires t.T? && goLeft(t.n) && Suffix(Inorder(Plug(c, t)), goLeft) && Between(c, goRight, goLeft)
    ensures var k := In(Left, t.n, t.red, t.right, c); Plug(k, t.left) == Plug(c, t) && Between(k, goRight, goLeft)
  {
    var k := In(Left, t.n, t.red, t.right, c);
    assert Plug(k, t.left) == Plug(c, t);
    Around3(c, t);
    SuffixSplit(Before(c) + Inorder(t.left), t.n, Inorder(t.right) + After(c), goLeft);
    assert After(k) == [t.n] + Inorder(t.right) + After(c) == [t.n] + (Inorder(t.right) + After(c));
    AllConcat([t.n], Inorder(t.right) + After(c), goLeft);
    assert Before(k) == Before(c) + [] == Before(c);
  }

  lemma {:induction false} GoRight<N>(c: Ctx<N>, t: Tree<N>, goRight: N -> bool, goLeft: N -> bool)
    requires t.T? && goRight(t.n) && Prefix(Inorder(Plug(c, t)), goRight) && Between(c, goRight, goLeft)
    ensures var k := In(Right, t.n, t.red, t.left, c); Plug(k, t.right) == Plug(c, t) && Between(k, goRight, goLeft)
  {
    var k := In(Right, t.n, t.red, t.left, c);
    assert Plug(k, t.right) == Plug(c, t);
    Around3(c, t);
    PrefixSplit(Before(c) + Inorder(t.left), t.n, Inorder(t.right) + After(c), goRight);
    assert Before(k) == Before(c) + (Inorder(t.left) + [t.n]) == (Before(c) + Inorder(t.left)) + [t.n];
    AllConcat(Before(c) + Inorder(t.left), [t.n], goRight);
    assert After(k) == [] + After(c) == After(c);
  }

  /** At the end of a descent every node is on one side of the query. */
  lemma {:induction false} Bottom<N>(c: Ctx<N>, goRight: N -> bool, goLeft: N -> bool)
    requires Between(c, goRight, goLeft)
    ensures Inorder(Plug(c, Nil)) == Before(c) + After(c)
    ensures Either(Inorder(Plug(c, Nil)), goRight, goLeft)
  {
    PlugInorder(c, Nil);
    assert Before(c) + [] + After(c) == Before(c) + After(c);
    var s := Before(c) + After(c);
    forall i | 0 <= i < |s| ensures goRight(s[i]) || goLeft(s[i]) {
      if i < |Before(c)| { assert s[i] == Before(c)[i]; } else { assert s[i] == After(c)[i - |Before(c)|]; }
    }
  }

  ghost predicate Either<N>(s: seq<N>, p: N -> bool, q: N -> bool) {
    forall i :: 0 <= i < |s| ==> p(s[i]) || q(s[i])
  }

  /** Linking a node where the descent ended keeps the order. */
  lemma OrderedInsert<N>(a: seq<N>, n: N, b: seq<N>, lt: (N, N) -> bool)
    requires Ordered(a + b, lt) && All(a, x => lt(x, n)) && All(b, x => lt(n, x))
    ensures Ordered(a + [n] + b, lt)
  {
    var s, t := a + b, a + [n] + b;
    forall i, j | 0 <= i < j < |t| ensures lt(t[i], t[j]) {
      if i < |a| { assert t[i] == a[i] == s[i]; } else if i > |a| { assert t[i] == b[i - |a| - 1] == s[i - 1]; }
      if j < |a| { assert t[j] == a[j] == s[j]; } else if j > |a| { assert t[j] == b[j - |a| - 1] == s[j - 1]; }
    }
  }

  /** Removing a node keeps the order. */
  lemma OrderedRemove<N>(s: seq<N>, n: N, t: seq<N>, lt: (N, N) -> bool)
    requires Ordered(s, lt) && Removed(s, n, t)
    ensures Ordered(t, lt)
  {
    var i :| 0 <= i < |s| && s[i] == n && t == s[..i] + s[i + 1..];
    forall j, k | 0 <= j < k < |t| ensures lt(t[j], t[k]) {
      assert t[j] == s[if j < i then j else j + 1];
      assert t[k] == s[if k < i then k else k + 1];
    }
  }

  /** The root of a subtree is in the sequence. */
  lemma {:induction false} Member<N>(c: Ctx<N>, t: Tree<N>)
    requires t.T?
    ensures var s := Inorder(Plug(c, t)); exists i :: 0 <= i < |s| && s[i] == t.n
    ensures t.n in Nodes(Plug(c, t))
  {
    Around3(c, t);
    PlugDistinct(c, t);
    assert Inorder(Plug(c, t))[|Before(c) + Inorder(t.left)|] == t.n;
  }
}

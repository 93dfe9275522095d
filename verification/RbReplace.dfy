/**
 rb_replace_node (src/rbtree.c:496-510): a new node takes the place of an old one without
 any rebalancing.
 */
module RbReplace {
  import opened RbTrees
  import opened RbLinks
  import opened RbUnlinks
  import opened RbState
  import opened RbHeap
  import opened RbIterate
  import opened RbTree

  /** The assignments of rb_replace_node, without the root pointer. */
  ghost function ReplacePut<N>(v: View<N>, x: N, s: N, l: Option<N>, r: Option<N>, p: Option<N>): View<N> {
    var u := PutParent(PutParent(PutChild(v, x, Some(s), p), l, Some(s)), r, Some(s));
    if x in u then u[s := u[x]] else u
  }

  /** The neighbours of `x` are different nodes. */
  ghost predicate Neighbours<N>(v: View<N>, x: N, s: N, l: Option<N>, r: Option<N>, p: Option<N>, d: Side) {
    && x in v && s in v && x != s && (forall y :: y in Opt(l) + Opt(r) + Opt(p) ==> y in v && y != x && y != s)
    && (l.Some? ==> l != r && l != p) && (r.Some? ==> r != p)
    && (p.Some? ==> Kid(v[p.value], d) == Some(x) && Kid(v[p.value], Flip(d)) != Some(x))
  }

  lemma ReplaceCells<N>(v: View<N>, x: N, s: N, l: Option<N>, r: Option<N>, p: Option<N>, d: Side)
    requires Neighbours(v, x, s, l, r, p, d)
    ensures var w := ReplacePut(v, x, s, l, r, p);
      && Only(v, w, {x, s} + Opt(l) + Opt(r) + Opt(p)) && w[s] == v[x]
      && (l.Some? ==> w[l.value] == v[l.value].(parent := Some(s)))
         && (r.Some? ==> w[r.value] == v[r.value].(parent := Some(s)))
      && (p.Some? ==> w[p.value] == WithKid(v[p.value], d, Some(s)))
  {
    if d.Left? {} else {}
  }

  lemma {:induction false} ReplaceNear<N>(v: View<N>, c: Ctx<N>, t: Tree<N>, s: N)
    requires Wired(v, Plug(c, t)) && t.T? && s in v && s !in Nodes(Plug(c, t))
    ensures Neighbours(v, t.n, s, Ptr(t.left), Ptr(t.right), Parent(c), if c.In? then c.side else Left)
    ensures v[t.n] == Cell(Ptr(t.left), Ptr(t.right), Parent(c), t.red)
  {
    Here(v, c, t);
    Unseal(v, Plug(c, t));
    PlugLinked(v, c, t);
    PlugDistinct(c, t);
    if c.In? {
      Above(v, c, t);
      if c.side.Left? {} else {}
    }
  }

  lemma {:induction false} ReplaceDone<N, A>(h: Shot<N, A>, g: Shot<N, A>, c: Ctx<N>, t: Tree<N>, s: N)
    requires Wired(h.v, Plug(c, t)) && t.T? && s in h.v && s !in Nodes(Plug(c, t)) && h.r == Ptr(Plug(c, t))
    requires g == h.(v := ReplacePut(h.v, t.n, s, Ptr(t.left), Ptr(t.right), Parent(c)),
                     r := if c.Top? then Some(s) else h.r)
    ensures Wired(g.v, Plug(c, t.(n := s))) && g.r == Ptr(Plug(c, t.(n := s)))
    ensures Nodes(Plug(c, t.(n := s))) == Nodes(Plug(c, t)) - {t.n} + {s}
  {
    ReplaceNear(h.v, c, t, s);
    ReplaceCells(h.v, t.n, s, Ptr(t.left), Ptr(t.right), Parent(c), if c.In? then c.side else Left);
    assert t == T(t.left, t.n, t.red, t.right);
    ReplaceWired(h.v, g.v, c, t.left, t.n, t.red, t.right, s);
  }

  lemma {:induction false} ReplaceBalance<N>(c: Ctx<N>, t: Tree<N>, s: N)
    requires RedBlack(Plug(c, t)) && t.T?
    ensures RedBlack(Plug(c, t.(n := s)))
  {
    UnplugRb(c, t);
    assert Rb(t.(n := s), BlackHeight(t));
    PlugRb(c, t.(n := s), BlackHeight(t));
  }

  /** `after` is `before` with `n` for its one occurrence of `x`. */
  ghost predicate Exchanged<X>(before: seq<X>, x: X, n: X, after: seq<X>) {
    exists i :: 0 <= i < |before| && before[i] == x && after == before[i := n]
  }

  lemma {:induction false} ReplaceOrder<N>(c: Ctx<N>, t: Tree<N>, s: N)
    requires t.T?
    ensures Exchanged(Inorder(Plug(c, t)), t.n, s, Inorder(Plug(c, t.(n := s))))
  {
    Around3(c, t);
    Around3(c, t.(n := s));
    var pre, post := Before(c) + Inorder(t.left), Inorder(t.right) + After(c);
    assert (pre + [t.n] + post)[|pre| := s] == pre + [s] + post;
    assert (pre + [t.n] + post)[|pre|] == t.n;
  }

  /** `*new = *victim`. */
  method CopyNode<V, A(!new)>(root: Root<V, A>, ghost all: set<Node<V, A>>, from: Node<V, A>, to: Node<V, A>)
    requires from in all && to in all
    modifies to`left, to`right, to`parent, to`red
    ensures var h := old(root.Snap(all)); root.Snap(all) == h.(v := h.v[to := h.v[from]])
  {
    to.left, to.right, to.parent, to.red := from.left, from.right, from.parent, from.red;
    assert AugOf(all) == old(AugOf(all));
    assert ViewOf(all) == old(ViewOf(all))[to := old(ViewOf(all))[from]];
  }

  method SetParentIf<V, A(!new)>(root: Root<V, A>, ghost all: set<Node<V, A>>, n: Node?<V, A>, p: Node<V, A>)
    requires n == null || n in all
    modifies all`parent
    ensures root.Snap(all) == old(root.Snap(all)).(v := PutParent(old(root.Snap(all)).v, Ref(n), Some(p)))
  {
    if n != null {
      root.SetParent(all, n, p);
    }
  }

  method ReplaceFields<V, A(!new)>(root: Root<V, A>, ghost all: set<Node<V, A>>, victim: Node<V, A>, new_: Node<V, A>)
    requires victim in all && new_ in all
      && (victim.parent == null || (victim.parent in all && victim.parent != victim))
    requires (victim.left == null || victim.left in all) && (victim.right == null || victim.right in all)
    modifies root`rb_node, all`left, all`right, all`parent, all`red
    ensures var h := old(root.Snap(all));
      root.Snap(all) == h.(v := ReplacePut(h.v, victim, new_, h.v[victim].left, h.v[victim].right, h.v[victim].parent),
                           r := if h.v[victim].parent.None? then Some(new_) else h.r)
  {
    root.ChangeChild(all, victim, new_, victim.parent);
    SetParentIf(root, all, victim.left, new_);
    SetParentIf(root, all, victim.right, new_);
    CopyNode(root, all, victim, new_);
  }

  /** On the nodes of the tree and the new one. */
  method ReplaceLinks<V, A(!new)>(root: Root<V, A>, victim: Node<V, A>, new_: Node<V, A>, ghost all: set<Node<V, A>>,
                                  ghost c: Ctx<Node<V, A>>, ghost t: Tree<Node<V, A>>)
    requires Wired(ViewOf(all), Plug(c, t)) && Ref(root.rb_node) == Ptr(Plug(c, t)) && t.T? && t.n == victim
    requires new_ in all && new_ !in Nodes(Plug(c, t)) && Nodes(Plug(c, t)) <= all
    modifies root`rb_node, all`left, all`right, all`parent, all`red
    ensures Wired(ViewOf(all), Plug(c, t.(n := new_))) && Ref(root.rb_node) == Ptr(Plug(c, t.(n := new_)))
    ensures Nodes(Plug(c, t.(n := new_))) == Nodes(Plug(c, t)) - {victim} + {new_}
  {
    ghost var h := root.Snap(all);
    Surround(all, c, t);
    ReplaceFields(root, all, victim, new_);
    ReplaceDone(h, root.Snap(all), c, t, new_);
  }

  method ReplaceShape<V, A(!new)>(root: Root<V, A>, victim: Node<V, A>, new_: Node<V, A>, ghost c: Ctx<Node<V, A>>,
                                  ghost t: Tree<Node<V, A>>)
    requires root.Shaped() && new_ !in root.nodes && root.tree == Plug(c, t) && t.T? && t.n == victim
    modifies root, new_, root.nodes
    ensures root.Shaped() && root.tree == Plug(c, t.(n := new_)) && root.nodes == old(root.nodes) - {victim} + {new_}
  {
    ghost var all, rest := root.nodes + {new_}, root.nodes - {victim} + {new_};
    Widen(root, all);
    ReplaceLinks(root, victim, new_, all, c, t);
    Narrow(all, rest, Plug(c, t.(n := new_)));
    ghost var g := ViewOf(rest);
    root.tree, root.nodes := Plug(c, t.(n := new_)), rest;
    assert ViewOf(root.nodes) == g;
  }

  /** rb_replace_node (src/rbtree.c:496-510). */
  method ReplaceNode<V, A(!new,==)>(root: Root<V, A>, victim: Node<V, A>, new_: Node<V, A>)
    requires root.Valid() && victim in root.nodes && new_ !in root.nodes
    modifies root, new_, root.nodes
    ensures root.Valid() && root.nodes == old(root.nodes) - {victim} + {new_}
    ensures Exchanged(old(root.Seq()), victim, new_, root.Seq())
  {
    Located(Top, root.tree, victim);
    ghost var (c, t) := Locate(Top, root.tree, victim);
    ReplaceOrder(c, t, new_);
    ReplaceBalance(c, t, new_);
    ReplaceShape(root, victim, new_, c, t);
  }

  lemma {:induction false} Narrow<V, A(!new)>(all: set<Node<V, A>>, rest: set<Node<V, A>>, t: Tree<Node<V, A>>)
    requires Wired(ViewOf(all), t) && Nodes(t) == rest && rest <= all
    ensures Wired(ViewOf(rest), t)
  {
    Unseal(ViewOf(all), t);
    Unseal(ViewOf(rest), t);
    Frame(ViewOf(all), ViewOf(rest), t, None);
  }

  /** The neighbours of a node are nodes of the tree, and its parent is another node. */
  lemma {:induction false} Surround<V, A(!new)>(all: set<Node<V, A>>, c: Ctx<Node<V, A>>, t: Tree<Node<V, A>>)
    requires Wired(ViewOf(all), Plug(c, t)) && t.T? && Nodes(Plug(c, t)) <= all
    ensures CellOf(t.n) == Cell(Ptr(t.left), Ptr(t.right), Parent(c), t.red) && t.n in all
    ensures t.n.parent == null || (t.n.parent in all && t.n.parent != t.n)
    ensures (t.n.left == null || t.n.left in all) && (t.n.right == null || t.n.right in all)
  {
    Here(ViewOf(all), c, t);
    Unseal(ViewOf(all), Plug(c, t));
    PlugDistinct(c, t);
  }
}

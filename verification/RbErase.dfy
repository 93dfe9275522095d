/**
 `__rb_erase_augmented` (src/rbtree_augmented.h:138-233) with the copy and propagate
 callbacks.
 */
module RbErase {
  import opened Seqs
  import opened RbTrees
  import opened RbLinks
  import opened RbCases
  import opened RbUnlinks
  import opened RbAugment
  import opened RbPropagate
  import opened RbState
  import opened RbHeap

  /** `w` is `m` changed at most at the nodes of `k`. */
  ghost predicate OnlyAug<N, A>(m: map<N, A>, w: map<N, A>, k: set<N>) {
    w.Keys == m.Keys && forall n :: n in m && n !in k ==> w[n] == m[n]
  }

  /** What the walk needs: the subtree below the hole is up to date and so is everything above its node. */
  ghost predicate Walk<N, A>(f: Fold<N, A>, m: map<N, A>, c: Ctx<N>, t: Tree<N>) {
    Consistent(f, m, t) && Has(m, t) && ConsistentAbove(f, m, c)
  }

  /** The shape of the walk: its links, and no node twice. */
  ghost predicate Path<N>(s: set<N>, v: View<N>, c: Ctx<N>, t: Tree<N>, stop: Option<N>) {
    && Spine(v, c, Ptr(t), stop) && Distinct(t) && DistinctC(c) && Nodes(t) !! NodesC(c)
    && Nodes(t) <= s && NodesC(c) <= s
  }

  lemma {:induction false} PathUp<N>(s: set<N>, v: View<N>, c: Ctx<N>, t: Tree<N>, stop: Option<N>)
    requires Path(s, v, c, t, stop) && c.In?
    ensures c.n in s && c.n in v && Some(c.n) != stop && v[c.n].parent == Next(c.up, stop)
    ensures In0(Ptr(t), s) && In0(Ptr(c.other), s)
    ensures Kid(v[c.n], c.side) == Ptr(t) && Kid(v[c.n], Flip(c.side)) == Ptr(c.other)
    ensures Path(s, v, c.up, Mk(c.side, t, c.n, c.red, c.other), stop)
  {
    OpenDistinct(c.side, t, c.n, c.red, c.other);
  }

  lemma {:induction false} WalkUp<N, A>(s: set<N>, v: View<N>, f: Fold<N, A>, m: map<N, A>, c: Ctx<N>, t: Tree<N>,
                                        stop: Option<N>, a: A)
    requires Path(s, v, c, t, stop) && c.In? && Walk(f, m, c, t)
    requires a == f.At(AugPtr(f, m, v[c.n].left), c.n, AugPtr(f, m, v[c.n].right))
    ensures m[c.n] == a ==> Consistent(f, m, Plug(c, t))
    ensures Walk(f, m[c.n := a], c.up, Mk(c.side, t, c.n, c.red, c.other))
  {
    assert a == AtSide(f, c.side, Stored(f, m, t), c.n, Stored(f, m, c.other)) by { if c.side.Left? {} else {} }
    if m[c.n] == a { StopEarly(f, m, c, t); }
    GoOn(f, m, m[c.n := a], c, t);
    if c.side.Left? {} else {}
  }

  /** rbcompute on the heap is the fold on a snapshot. */
  lemma ComputeIs<V, A(!new)>(root: Root<V, A>, s: set<Node<V, A>>, n: Node<V, A>, h: Shot<Node<V, A>, A>)
    requires n in s && h == root.Snap(s) && In0(h.v[n].left, s) && In0(h.v[n].right, s)
    ensures var f := FoldOf(root.cb);
      Compute(root.cb, n) == f.At(AugPtr(f, h.m, h.v[n].left), n, AugPtr(f, h.m, h.v[n].right))
  {
  }

  /** The propagate callback (src/rbtree_augmented.h:67-78). */
  method Propagate<V, A(!new,==)>(root: Root<V, A>, ghost s: set<Node<V, A>>, rb0: Node?<V, A>, stop: Node?<V, A>,
                                  ghost up: bool, ghost c0: Ctx<Node<V, A>>, ghost t0: Tree<Node<V, A>>)
    requires Path(s, root.Snap(s).v, c0, t0, Ref(stop)) && Ref(rb0) == Next(c0, Ref(stop))
    requires up ==> Walk(FoldOf(root.cb), root.Snap(s).m, c0, t0)
    modifies s`aug
    ensures root.Snap(s) == old(root.Snap(s)).(m := root.Snap(s).m)
    ensures OnlyAug(old(root.Snap(s)).m, root.Snap(s).m, NodesC(c0))
    ensures up ==> Consistent(FoldOf(root.cb), root.Snap(s).m, Plug(c0, t0))
  {
    ghost var h0, c, t := root.Snap(s), c0, t0;
    var rb := rb0;
    while rb != stop
      invariant root.Snap(s) == h0.(m := root.Snap(s).m)
      invariant Path(s, h0.v, c, t, Ref(stop)) && Ref(rb) == Next(c, Ref(stop))
      invariant Plug(c, t) == Plug(c0, t0) && NodesC(c) <= NodesC(c0)
      invariant OnlyAug(h0.m, root.Snap(s).m, NodesC(c0))
      invariant up ==> Walk(FoldOf(root.cb), root.Snap(s).m, c, t)
      decreases c
    {
      PathUp(s, h0.v, c, t, Ref(stop));
      var augmented := Compute(root.cb, rb);
      ghost var m := root.Snap(s).m;
      assert In0(h0.v[rb].left, s) && In0(h0.v[rb].right, s) by { if c.side.Left? {} else {} }
      ComputeIs(root, s, rb, root.Snap(s));
      if up { WalkUp(s, h0.v, FoldOf(root.cb), m, c, t, Ref(stop), augmented); }
      if rb.aug == augmented {
        return;
      }
      root.PutAug(s, rb, augmented);
      c, t := c.up, Mk(c.side, t, c.n, c.red, c.other);
      rb := rb.parent;
    }
  }

  // ---------------------------------------------------------------- the state after unlinking

  /** `Sound` for the tree without the erased node, while the snapshot still has that node's fields. */
  ghost predicate Kept<N, A(!new)>(x: Fixed<N, A>, h: Shot<N, A>, t: Tree<N>) {
    && Wired(h.v, t) && h.r == Ptr(t)
    && Nodes(t) == x.nodes && Inorder(t) == x.order && x.nodes <= h.m.Keys
    && (x.up ==> Consistent(x.f, h.m, t))
  }

  /** The fixed part after erasing `n`, which stands between `pre` and `post` in the order. */
  ghost predicate Without<N, A>(x: Fixed<N, A>, y: Fixed<N, A>, n: N) {
    && y.f == x.f && y.up == x.up && y.nodes == x.nodes - {n}
    && Removed(x.order, n, y.order)
  }

  lemma WithoutSplit<X>(order: seq<X>, pre: seq<X>, n: X, post: seq<X>)
    requires order == pre + [n] + post
    ensures order[|pre|] == n && pre + post == order[..|pre|] + order[|pre| + 1..]
  {
  }

  /** Either the tree is red-black, or it lacks one black node below `rebalance`. */
  ghost predicate Balance<N>(t: Tree<N>, k: Ctx<N>, rebalance: Option<N>) {
    if rebalance.None? then RedBlack(t) else Plug(k, Nil) == t && ShortHole(k, Nil, 0) && rebalance == Some(k.n)
  }

  // ---------------------------------------------------------------- at most one child

  lemma {:induction false} OneChildState<N, A(!new)>(x: Fixed<N, A>, h: Shot<N, A>, u: View<N>, k: Ctx<N>, d: Side,
                                                     n: N, xr: bool, r: Tree<N>)
    requires Holds(x, h, Plug(k, Mk(d, Nil, n, xr, r))) && Detached(h.v, u, k, r, xr)
    ensures var t' := Plug(k, Repaint(r, xr));
      && Wired(u, t') && Nodes(t') == x.nodes - {n} && Ptr(t') == (if k.Top? then Ptr(r) else h.r)
      && Path(x.nodes, u, k, Repaint(r, xr), None) && h.m.Keys == x.nodes
    ensures x.up ==> Walk(x.f, h.m, k, Repaint(r, xr)) && Lawful(x.f.unit, x.f.op)
  {
    var t := Plug(k, Mk(d, Nil, n, xr, r));
    Reveal(x, h, t);
    UnlinkWired(h.v, u, k, d, n, xr, r, xr);
    Unseal(u, Plug(k, Repaint(r, xr)));
    LinkedSpine(u, k, Repaint(r, xr), None);
    PlugDistinct(k, Repaint(r, xr));
    if x.up {
      UnsealUp(x.f, h.m, t);
      Case1Aug(x.f, h.m, k, d, n, xr, r, xr);
    }
  }

  lemma {:induction false} OneChildSplit<N>(k: Ctx<N>, d: Side, n: N, xr: bool, r: Tree<N>, red: bool)
    returns (pre: seq<N>, post: seq<N>)
    ensures Inorder(Plug(k, Mk(d, Nil, n, xr, r))) == pre + [n] + post
    ensures Inorder(Plug(k, Repaint(r, red))) == pre + post
  {
    PlugInorder(k, Mk(d, Nil, n, xr, r));
    PlugInorder(k, Repaint(r, red));
    var b, i, a := Before(k), Inorder(r), After(k);
    assert Inorder(Repaint(r, red)) == i;
    Seams(b, i, n, a);
    if d.Left? {
      pre, post := b, i + a;
    } else {
      pre, post := b + i, a;
    }
  }

  lemma Seams<X>(b: seq<X>, i: seq<X>, n: X, a: seq<X>)
    ensures b + ([] + [n] + i) + a == b + [n] + (i + a)
    ensures b + (i + [n] + []) + a == (b + i) + [n] + a
    ensures b + i + a == b + (i + a)
  {
  }

  lemma {:induction false} OneChildOrder<N, A(!new)>(x: Fixed<N, A>, h: Shot<N, A>, k: Ctx<N>, d: Side, n: N, xr: bool,
                                                     r: Tree<N>) returns (y: Fixed<N, A>)
    requires Holds(x, h, Plug(k, Mk(d, Nil, n, xr, r)))
    ensures Without(x, y, n) && Inorder(Plug(k, Repaint(r, xr))) == y.order
  {
    Reveal(x, h, Plug(k, Mk(d, Nil, n, xr, r)));
    var pre, post := OneChildSplit(k, d, n, xr, r, xr);
    WithoutSplit(x.order, pre, n, post);
    y := x.(nodes := x.nodes - {n}, order := pre + post);
  }

  /** Case 1 with a right child or none (src/rbtree_augmented.h:154-162). */
  method UnlinkRight<V, A(!new)>(root: Root<V, A>, ghost s: set<Node<V, A>>, node: Node<V, A>, child: Node?<V, A>,
                                 parent: Node?<V, A>)
    requires node in s && node.parent == parent && (parent == null || (parent in s && parent != node))
      && (child == null || (child in s && child != node))
    modifies root`rb_node, s`left, s`right, s`parent, s`red
    ensures var h := old(root.Snap(s));
      root.Snap(s) == h.(v := PutPC(PutChild(h.v, node, Ref(child), Ref(parent)), Ref(child), Ref(parent),
                                    old(node.red)),
                         r := if parent == null then Ref(child) else h.r)
  {
    var red := node.red;
    root.ChangeChild(s, node, child, parent);
    if child != null {
      root.SetParentColor(s, child, parent, red);
    }
  }

  /** Case 1 with a left child (src/rbtree_augmented.h:163-169). */
  method UnlinkLeft<V, A(!new)>(root: Root<V, A>, ghost s: set<Node<V, A>>, node: Node<V, A>, child: Node<V, A>,
                                parent: Node?<V, A>)
    requires node in s && node.parent == parent && (parent == null || (parent in s && parent != node)) && child in s
      && child != node
    modifies root`rb_node, s`left, s`right, s`parent, s`red
    ensures var h := old(root.Snap(s));
      root.Snap(s) == h.(v := PutChild(PutPC(h.v, Ref(child), Ref(parent), old(node.red)), node, Ref(child),
                                       Ref(parent)),
                         r := if parent == null then Ref(child) else h.r)
  {
    root.SetParentColor(s, child, parent, node.red);
    root.ChangeChild(s, node, child, parent);
  }

  method EraseNoLeft<V, A(!new,==)>(root: Root<V, A>, node: Node<V, A>, ghost x: Fixed<Node<V, A>, A>,
                                    ghost k: Ctx<Node<V, A>>, ghost r: Tree<Node<V, A>>)
    returns (rebalance: Node?<V, A>, ghost y: Fixed<Node<V, A>, A>, ghost t': Tree<Node<V, A>>,
             ghost k': Ctx<Node<V, A>>)
    requires x.f == FoldOf(root.cb) && node in x.nodes
      && Holds(x, root.Snap(x.nodes), Plug(k, T(Nil, node, node.red, r)))
    requires RedBlack(Plug(k, T(Nil, node, node.red, r)))
    modifies root`rb_node, x.nodes
    ensures Without(x, y, node) && Kept(y, root.Snap(x.nodes), t') && Balance(t', k', Ref(rebalance))
  {
    ghost var h0, xr := root.Snap(x.nodes), node.red;
    ghost var t := T(Nil, node, xr, r);
    Look(x, h0, k, t);
    LookPtr(x, h0, k, t);
    Reveal(x, h0, Plug(k, t));
    Case1Right(h0.v, k, node, xr, r);
    ghost var u := PutPC(PutChild(h0.v, node, Ptr(r), Parent(k)), Ptr(r), Parent(k), xr);
    OneChildState(x, h0, u, k, Left, node, xr, r);
    y := OneChildOrder(x, h0, k, Left, node, xr, r);
    UnlinkRb(k, Left, node, xr, r);
    t', k' := Plug(k, Repaint(r, xr)), k;
    var child, parent := node.right, node.parent;
    rebalance := if child != null || node.red then null else parent;
    UnlinkRight(root, x.nodes, node, child, parent);
    Propagate(root, x.nodes, parent, null, x.up, k, Repaint(r, xr));
  }

  method EraseNoRight<V, A(!new,==)>(root: Root<V, A>, node: Node<V, A>, ghost x: Fixed<Node<V, A>, A>,
                                     ghost k: Ctx<Node<V, A>>, ghost l: Tree<Node<V, A>>)
    returns (rebalance: Node?<V, A>, ghost y: Fixed<Node<V, A>, A>, ghost t': Tree<Node<V, A>>,
             ghost k': Ctx<Node<V, A>>)
    requires x.f == FoldOf(root.cb) && node in x.nodes
      && Holds(x, root.Snap(x.nodes), Plug(k, T(l, node, node.red, Nil))) && l.T?
    requires RedBlack(Plug(k, T(l, node, node.red, Nil)))
    modifies root`rb_node, x.nodes
    ensures Without(x, y, node) && Kept(y, root.Snap(x.nodes), t') && Balance(t', k', Ref(rebalance))
  {
    ghost var h0, xr := root.Snap(x.nodes), node.red;
    ghost var t := T(l, node, xr, Nil);
    Look(x, h0, k, t);
    LookPtr(x, h0, k, t);
    Reveal(x, h0, Plug(k, t));
    Case1Left(h0.v, k, node, xr, l);
    ghost var u := PutChild(PutPC(h0.v, Ptr(l), Parent(k), xr), node, Ptr(l), Parent(k));
    OneChildState(x, h0, u, k, Right, node, xr, l);
    y := OneChildOrder(x, h0, k, Right, node, xr, l);
    UnlinkRb(k, Right, node, xr, l);
    t', k' := Plug(k, Repaint(l, xr)), k;
    var child, parent := node.left, node.parent;
    rebalance := null;
    UnlinkLeft(root, x.nodes, node, child, parent);
    Propagate(root, x.nodes, parent, null, x.up, k, Repaint(l, xr));
  }

  // ---------------------------------------------------------------- two children

  lemma RelinkedOnly<N>(u: View<N>, x: N, s: N, q: N, c2: Option<N>, l: N, g: Option<N>, xr: bool)
    ensures Only(u, Relinked(u, x, s, q, c2, l, g, xr), {s, l} + Opt(c2) + Opt(g))
  {
  }

  /** The walk from the successor's new place. */
  lemma {:induction false} TopPath<N>(nodes: set<N>, w: View<N>, c: Ctx<N>, l: Tree<N>, s: N, xr: bool, r: Tree<N>)
    requires Wired(w, Plug(c, T(l, s, xr, r))) && Nodes(Plug(c, T(l, s, xr, r))) <= nodes
    ensures Path(nodes, w, In(Left, s, xr, r, c), l, None)
  {
    var k := In(Left, s, xr, r, c);
    Unseal(w, Plug(k, l));
    LinkedSpine(w, k, l, None);
    PlugDistinct(k, l);
  }

  /** The fields and the order around a node with two children. */
  lemma {:induction false} TwoChildLook<N, A(!new)>(x: Fixed<N, A>, h: Shot<N, A>, c: Ctx<N>, l: Tree<N>, n: N,
                                                    xr: bool, r: Tree<N>) returns (y: Fixed<N, A>)
    requires Holds(x, h, Plug(c, T(l, n, xr, r))) && l.T? && r.T?
    ensures MinTree(r).T? && h.m.Keys == x.nodes && h.r == Ptr(Plug(c, T(l, n, xr, r)))
    ensures n in h.v && h.v[n] == Cell(Some(l.n), Some(r.n), Parent(c), xr)
    ensures Around(h.v, n, MinTree(r).n, Ptr(MinTree(r).right), r.n, l.n, Parent(c), if c.In? then c.side else Left)
    ensures n in x.nodes && l.n in x.nodes && r.n in x.nodes && MinTree(r).n in x.nodes && In0(Parent(c), x.nodes)
      && In0(Ptr(MinTree(r).right), x.nodes)
    ensures h.v[MinTree(r).n].red == MinTree(r).red
    ensures Without(x, y, n) && Inorder(Plug(c, T(l, MinTree(r).n, xr, DropMin(r)))) == y.order
  {
    var t := T(l, n, xr, r);
    Reveal(x, h, Plug(c, t));
    Unseal(h.v, Plug(c, t));
    SuccessorAround(h.v, c, l, n, xr, r);
    PlugDistinct(c, t);
    MinNode(r);
    SuccessorInorder(c, l, n, xr, r);
    var pre, post := Before(c) + Inorder(l), Inorder(r) + After(c);
    WithoutSplit(x.order, pre, n, post);
    y := x.(nodes := x.nodes - {n}, order := pre + post);
  }

  lemma {:induction false} Case2State<N, A(!new)>(x: Fixed<N, A>, h: Shot<N, A>, c: Ctx<N>, l: Tree<N>, n: N, xr: bool,
                                                  r: Tree<N>)
    requires Holds(x, h, Plug(c, T(l, n, xr, r))) && l.T? && r.T? && r.left.Nil? && n in h.m
    ensures var t', w := Plug(c, T(l, r.n, xr, DropMin(r))), Case2(h.v, n, r.n, Ptr(r.right), l.n, Parent(c), xr);
      && Wired(w, t') && Nodes(t') == x.nodes - {n} && Ptr(t') == (if c.Top? then Some(r.n) else h.r)
      && Path(x.nodes, w, In(Left, r.n, xr, DropMin(r), c), l, None)
    ensures x.up ==> Walk(x.f, h.m[r.n := h.m[n]], In(Left, r.n, xr, DropMin(r), c), l)
  {
    var t := T(l, n, xr, r);
    Reveal(x, h, Plug(c, t));
    Unseal(h.v, Plug(c, t));
    Case2Wired(h.v, c, l, n, xr, r);
    TopPath(x.nodes, Case2(h.v, n, r.n, Ptr(r.right), l.n, Parent(c), xr), c, l, r.n, xr, DropMin(r));
    if x.up {
      var m := h.m[r.n := h.m[n]];
      UnsealUp(x.f, h.m, Plug(c, t));
      PlugDistinct(c, t);
      Case3AugBelow(x.f, h.m, m, c, l, n, xr, r);
      SuccessorAug(x.f, h.m, m, c, l, n, xr, r, r.n, DropMin(r));
    }
  }

  /** Case 3 after the successor has left its old place: the walk from there up to the successor. */
  lemma {:induction false} LiftedPath<N>(nodes: set<N>, v: View<N>, c: Ctx<N>, l: Tree<N>, n: N, xr: bool, r: Tree<N>,
                                         q: N, w: View<N>)
    requires Distinct(Plug(c, T(l, n, xr, r))) && l.T? && r.T? && MinTree(r).T? && Nodes(r) <= nodes
    requires w == Relinked(Lifted(v, MinTree(r).n, q, Ptr(MinTree(r).right), r.n), n, MinTree(r).n, q,
                           Ptr(MinTree(r).right), l.n, Parent(c), xr)
    requires Wired(w, Plug(c, T(l, MinTree(r).n, xr, DropMin(r))))
    ensures Path(nodes, Lifted(v, MinTree(r).n, q, Ptr(MinTree(r).right), r.n), SpineCtx(r, Top),
                 Repaint(MinTree(r).right, false), Some(MinTree(r).n))
  {
    var k, s, u := SpineCtx(r, Top), MinTree(r), Lifted(v, MinTree(r).n, q, Ptr(MinTree(r).right), r.n);
    PlugDistinct(c, T(l, n, xr, r));
    SpinePlug(r, Top);
    PlugDistinct(k, s);
    var t2 := Repaint(s.right, false);
    PlugDistinct(k, t2);
    Unseal(w, Plug(c, T(l, s.n, xr, DropMin(r))));
    PlugLinked(w, c, T(l, s.n, xr, DropMin(r)));
    LinkedSpine(w, k, t2, Some(s.n));
    RelinkedOnly(u, n, s.n, q, Ptr(s.right), l.n, Parent(c), xr);
    assert ({s.n, l.n} + Opt(Ptr(s.right)) + Opt(Parent(c))) !! NodesC(k);
    SameSpine(w, u, k, Ptr(t2), Some(s.n));
  }

  lemma {:induction false} Case3State<N, A(!new)>(x: Fixed<N, A>, h: Shot<N, A>, c: Ctx<N>, l: Tree<N>, n: N, xr: bool,
                                                  r: Tree<N>)
    requires Holds(x, h, Plug(c, T(l, n, xr, r))) && l.T? && r.T? && r.left.T? && MinTree(r).T? && n in h.m
    ensures SpineCtx(r, In(Right, n, xr, l, c)).In?
    ensures var s, c2, q := MinTree(r).n, MinTree(r).right, SpineCtx(r, In(Right, n, xr, l, c)).n;
      var t', u := Plug(c, T(l, s, xr, DropMin(r))), Lifted(h.v, s, q, Ptr(c2), r.n);
      var w := Relinked(u, n, s, q, Ptr(c2), l.n, Parent(c), xr);
      && q in x.nodes && q != s && q != n && Next(SpineCtx(r, Top), Some(s)) == Some(q)
      && Wired(w, t') && Nodes(t') == x.nodes - {n} && Ptr(t') == (if c.Top? then Some(s) else h.r)
      && Path(x.nodes, u, SpineCtx(r, Top), Repaint(c2, false), Some(s))
      && Path(x.nodes, w, In(Left, s, xr, DropMin(r), c), l, None)
    ensures x.up ==> Walk(x.f, h.m[MinTree(r).n := h.m[n]], SpineCtx(r, Top), Repaint(MinTree(r).right, false))
  {
    var t, b := T(l, n, xr, r), In(Right, n, xr, l, c);
    Reveal(x, h, Plug(c, t));
    Unseal(h.v, Plug(c, t));
    PlugDistinct(c, t);
    Case3Wired(h.v, c, l, n, xr, r);
    SpineApart(r, b);
    SpineNode(r, b, Top);
    var q := SpineCtx(r, b).n;
    var w := Case3(h.v, n, MinTree(r).n, q, Ptr(MinTree(r).right), r.n, l.n, Parent(c), xr);
    TopPath(x.nodes, w, c, l, MinTree(r).n, xr, DropMin(r));
    LiftedPath(x.nodes, h.v, c, l, n, xr, r, q, w);
    MinNode(r);
    if x.up {
      UnsealUp(x.f, h.m, Plug(c, t));
      Case3AugBelow(x.f, h.m, h.m[MinTree(r).n := h.m[n]], c, l, n, xr, r);
    }
  }

  /** The node above the successor does not depend on what is above `r`. */
  lemma {:induction false} SpineNode<N>(r: Tree<N>, b: Ctx<N>, c: Ctx<N>)
    requires r.T? && r.left.T?
    ensures SpineCtx(r, b).In? && SpineCtx(r, c).In? && SpineCtx(r, b).n == SpineCtx(r, c).n
    decreases r
  {
    if r.left.left.T? { SpineNode(r.left, In(Left, r.n, r.red, r.right, b), In(Left, r.n, r.red, r.right, c)); }
  }

  lemma {:induction false} Case3Above<N, A(!new)>(x: Fixed<N, A>, h: Shot<N, A>, m: map<N, A>, c: Ctx<N>, l: Tree<N>,
                                                  n: N, xr: bool, r: Tree<N>)
    requires Holds(x, h, Plug(c, T(l, n, xr, r))) && r.T? && MinTree(r).T? && n in h.m && x.up
    requires OnlyAug(h.m[MinTree(r).n := h.m[n]], m, NodesC(SpineCtx(r, Top))) && Consistent(x.f, m, DropMin(r))
      && Has(m, DropMin(r))
    ensures Walk(x.f, m, In(Left, MinTree(r).n, xr, DropMin(r), c), l)
  {
    var t, k, s := T(l, n, xr, r), SpineCtx(r, Top), MinTree(r);
    Reveal(x, h, Plug(c, t));
    Unseal(h.v, Plug(c, t));
    UnsealUp(x.f, h.m, Plug(c, t));
    PlugDistinct(c, t);
    SpinePlug(r, Top);
    PlugDistinct(k, s);
    SuccessorAug(x.f, h.m, m, c, l, n, xr, r, s.n, DropMin(r));
  }

  /** The successor takes over from node (src/rbtree_augmented.h:213-227). */
  method Relink<V, A(!new)>(root: Root<V, A>, ghost s: set<Node<V, A>>, node: Node<V, A>, successor: Node<V, A>,
                            parent: Node<V, A>,
                            child2: Node?<V, A>, left: Node<V, A>, above: Node?<V, A>)
    requires node in s && successor in s && parent in s && left in s && (child2 == null || child2 in s)
      && (above == null || above in s)
    requires node.left == left && node.parent == above && node != successor && node != left && above != successor
      && above != left && node != above
    modifies root`rb_node, s`left, s`right, s`parent, s`red
    ensures var h := old(root.Snap(s));
      root.Snap(s) == h.(v := Relinked(h.v, node, successor, parent, Ref(child2), left, Ref(above), old(node.red)),
                         r := if above == null then Some(successor) else h.r)
  {
    root.PutLeft(s, successor, left);
    root.SetParent(s, left, successor);
    root.ChangeChild(s, node, successor, above);
    root.SetParentColor(s, successor, above, node.red);
    if child2 != null {
      root.SetParentColor(s, child2, parent, false);
    }
  }

  /** The last part of Cases 2 and 3 (src/rbtree_augmented.h:213-231): relink, and walk up from the successor. */
  method TakeOver<V, A(!new,==)>(root: Root<V, A>, ghost s: set<Node<V, A>>, node: Node<V, A>, successor: Node<V, A>,
                                 parent: Node<V, A>, child2: Node?<V, A>,
                                 ghost up: bool, ghost c: Ctx<Node<V, A>>, ghost l: Tree<Node<V, A>>,
                                 ghost r: Tree<Node<V, A>>, ghost xr: bool)
    requires node in s && successor in s && parent in s && l.T? && l.n in s && In0(Parent(c), s)
      && (child2 == null || child2 in s)
    requires Ref(node.left) == Ptr(l) && Ref(node.parent) == Parent(c) && node.red == xr
    requires node != successor && node != l.n && Parent(c) != Some(successor) && Parent(c) != Some(l.n)
      && Parent(c) != Some(node)
    requires Path(s, Relinked(root.Snap(s).v, node, successor, parent, Ref(child2), l.n, Parent(c), xr),
                  In(Left, successor, xr, r, c), l, None)
    requires up ==> Walk(FoldOf(root.cb), root.Snap(s).m, In(Left, successor, xr, r, c), l)
    modifies root`rb_node, s
    ensures var h := old(root.Snap(s));
      root.Snap(s) == Shot(Relinked(h.v, node, successor, parent, Ref(child2), l.n, Parent(c), xr), root.Snap(s).m,
                           if c.Top? then Some(successor) else h.r)
    ensures root.Snap(s).m.Keys == old(root.Snap(s)).m.Keys
    ensures up ==> Consistent(FoldOf(root.cb), root.Snap(s).m, Plug(c, T(l, successor, xr, r)))
  {
    Relink(root, s, node, successor, parent, child2, node.left, node.parent);
    Propagate(root, s, successor, null, up, In(Left, successor, xr, r, c), l);
  }

  /** Case 2: node's successor is its right child (src/rbtree_augmented.h:173-185, 213-231). */
  method EraseSuccessor2<V, A(!new,==)>(root: Root<V, A>, node: Node<V, A>, ghost x: Fixed<Node<V, A>, A>,
                                        ghost c: Ctx<Node<V, A>>, ghost l: Tree<Node<V, A>>, ghost r: Tree<Node<V, A>>)
    returns (rebalance: Node?<V, A>, ghost y: Fixed<Node<V, A>, A>)
    requires x.f == FoldOf(root.cb) && node in x.nodes && Holds(x, root.Snap(x.nodes), Plug(c, T(l, node, node.red, r)))
    requires l.T? && r.T? && r.left.Nil?
    modifies root`rb_node, x.nodes
    ensures Without(x, y, node) && Kept(y, root.Snap(x.nodes), Plug(c, T(l, r.n, old(node.red), DropMin(r))))
    ensures rebalance == if r.right.T? || r.red then null else r.n
  {
    ghost var h0, xr := root.Snap(x.nodes), node.red;
    y := TwoChildLook(x, h0, c, l, node, xr, r);
    Case2State(x, h0, c, l, node, xr, r);
    var successor := node.right;
    var child2 := successor.right;
    rebalance := if child2 != null || successor.red then null else successor;
    root.PutAug(x.nodes, successor, node.aug);
    TakeOver(root, x.nodes, node, successor, successor, child2, x.up, c, l, DropMin(r), xr);
  }

  /** The leftmost node below the right child, and its parent (src/rbtree_augmented.h:201-205). */
  method FindSuccessor<V, A(!new)>(root: Root<V, A>, child: Node<V, A>, ghost x: Fixed<Node<V, A>, A>,
                                   ghost b: Ctx<Node<V, A>>, ghost r: Tree<Node<V, A>>)
    returns (parent: Node<V, A>, successor: Node<V, A>)
    requires Holds(x, root.Snap(x.nodes), Plug(b, r)) && r.T? && r.left.T? && child == r.n && b.In?
    ensures MinTree(r).T? && SpineCtx(r, b).In? && successor == MinTree(r).n && parent == SpineCtx(r, b).n
  {
    ghost var k, t, h0 := b, r, root.Snap(x.nodes);
    Look(x, h0, k, t);
    parent, successor := child, child;
    var tmp := child.left;
    while tmp != null
      invariant t.T? && successor == t.n && Ref(tmp) == Ptr(t.left) && k.In?
      invariant Plug(k, t) == Plug(b, r) && SpineCtx(t, k) == SpineCtx(r, b) && MinTree(t) == MinTree(r)
      invariant t == r || parent == k.n
      decreases t
    {
      k, t := In(Left, t.n, t.red, t.right, k), t.left;
      parent := successor;
      successor := tmp;
      Look(x, h0, k, t);
      tmp := tmp.left;
    }
  }

  /** Case 3: the successor is leftmost under the right child (src/rbtree_augmented.h:186-231). */
  method EraseSuccessor3<V, A(!new,==)>(root: Root<V, A>, node: Node<V, A>, ghost x: Fixed<Node<V, A>, A>,
                                        ghost c: Ctx<Node<V, A>>, ghost l: Tree<Node<V, A>>, ghost r: Tree<Node<V, A>>)
    returns (rebalance: Node?<V, A>, ghost y: Fixed<Node<V, A>, A>)
    requires x.f == FoldOf(root.cb) && node in x.nodes && Holds(x, root.Snap(x.nodes), Plug(c, T(l, node, node.red, r)))
    requires l.T? && r.T? && r.left.T? && SpineCtx(r, Top).In? && MinTree(r).T?
    modifies root`rb_node, x.nodes
    ensures Without(x, y, node) && Kept(y, root.Snap(x.nodes), Plug(c, T(l, MinTree(r).n, old(node.red), DropMin(r))))
    ensures rebalance == if MinTree(r).right.T? || MinTree(r).red then null else SpineCtx(r, Top).n
  {
    ghost var b := In(Right, node, node.red, l, c);
    Look(x, root.Snap(x.nodes), c, T(l, node, node.red, r));
    SpineNode(r, b, Top);
    assert Plug(c, T(l, node, node.red, r)) == Plug(b, r);
    var parent, successor := FindSuccessor(root, node.right, x, b, r);
    rebalance, y := MoveSuccessor(root, node, successor, parent, x, c, l, r);
  }

  /** Case 3 once the successor is found (src/rbtree_augmented.h:206-231). */
  method MoveSuccessor<V, A(!new,==)>(root: Root<V, A>, node: Node<V, A>, successor: Node<V, A>, parent: Node<V, A>,
                                      ghost x: Fixed<Node<V, A>, A>,
                                      ghost c: Ctx<Node<V, A>>, ghost l: Tree<Node<V, A>>, ghost r: Tree<Node<V, A>>)
    returns (rebalance: Node?<V, A>, ghost y: Fixed<Node<V, A>, A>)
    requires x.f == FoldOf(root.cb) && node in x.nodes && Holds(x, root.Snap(x.nodes), Plug(c, T(l, node, node.red, r)))
    requires l.T? && r.T? && r.left.T? && SpineCtx(r, Top).In? && MinTree(r).T? && successor == MinTree(r).n
      && parent == SpineCtx(r, Top).n
    modifies root`rb_node, x.nodes
    ensures Without(x, y, node) && Kept(y, root.Snap(x.nodes), Plug(c, T(l, MinTree(r).n, old(node.red), DropMin(r))))
    ensures rebalance == if MinTree(r).right.T? || MinTree(r).red then null else SpineCtx(r, Top).n
  {
    ghost var h0, xr := root.Snap(x.nodes), node.red;
    y := TwoChildLook(x, h0, c, l, node, xr, r);
    Case3State(x, h0, c, l, node, xr, r);
    var child, child2 := node.right, successor.right;
    rebalance := if child2 != null || successor.red then null else parent;
    LiftAndWalk(root, node, successor, parent, child2, child, x, h0, c, l, r);
    TakeOver(root, x.nodes, node, successor, parent, child2, x.up, c, l, DropMin(r), xr);
  }

  /** The first part of Case 3 (src/rbtree_augmented.h:206-210): lift the successor, copy, and walk up to it. */
  method LiftAndWalk<V, A(!new,==)>(root: Root<V, A>, node: Node<V, A>, successor: Node<V, A>, parent: Node<V, A>,
                                    child2: Node?<V, A>, child: Node<V, A>,
                                    ghost x: Fixed<Node<V, A>, A>, ghost h0: Shot<Node<V, A>, A>,
                                    ghost c: Ctx<Node<V, A>>, ghost l: Tree<Node<V, A>>, ghost r: Tree<Node<V, A>>)
    requires x.f == FoldOf(root.cb) && h0 == root.Snap(x.nodes) && Holds(x, h0, Plug(c, T(l, node, node.red, r)))
      && r.T? && MinTree(r).T?
    requires node in x.nodes && successor in x.nodes && parent in x.nodes && child in x.nodes && child == r.n
      && node != successor
    requires successor == MinTree(r).n && Ref(child2) == Ptr(MinTree(r).right)
      && Some(parent) == Next(SpineCtx(r, Top), Some(successor))
    requires node != parent && node != child
    requires Path(x.nodes, Lifted(h0.v, successor, parent, Ref(child2), child), SpineCtx(r, Top),
                  Repaint(MinTree(r).right, false), Some(successor))
    requires x.up ==> Walk(x.f, h0.m[successor := h0.m[node]], SpineCtx(r, Top), Repaint(MinTree(r).right, false))
    modifies x.nodes
    ensures root.Snap(x.nodes) == h0.(v := Lifted(h0.v, successor, parent, Ref(child2), child),
                                      m := root.Snap(x.nodes).m)
    ensures root.Snap(x.nodes).m.Keys == h0.m.Keys
    ensures x.up ==> Walk(x.f, root.Snap(x.nodes).m, In(Left, successor, old(node.red), DropMin(r), c), l)
    ensures node.left == old(node.left) && node.parent == old(node.parent) && node.red == old(node.red)
  {
    ghost var xr := node.red;
    Lift(root, x.nodes, successor, parent, child2, child);
    assert node.left == old(node.left) && node.parent == old(node.parent) && node.red == old(node.red);
    root.PutAug(x.nodes, successor, node.aug);
    Propagate(root, x.nodes, parent, successor, x.up, SpineCtx(r, Top), Repaint(MinTree(r).right, false));
    if x.up {
      SpinePlug(r, Top);
      assert Has(root.Snap(x.nodes).m, DropMin(r));
      Case3Above(x, h0, root.Snap(x.nodes).m, c, l, node, xr, r);
    }
  }

  /** The successor leaves its old place (src/rbtree_augmented.h:206-208). */
  method Lift<V, A(!new)>(root: Root<V, A>, ghost s: set<Node<V, A>>, successor: Node<V, A>, parent: Node<V, A>,
                          child2: Node?<V, A>, child: Node<V, A>)
    requires successor in s && parent in s && child in s
    modifies parent`left, successor`right, child`parent
    ensures var h := old(root.Snap(s)); root.Snap(s) == h.(v := Lifted(h.v, successor, parent, Ref(child2), child))
  {
    root.PutLeft(s, parent, child2);
    root.PutRight(s, successor, child);
    root.SetParent(s, child, successor);
  }

  // ---------------------------------------------------------------- all cases

  lemma {:induction false} SuccessorBalance<N>(c: Ctx<N>, l: Tree<N>, n: N, xr: bool, r: Tree<N>) returns (k: Ctx<N>)
    requires r.T? && RedBlack(Plug(c, T(l, n, xr, r)))
    ensures MinTree(r).T? && k.In?
      && (if r.left.T? then SpineCtx(r, Top).In? && k.n == SpineCtx(r, Top).n else k.n == r.n)
    ensures Balance(Plug(c, T(l, MinTree(r).n, xr, DropMin(r))), k,
                    if MinTree(r).right.T? || MinTree(r).red then None else Some(k.n))
  {
    SuccessorRb(c, l, n, xr, r);
    var b := In(Right, MinTree(r).n, xr, l, c);
    k := SpineCtx(r, b);
    SpineIn(r, b);
    if r.left.T? { SpineNode(r, b, Top); }
  }

  /** `__rb_erase_augmented`: unlink `node`; `rebalance` is where the tree lacks a black node, if anywhere. */
  method Unlink<V, A(!new,==)>(root: Root<V, A>, node: Node<V, A>, ghost x: Fixed<Node<V, A>, A>,
                               ghost c: Ctx<Node<V, A>>, ghost t: Tree<Node<V, A>>)
    returns (rebalance: Node?<V, A>, ghost y: Fixed<Node<V, A>, A>, ghost t': Tree<Node<V, A>>,
             ghost k': Ctx<Node<V, A>>)
    requires x.f == FoldOf(root.cb) && Holds(x, root.Snap(x.nodes), Plug(c, t)) && RedBlack(Plug(c, t)) && t.T?
      && t.n == node
    modifies root`rb_node, x.nodes
    ensures Without(x, y, node) && Kept(y, root.Snap(x.nodes), t') && Balance(t', k', Ref(rebalance))
  {
    Look(x, root.Snap(x.nodes), c, t);
    LookPtr(x, root.Snap(x.nodes), c, t);
    assert t == T(t.left, node, node.red, t.right);
    var child, tmp := node.right, node.left;
    if tmp == null {
      rebalance, y, t', k' := EraseNoLeft(root, node, x, c, t.right);
    } else if child == null {
      rebalance, y, t', k' := EraseNoRight(root, node, x, c, t.left);
    } else {
      k' := SuccessorBalance(c, t.left, node, node.red, t.right);
      t' := Plug(c, T(t.left, MinTree(t.right).n, node.red, DropMin(t.right)));
      assert Plug(c, t) == Plug(In(Right, node, t.red, t.left, c), t.right);
      Look(x, root.Snap(x.nodes), In(Right, node, t.red, t.left, c), t.right);
      if child.left == null {
        rebalance, y := EraseSuccessor2(root, node, x, c, t.left, t.right);
      } else {
        rebalance, y := EraseSuccessor3(root, node, x, c, t.left, t.right);
      }
    }
  }
}

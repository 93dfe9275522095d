/**
 The propagate callback (src/rbtree_augmented.h:67-78) and its use on erasure
 (src/rbtree_augmented.h:185-231): when the walk towards the root may start and why it
 may stop early.
 */
module RbPropagate {
  import opened RbTrees
  import opened RbLinks
  import opened RbCases
  import opened RbAugment

  /** Where the walk goes above the hole of `c`: to the node there, or to `stop`. */
  ghost function Next<N>(c: Ctx<N>, stop: Option<N>): Option<N> {
    if c.In? then Some(c.n) else stop
  }

  /** The links the walk reads: both children and the parent of every node above the hole. */
  ghost predicate Spine<N>(v: View<N>, c: Ctx<N>, hole: Option<N>, stop: Option<N>) {
    c.In? ==>
      && c.n in v && Some(c.n) != stop
      && Kid(v[c.n], c.side) == hole && Kid(v[c.n], Flip(c.side)) == Ptr(c.other)
      && v[c.n].parent == Next(c.up, stop)
      && Spine(v, c.up, Some(c.n), stop)
  }

  lemma {:induction false} LinkedSpine<N>(v: View<N>, c: Ctx<N>, t: Tree<N>, p: Option<N>)
    requires Linked(v, Plug(c, t), p) && (p.Some? ==> p.value !in Nodes(Plug(c, t)))
    ensures Spine(v, c, Ptr(t), p) && Linked(v, t, Next(c, p))
    decreases c
  {
    if c.In? {
      var m := Mk(c.side, t, c.n, c.red, c.other);
      LinkedSpine(v, c.up, m, p);
      OpenLinked(v, c.side, t, c.n, c.red, c.other, Next(c.up, p));
      PlugDistinct(c, t);
      if c.side.Left? {} else {}
    }
  }

  lemma {:induction false} SameSpine<N>(v: View<N>, u: View<N>, c: Ctx<N>, hole: Option<N>, stop: Option<N>)
    requires Spine(v, c, hole, stop) && Same(v, u, NodesC(c))
    ensures Spine(u, c, hole, stop)
  {
    if c.In? { SameSpine(v, u, c.up, Some(c.n), stop); }
  }

  // ---------------------------------------------------------------- one step

  /** The node above the hole already stores the right value: everything is up to date. */
  lemma {:induction false} StopEarly<N, A>(f: Fold<N, A>, m: map<N, A>, c: Ctx<N>, t: Tree<N>)
    requires c.In? && Consistent(f, m, t) && Has(m, t) && ConsistentAbove(f, m, c)
    requires m[c.n] == AtSide(f, c.side, Stored(f, m, t), c.n, Stored(f, m, c.other))
    ensures Consistent(f, m, Plug(c, t))
  {
    PlugConsistent(f, m, c, t);
  }

  /** The node above the hole is brought up to date, and the walk goes on above it. */
  lemma {:induction false} GoOn<N, A>(f: Fold<N, A>, m: map<N, A>, w: map<N, A>, c: Ctx<N>, t: Tree<N>)
    requires c.In? && DistinctC(c) && Distinct(t) && Nodes(t) !! NodesC(c)
    requires Consistent(f, m, t) && Has(m, t) && ConsistentAbove(f, m, c)
    requires w == m[c.n := AtSide(f, c.side, Stored(f, m, t), c.n, Stored(f, m, c.other))]
    ensures Consistent(f, w, Mk(c.side, t, c.n, c.red, c.other)) && ConsistentAbove(f, w, c.up)
  {
    FrameConsistent(f, m, w, t);
    FrameConsistent(f, m, w, c.other);
    OpenConsistent(f, w, c.side, t, c.n, c.red, c.other);
    if c.up.In? {
      FrameConsistent(f, m, w, c.up.other);
      FrameConsistentC(f, m, w, c.up.up, m[c.up.n]);
    }
  }

  // ---------------------------------------------------------------- where the walk starts

  lemma {:induction false} AboveOf<N, A>(f: Fold<N, A>, m: map<N, A>, c: Ctx<N>, t: Tree<N>)
    requires Consistent(f, m, Plug(c, t))
    ensures Consistent(f, m, t) && Has(m, t) && ConsistentC(f, m, c, Stored(f, m, t)) && ConsistentAbove(f, m, c)
  {
    PlugConsistent(f, m, c, t);
  }

  /** Case 1: the walk starts at the parent of the erased node. */
  lemma {:induction false} Case1Aug<N, A>(f: Fold<N, A>, m: map<N, A>, k: Ctx<N>, d: Side, x: N, xr: bool, r: Tree<N>,
                                          red: bool)
    requires Consistent(f, m, Plug(k, Mk(d, Nil, x, xr, r)))
    ensures Consistent(f, m, Repaint(r, red)) && Has(m, Repaint(r, red)) && ConsistentAbove(f, m, k)
  {
    AboveOf(f, m, k, Mk(d, Nil, x, xr, r));
    OpenConsistent(f, m, d, Nil, x, xr, r);
  }

  /** Case 3: below the successor's new place, the walk starts at the successor's old parent. */
  lemma {:induction false} Case3AugBelow<N, A>(f: Fold<N, A>, m: map<N, A>, w: map<N, A>, c: Ctx<N>, l: Tree<N>, x: N,
                                               xr: bool, r: Tree<N>)
    requires Consistent(f, m, Plug(c, T(l, x, xr, r))) && Distinct(Plug(c, T(l, x, xr, r))) && r.T? && MinTree(r).T?
    requires x in m && w == m[MinTree(r).n := m[x]]
    ensures var t := Repaint(MinTree(r).right, false);
      Consistent(f, w, t) && Has(w, t) && ConsistentAbove(f, w, SpineCtx(r, Top))
  {
    var k, s := SpineCtx(r, Top), MinTree(r);
    PlugDistinct(c, T(l, x, xr, r));
    AboveOf(f, m, c, T(l, x, xr, r));
    SpinePlug(r, Top);
    AboveOf(f, m, k, s);
    PlugDistinct(k, s);
    FrameConsistent(f, m, w, s.right);
    if k.In? {
      FrameConsistent(f, m, w, k.other);
      FrameConsistentC(f, m, w, k.up, m[k.n]);
    }
  }

  /** Cases 2 and 3: above it, the walk starts at the successor, which got the erased node's value. */
  lemma {:induction false} SuccessorAug<N, A>(f: Fold<N, A>, m: map<N, A>, w: map<N, A>, c: Ctx<N>, l: Tree<N>, x: N,
                                              xr: bool, r: Tree<N>, s: N, r': Tree<N>)
    requires Consistent(f, m, Plug(c, T(l, x, xr, r))) && Distinct(Plug(c, T(l, x, xr, r)))
    requires x in m && s in w && w[s] == m[x] && Agree(m, w, Nodes(l) + NodesC(c)) && Consistent(f, w, r') && Has(w, r')
    ensures Consistent(f, w, l) && Has(w, l) && ConsistentAbove(f, w, In(Left, s, xr, r', c))
  {
    AboveOf(f, m, c, T(l, x, xr, r));
    FrameConsistent(f, m, w, l);
    FrameConsistentC(f, m, w, c, m[x]);
  }
}

/**
 The assignment sequences of `__rb_erase_augmented` (src/rbtree_augmented.h:138-233)
 on views, and the trees they produce.
 Erasing a node with two children is unlinking its successor and then putting the
 successor in the node's place.
 */
module RbUnlinks {
  import opened RbTrees
  import opened RbLinks
  import opened RbCases

  // ---------------------------------------------------------------- at most one child

  /** The subtree `r` moves up into the hole of `k`, painted `red`. */
  ghost predicate Detached<N>(v: View<N>, u: View<N>, k: Ctx<N>, r: Tree<N>, red: bool) {
    && Only(v, u, Opt(Parent(k)) + Opt(Ptr(r)))
    && (k.In? ==> k.n in v && u[k.n] == WithKid(v[k.n], k.side, Ptr(r)))
    && (r.T? ==> r.n in v && u[r.n] == v[r.n].(parent := Parent(k), red := red))
  }

  lemma {:induction false} UnlinkApart<N>(k: Ctx<N>, d: Side, x: N, xr: bool, r: Tree<N>, red: bool)
    requires Distinct(Plug(k, Mk(d, Nil, x, xr, r)))
    ensures Distinct(r) && DistinctC(k) && Nodes(r) !! NodesC(k) && x !in Nodes(r) && x !in NodesC(k)
    ensures Distinct(Plug(k, Repaint(r, red)))
    ensures Nodes(Plug(k, Repaint(r, red))) == Nodes(Plug(k, Mk(d, Nil, x, xr, r))) - {x}
  {
    PlugDistinct(k, Mk(d, Nil, x, xr, r));
    PlugDistinct(k, Repaint(r, red));
    OpenDistinct(d, Nil, x, xr, r);
  }

  lemma {:induction false} UnlinkWired<N>(v: View<N>, u: View<N>, k: Ctx<N>, d: Side, x: N, xr: bool, r: Tree<N>,
                                          red: bool)
    requires Wired(v, Plug(k, Mk(d, Nil, x, xr, r))) && Detached(v, u, k, r, red)
    ensures Wired(u, Plug(k, Repaint(r, red)))
    ensures Nodes(Plug(k, Repaint(r, red))) == Nodes(Plug(k, Mk(d, Nil, x, xr, r))) - {x}
    ensures Ptr(Plug(k, Repaint(r, red))) == if k.Top? then Ptr(r) else Ptr(Plug(k, Mk(d, Nil, x, xr, r)))
  {
    Unseal(v, Plug(k, Mk(d, Nil, x, xr, r)));
    Unseal(u, Plug(k, Repaint(r, red)));
    UnlinkApart(k, d, x, xr, r, red);
    PlugLinked(v, k, Mk(d, Nil, x, xr, r));
    OpenLinked(v, d, Nil, x, xr, r, Parent(k));
    var m := Opt(Parent(k)) + Opt(Ptr(r));
    StillBelow(v, u, m, r);
    StillAbove(v, u, m, k);
    Regraft(v, u, r, Some(x), Parent(k), red);
    Rehole(v, u, k, Some(x), Ptr(r));
    PlugLinked(u, k, Repaint(r, red));
    PlugPtr(k, Mk(d, Nil, x, xr, r), Repaint(r, red));
  }

  /** The fields around a node with at most one child. */
  lemma {:induction false} UnlinkSlots<N>(v: View<N>, k: Ctx<N>, d: Side, x: N, xr: bool, r: Tree<N>)
    requires Wired(v, Plug(k, Mk(d, Nil, x, xr, r)))
    ensures x in v && v[x] == MkCell(d, None, Ptr(r), Parent(k), xr)
    ensures r.T? ==> r.n in v && r.n != x && Ptr(r) != Parent(k)
    ensures k.In? ==> k.n in v && k.n != x && (k.side.Left? <==> v[k.n].left == Some(x))
  {
    Unseal(v, Plug(k, Mk(d, Nil, x, xr, r)));
    var t := Mk(d, Nil, x, xr, r);
    UnlinkApart(k, d, x, xr, r, false);
    PlugLinked(v, k, t);
    OpenLinked(v, d, Nil, x, xr, r, Parent(k));
    if k.In? { Above(v, k, t); }
  }

  /** Case 1 with a right child or none (src/rbtree_augmented.h:154-162). */
  lemma {:induction false} Case1Right<N>(v: View<N>, k: Ctx<N>, x: N, xr: bool, r: Tree<N>)
    requires Wired(v, Plug(k, T(Nil, x, xr, r)))
    ensures x in v
    ensures Detached(v, PutPC(PutChild(v, x, Ptr(r), Parent(k)), Ptr(r), Parent(k), xr), k, r, xr)
  {
    UnlinkSlots(v, k, Left, x, xr, r);
  }

  /** Case 1 with a left child (src/rbtree_augmented.h:163-169). */
  lemma {:induction false} Case1Left<N>(v: View<N>, k: Ctx<N>, x: N, xr: bool, l: Tree<N>)
    requires Wired(v, Plug(k, T(l, x, xr, Nil)))
    ensures x in v
    ensures Detached(v, PutChild(PutPC(v, Ptr(l), Parent(k), xr), x, Ptr(l), Parent(k)), k, l, xr)
  {
    UnlinkSlots(v, k, Right, x, xr, l);
  }

  // ---------------------------------------------------------------- replacing a node

  ghost predicate Replaced<N>(v: View<N>, w: View<N>, c: Ctx<N>, l: Tree<N>, x: N, red: bool, r: Tree<N>, s: N) {
    && Only(v, w, {x, s} + Opt(Ptr(l)) + Opt(Ptr(r)) + Opt(Parent(c))) && s in v
    && w[s] == Cell(Ptr(l), Ptr(r), Parent(c), red)
    && (l.T? ==> l.n in v && w[l.n] == v[l.n].(parent := Some(s)))
    && (r.T? ==> r.n in v && w[r.n] == v[r.n].(parent := Some(s)))
    && (c.In? ==> c.n in v && w[c.n] == WithKid(v[c.n], c.side, Some(s)))
  }

  lemma {:induction false} ReplaceApart<N>(c: Ctx<N>, l: Tree<N>, x: N, red: bool, r: Tree<N>, s: N)
    requires Distinct(Plug(c, T(l, x, red, r))) && s !in Nodes(Plug(c, T(l, x, red, r)))
    ensures Distinct(l) && Distinct(r) && DistinctC(c)
    ensures Nodes(l) !! Nodes(r) && Nodes(l) !! NodesC(c) && Nodes(r) !! NodesC(c)
    ensures x !in Nodes(l) && x !in Nodes(r) && x !in NodesC(c) && x != s
    ensures s !in Nodes(l) && s !in Nodes(r) && s !in NodesC(c)
    ensures Distinct(Plug(c, T(l, s, red, r)))
    ensures Nodes(Plug(c, T(l, s, red, r))) == Nodes(Plug(c, T(l, x, red, r))) - {x} + {s}
  {
    PlugDistinct(c, T(l, x, red, r));
    PlugDistinct(c, T(l, s, red, r));
  }

  lemma {:induction false} ReplaceWired<N>(v: View<N>, w: View<N>, c: Ctx<N>, l: Tree<N>, x: N, red: bool, r: Tree<N>,
                                           s: N)
    requires Wired(v, Plug(c, T(l, x, red, r))) && s !in Nodes(Plug(c, T(l, x, red, r)))
    requires Replaced(v, w, c, l, x, red, r, s)
    ensures Wired(w, Plug(c, T(l, s, red, r)))
    ensures Nodes(Plug(c, T(l, s, red, r))) == Nodes(Plug(c, T(l, x, red, r))) - {x} + {s}
    ensures Ptr(Plug(c, T(l, s, red, r))) == if c.Top? then Some(s) else Ptr(Plug(c, T(l, x, red, r)))
  {
    Unseal(v, Plug(c, T(l, x, red, r)));
    Unseal(w, Plug(c, T(l, s, red, r)));
    ReplaceApart(c, l, x, red, r, s);
    PlugLinked(v, c, T(l, x, red, r));
    var m := {x, s} + Opt(Ptr(l)) + Opt(Ptr(r)) + Opt(Parent(c));
    StillBelow(v, w, m, l);
    StillBelow(v, w, m, r);
    StillAbove(v, w, m, c);
    Regraft(v, w, l, Some(x), Some(s), IsRed(l));
    Regraft(v, w, r, Some(x), Some(s), IsRed(r));
    Rehole(v, w, c, Some(x), Some(s));
    PlugLinked(w, c, T(l, s, red, r));
    PlugPtr(c, T(l, x, red, r), T(l, s, red, r));
  }

  // ---------------------------------------------------------------- two children

  /** `s` takes over from `x` (src/rbtree_augmented.h:213-227); `q` is the parent of its old child `c2`. */
  ghost function Relinked<N>(u: View<N>, x: N, s: N, q: N, c2: Option<N>, l: N, g: Option<N>, xr: bool): View<N> {
    PutPC(PutPC(PutChild(PutParent(PutKid(u, s, Left, Some(l)), Some(l), Some(s)), x, Some(s), g), Some(s), g, xr), c2,
          Some(q), false)
  }

  /** The successor leaves its old place (src/rbtree_augmented.h:206-208). */
  ghost function Lifted<N>(v: View<N>, s: N, q: N, c2: Option<N>, y: N): View<N> {
    PutParent(PutKid(PutKid(v, q, Left, c2), s, Right, Some(y)), Some(y), Some(s))
  }

  /** Case 2: the successor is the right child. */
  ghost function Case2<N>(v: View<N>, x: N, s: N, c2: Option<N>, l: N, g: Option<N>, xr: bool): View<N> {
    Relinked(v, x, s, s, c2, l, g, xr)
  }

  /** Case 3: the successor is further down. */
  ghost function Case3<N>(v: View<N>, x: N, s: N, q: N, c2: Option<N>, y: N, l: N, g: Option<N>, xr: bool): View<N> {
    Relinked(Lifted(v, s, q, c2, y), x, s, q, c2, l, g, xr)
  }

  /** The pointers Case 2 and Case 3 touch are different nodes; `y` is the right child of `x`. */
  ghost predicate Around<N>(v: View<N>, x: N, s: N, c2: Option<N>, y: N, l: N, g: Option<N>, gd: Side) {
    && x in v && s in v && y in v && l in v && x != s && x != y && x != l && s != l && y != l
    && v[s].left == None && v[s].right == c2
    && (c2.Some? ==> c2.value in v && c2.value != x && c2.value != s && c2.value != y && c2.value != l && c2 != g)
    && (g.Some? ==>
       g.value in v && g.value != x && g.value != s && g.value != y && g.value != l
       && (gd.Left? <==> v[g.value].left == Some(x)))
  }

  /** Everything but `x`, whose fields are dead. */
  ghost predicate Settled2<N>(v: View<N>, w: View<N>, x: N, s: N, c2: Option<N>, l: N, g: Option<N>, gd: Side,
                              xr: bool) {
    && Only(v, w, {s, l} + Opt(c2) + Opt(g)) && s in v && l in v
    && w[s] == Cell(Some(l), c2, g, xr)
    && w[l] == v[l].(parent := Some(s))
    && (c2.Some? ==> c2.value in v && w[c2.value] == v[c2.value].(parent := Some(s), red := false))
    && (g.Some? ==> g.value in v && w[g.value] == WithKid(v[g.value], gd, Some(s)))
  }

  lemma Case2Cells<N>(v: View<N>, x: N, s: N, c2: Option<N>, l: N, g: Option<N>, gd: Side, xr: bool)
    requires Around(v, x, s, c2, s, l, g, gd)
    ensures Settled2(v, Case2(v, x, s, c2, l, g, xr), x, s, c2, l, g, gd, xr)
  {
  }

  ghost predicate Settled3<N>(v: View<N>, w: View<N>, x: N, s: N, q: N, c2: Option<N>, y: N, l: N, g: Option<N>,
                              gd: Side, xr: bool) {
    && Only(v, w, {s, l, y, q} + Opt(c2) + Opt(g)) && s in v && l in v && y in v && q in v
    && w[s] == Cell(Some(l), Some(y), g, xr)
    && w[l] == v[l].(parent := Some(s))
    && w[q] == (if q == y then v[q].(left := c2, parent := Some(s)) else v[q].(left := c2))
    && (q != y ==> w[y] == v[y].(parent := Some(s)))
    && (c2.Some? ==> c2.value in v && w[c2.value] == v[c2.value].(parent := Some(q), red := false))
    && (g.Some? ==> g.value in v && w[g.value] == WithKid(v[g.value], gd, Some(s)))
  }

  lemma Case3Cells<N>(v: View<N>, x: N, s: N, q: N, c2: Option<N>, y: N, l: N, g: Option<N>, gd: Side, xr: bool)
    requires Around(v, x, s, c2, y, l, g, gd) && s != y
    requires q in v && q != x && q != s && q != l && Some(q) != c2 && Some(q) != g
    ensures Settled3(v, Case3(v, x, s, q, c2, y, l, g, xr), x, s, q, c2, y, l, g, gd, xr)
  {
    var w := Case3(v, x, s, q, c2, y, l, g, xr);
    assert w[s] == Cell(Some(l), Some(y), g, xr) && w[l] == v[l].(parent := Some(s));
    assert Only(v, w, {s, l, y, q} + Opt(c2) + Opt(g));
  }

  /** The view in which only the successor has been unlinked. */
  ghost function Between<N>(v: View<N>, k: Ctx<N>, r: Tree<N>): View<N>
    requires k.In? && k.n in v && (r.T? ==> r.n in v)
  {
    var u := v[k.n := WithKid(v[k.n], k.side, Ptr(r))];
    if r.T? then u[r.n := v[r.n].(parent := Some(k.n), red := false)] else u
  }

  lemma {:induction false} BetweenDetached<N>(v: View<N>, k: Ctx<N>, r: Tree<N>)
    requires k.In? && k.n in v && (r.T? ==> r.n in v && r.n != k.n)
    ensures Detached(v, Between(v, k, r), k, r, false)
  {
  }

  lemma {:induction false} SuccessorPtr<N>(r: Tree<N>, b: Ctx<N>)
    requires r.T? && r.left.T? && b.In?
    ensures Ptr(DropMin(r)) == Some(r.n) && SpineCtx(r, b).In? && SpineCtx(r, b).side == Left
    decreases r
  {
    SpineIn(r, b);
    if r.left.left.T? { SuccessorPtr(r.left, In(Left, r.n, r.red, r.right, b)); }
  }

  lemma {:induction false} MinNode<N>(r: Tree<N>)
    requires r.T? && Distinct(r)
    ensures MinTree(r).T? && MinTree(r).left.Nil? && Distinct(MinTree(r)) && Nodes(MinTree(r)) <= Nodes(r)
    ensures r.left.T? ==> Nodes(MinTree(r)) <= Nodes(r.left)
  {
    if r.left.T? { MinNode(r.left); }
  }

  /** The fields around the node `x` and its successor. */
  lemma {:induction false} SuccessorAround<N>(v: View<N>, c: Ctx<N>, l: Tree<N>, x: N, xr: bool, r: Tree<N>)
    requires Wired(v, Plug(c, T(l, x, xr, r))) && l.T? && r.T?
    ensures MinTree(r).T?
    ensures Around(v, x, MinTree(r).n, Ptr(MinTree(r).right), r.n, l.n, Parent(c), if c.In? then c.side else Left)
    ensures v[x] == Cell(Some(l.n), Some(r.n), Parent(c), xr)
    ensures r.left.T? ==> r.n != MinTree(r).n
    ensures v[MinTree(r).n].red == MinTree(r).red
  {
    Unseal(v, Plug(c, T(l, x, xr, r)));
    var t := T(l, x, xr, r);
    PlugDistinct(c, t);
    MinNode(r);
    Here(v, c, t);
    if c.In? { Above(v, c, t); }
    var b := In(Right, x, xr, l, c);
    SpinePlug(r, b);
    Here(v, SpineCtx(r, b), MinTree(r));
    PlugLinked(v, SpineCtx(r, b), MinTree(r));
    PlugLinked(v, c, t);
  }

  /** The spine above the successor lies in the right subtree. */
  lemma {:induction false} SpineApart<N>(r: Tree<N>, b: Ctx<N>)
    requires r.T? && r.left.T? && Distinct(r)
    ensures SpineCtx(r, b).In? && SpineCtx(r, b).n in Nodes(r) && SpineCtx(r, b).n !in Nodes(MinTree(r))
    decreases r
  {
    MinNode(r.left);
    if r.left.left.T? { SpineApart(r.left, In(Left, r.n, r.red, r.right, b)); }
  }

  lemma {:induction false} Case2Replaced<N>(v: View<N>, w: View<N>, c: Ctx<N>, l: Tree<N>, x: N, xr: bool, r: Tree<N>)
    requires l.T? && r.T? && r.left.Nil?
    requires Around(v, x, r.n, Ptr(r.right), r.n, l.n, Parent(c), if c.In? then c.side else Left)
    requires Settled2(v, w, x, r.n, Ptr(r.right), l.n, Parent(c), if c.In? then c.side else Left, xr)
    ensures Replaced(Between(v, In(Right, x, xr, l, c), r.right), w, c, l, x, xr, Repaint(r.right, false), r.n)
  {
  }

  lemma {:induction false} Case3Replaced<N>(v: View<N>, w: View<N>, c: Ctx<N>, l: Tree<N>, x: N, xr: bool, r: Tree<N>,
                                            k: Ctx<N>)
    requires l.T? && r.T? && MinTree(r).T? && Ptr(DropMin(r)) == Some(r.n)
    requires k.In? && k.side == Left && k.n in v && k.n != x && k.n != MinTree(r).n && k.n != l.n
    requires Some(k.n) != Ptr(MinTree(r).right) && Some(k.n) != Parent(c) && r.n != MinTree(r).n
    requires Around(v, x, MinTree(r).n, Ptr(MinTree(r).right), r.n, l.n, Parent(c), if c.In? then c.side else Left)
    requires Settled3(v, w, x, MinTree(r).n, k.n, Ptr(MinTree(r).right), r.n, l.n, Parent(c),
                      if c.In? then c.side else Left, xr)
    ensures Replaced(Between(v, k, MinTree(r).right), w, c, l, x, xr, DropMin(r), MinTree(r).n)
  {
  }

  lemma {:induction false} SuccessorUnlink<N>(v: View<N>, c: Ctx<N>, l: Tree<N>, x: N, xr: bool, r: Tree<N>, k: Ctx<N>)
    requires Wired(v, Plug(c, T(l, x, xr, r))) && r.T? && k == SpineCtx(r, In(Right, x, xr, l, c)) && k.In?
    requires MinTree(r).T? && k.n in v && (MinTree(r).right.T? ==> MinTree(r).right.n in v && MinTree(r).right.n != k.n)
    ensures Wired(Between(v, k, MinTree(r).right), Plug(c, T(l, x, xr, DropMin(r))))
    ensures Nodes(Plug(c, T(l, x, xr, DropMin(r)))) == Nodes(Plug(c, T(l, x, xr, r))) - {MinTree(r).n}
    ensures MinTree(r).n in Nodes(Plug(c, T(l, x, xr, r))) && MinTree(r).n != x
    ensures c.In? ==> Ptr(Plug(c, T(l, x, xr, DropMin(r)))) == Ptr(Plug(c, T(l, x, xr, r)))
  {
    Unseal(v, Plug(c, T(l, x, xr, r)));
    var m, b := MinTree(r), In(Right, x, xr, l, c);
    SpinePlug(r, b);
    BetweenDetached(v, k, m.right);
    UnlinkWired(v, Between(v, k, m.right), k, Left, m.n, m.red, m.right, false);
    PlugDistinct(c, T(l, x, xr, r));
    MinNode(r);
    PlugPtr(c, T(l, x, xr, r), T(l, x, xr, DropMin(r)));
  }

  lemma {:induction false} SuccessorReplace<N>(v: View<N>, w: View<N>, c: Ctx<N>, l: Tree<N>, x: N, xr: bool,
                                               r: Tree<N>, k: Ctx<N>)
    requires Wired(v, Plug(c, T(l, x, xr, r))) && r.T? && k == SpineCtx(r, In(Right, x, xr, l, c)) && k.In?
    requires MinTree(r).T? && k.n in v && (MinTree(r).right.T? ==> MinTree(r).right.n in v && MinTree(r).right.n != k.n)
    requires Replaced(Between(v, k, MinTree(r).right), w, c, l, x, xr, DropMin(r), MinTree(r).n)
    ensures Wired(w, Plug(c, T(l, MinTree(r).n, xr, DropMin(r))))
    ensures Nodes(Plug(c, T(l, MinTree(r).n, xr, DropMin(r)))) == Nodes(Plug(c, T(l, x, xr, r))) - {x}
    ensures Ptr(Plug(c, T(l, MinTree(r).n, xr, DropMin(r)))) == if c.Top? then Some(MinTree(r).n)
      else Ptr(Plug(c, T(l, x, xr, r)))
  {
    SuccessorUnlink(v, c, l, x, xr, r, k);
    ReplaceWired(Between(v, k, MinTree(r).right), w, c, l, x, xr, DropMin(r), MinTree(r).n);
  }

  lemma {:induction false} Case2Wired<N>(v: View<N>, c: Ctx<N>, l: Tree<N>, x: N, xr: bool, r: Tree<N>)
    requires Wired(v, Plug(c, T(l, x, xr, r))) && l.T? && r.T? && r.left.Nil?
    ensures var t := Plug(c, T(l, r.n, xr, DropMin(r)));
      && Wired(Case2(v, x, r.n, Ptr(r.right), l.n, Parent(c), xr), t)
      && Nodes(t) == Nodes(Plug(c, T(l, x, xr, r))) - {x}
      && Ptr(t) == if c.Top? then Some(r.n) else Ptr(Plug(c, T(l, x, xr, r)))
  {
    var w := Case2(v, x, r.n, Ptr(r.right), l.n, Parent(c), xr);
    SuccessorAround(v, c, l, x, xr, r);
    Case2Cells(v, x, r.n, Ptr(r.right), l.n, Parent(c), if c.In? then c.side else Left, xr);
    Case2Replaced(v, w, c, l, x, xr, r);
    SuccessorReplace(v, w, c, l, x, xr, r, In(Right, x, xr, l, c));
  }

  lemma {:induction false} Case3Wired<N>(v: View<N>, c: Ctx<N>, l: Tree<N>, x: N, xr: bool, r: Tree<N>)
    requires Wired(v, Plug(c, T(l, x, xr, r))) && l.T? && r.T? && r.left.T?
    ensures MinTree(r).T? && SpineCtx(r, In(Right, x, xr, l, c)).In?
    ensures var t := Plug(c, T(l, MinTree(r).n, xr, DropMin(r)));
      && Wired(Case3(v, x, MinTree(r).n, SpineCtx(r, In(Right, x, xr, l, c)).n, Ptr(MinTree(r).right), r.n, l.n,
                     Parent(c), xr), t)
      && Nodes(t) == Nodes(Plug(c, T(l, x, xr, r))) - {x}
      && Ptr(t) == if c.Top? then Some(MinTree(r).n) else Ptr(Plug(c, T(l, x, xr, r)))
  {
    Unseal(v, Plug(c, T(l, x, xr, r)));
    var b := In(Right, x, xr, l, c);
    var k, m := SpineCtx(r, b), MinTree(r);
    PlugDistinct(c, T(l, x, xr, r));
    SuccessorAround(v, c, l, x, xr, r);
    SpineApart(r, b);
    SuccessorPtr(r, b);
    SpinePlug(r, b);
    MinNode(r);
    Above(v, k, m);
    var gd := if c.In? then c.side else Left;
    Case3Cells(v, x, m.n, k.n, Ptr(m.right), r.n, l.n, Parent(c), gd, xr);
    var w := Case3(v, x, m.n, k.n, Ptr(m.right), r.n, l.n, Parent(c), xr);
    Case3Replaced(v, w, c, l, x, xr, r, k);
    SuccessorReplace(v, w, c, l, x, xr, r, k);
  }
}

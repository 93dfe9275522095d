/**
 Augmented red-black trees (src/rbtree_augmented.h:40-96): every node stores a value
 computed from its own contents and the values stored in its children.  Here the
 computation is a fold with an associative operation, and `Consistent` says that every
 stored value is up to date.
 */
module RbAugment {
  import opened RbTrees
  import opened RbLinks

  datatype Fold<!N, !A> = Fold(unit: A, op: (A, A) -> A, of: N -> A) {

    /** What `rbcompute` returns for a node whose children store `a` and `b`. */
    function At(a: A, n: N, b: A): A {
      op(op(a, of(n)), b)
    }
  }

  ghost predicate Lawful<A(!new)>(unit: A, op: (A, A) -> A) {
    && (forall a, b, c :: op(op(a, b), c) == op(a, op(b, c)))
    && (forall a :: op(unit, a) == a && op(a, unit) == a)
  }

  ghost predicate Has<N, A>(m: map<N, A>, t: Tree<N>) {
    t.T? ==> t.n in m
  }

  ghost function Stored<N, A>(f: Fold<N, A>, m: map<N, A>, t: Tree<N>): A
    requires Has(m, t)
  {
    if t.Nil? then f.unit else m[t.n]
  }

  ghost predicate Consistent<N, A>(f: Fold<N, A>, m: map<N, A>, t: Tree<N>) {
    t.T? ==>
      && t.n in m && Has(m, t.left) && Has(m, t.right)
      && m[t.n] == f.At(Stored(f, m, t.left), t.n, Stored(f, m, t.right))
      && Consistent(f, m, t.left) && Consistent(f, m, t.right)
  }

  /** The value of node `n` when the child on side `d` stores `near` and the other one `far`. */
  ghost function AtSide<N, A>(f: Fold<N, A>, d: Side, near: A, n: N, far: A): A {
    if d.Left? then f.At(near, n, far) else f.At(far, n, near)
  }

  ghost predicate ConsistentC<N, A>(f: Fold<N, A>, m: map<N, A>, c: Ctx<N>, hole: A) {
    c.In? ==>
      && c.n in m && Has(m, c.other)
      && m[c.n] == AtSide(f, c.side, hole, c.n, Stored(f, m, c.other))
      && Consistent(f, m, c.other) && ConsistentC(f, m, c.up, m[c.n])
  }

  /** Everything around the hole is up to date except possibly the node just above it. */
  ghost predicate ConsistentAbove<N, A>(f: Fold<N, A>, m: map<N, A>, c: Ctx<N>) {
    c.In? ==> c.n in m && Has(m, c.other) && Consistent(f, m, c.other) && ConsistentC(f, m, c.up, m[c.n])
  }

  lemma {:induction false} OpenConsistent<N, A>(f: Fold<N, A>, m: map<N, A>, d: Side, a: Tree<N>, x: N, red: bool,
                                                b: Tree<N>)
    ensures Consistent(f, m, Mk(d, a, x, red, b)) <==>
              && x in m && Has(m, a) && Has(m, b) && Consistent(f, m, a) && Consistent(f, m, b)
              && m[x] == AtSide(f, d, Stored(f, m, a), x, Stored(f, m, b))
  {
    if d.Left? {} else {}
  }

  lemma {:induction false} PlugConsistent<N, A>(f: Fold<N, A>, m: map<N, A>, c: Ctx<N>, t: Tree<N>)
    ensures Consistent(f, m, Plug(c, t)) <==>
              Consistent(f, m, t) && Has(m, t) && ConsistentC(f, m, c, Stored(f, m, t))
    decreases c
  {
    if c.In? {
      var s := Mk(c.side, t, c.n, c.red, c.other);
      PlugConsistent(f, m, c.up, s);
      OpenConsistent(f, m, c.side, t, c.n, c.red, c.other);
      if c.side.Left? {} else {}
    }
  }

  /**
   The operation is lawful and every stored value of `t` is up to date; under a
   quantifier that keeps the verifier from unfolding it at every heap update.
   */
  ghost predicate Upkept<N, A(!new)>(f: Fold<N, A>, m: map<N, A>, t: Tree<N>) {
    forall k: Seal :: BrokenUp(k, f, m, t)
  }

  ghost predicate BrokenUp<N, A(!new)>(k: Seal, f: Fold<N, A>, m: map<N, A>, t: Tree<N>) {
    Lawful(f.unit, f.op) && Consistent(f, m, t)
  }

  lemma {:induction false} UnsealUp<N, A(!new)>(f: Fold<N, A>, m: map<N, A>, t: Tree<N>)
    ensures Upkept(f, m, t) <==> Lawful(f.unit, f.op) && Consistent(f, m, t)
  {
    var ok := Lawful(f.unit, f.op) && Consistent(f, m, t);
    assert BrokenUp(Seal, f, m, t) == ok;
    if ok {
      forall k: Seal ensures BrokenUp(k, f, m, t) {}
    }
  }

  // ---------------------------------------------------------------- meaning

  ghost function FoldSeq<N, A>(f: Fold<N, A>, s: seq<N>): A {
    if s == [] then f.unit else f.op(f.of(s[0]), FoldSeq(f, s[1..]))
  }

  lemma {:induction false} FoldConcat<N, A(!new)>(f: Fold<N, A>, s: seq<N>, t: seq<N>)
    requires Lawful(f.unit, f.op)
    ensures FoldSeq(f, s + t) == f.op(FoldSeq(f, s), FoldSeq(f, t))
  {
    if s == [] {
      assert s + t == t;
    } else {
      assert (s + t)[1..] == s[1..] + t;
      FoldConcat(f, s[1..], t);
    }
  }

  /** A consistent tree stores, at its root, the fold of the in-order sequence below it. */
  lemma {:induction false} ConsistentIsFold<N, A(!new)>(f: Fold<N, A>, m: map<N, A>, t: Tree<N>)
    requires Lawful(f.unit, f.op) && Consistent(f, m, t) && Has(m, t)
    ensures Stored(f, m, t) == FoldSeq(f, Inorder(t))
  {
    if t.T? {
      ConsistentIsFold(f, m, t.left);
      ConsistentIsFold(f, m, t.right);
      FoldConcat(f, Inorder(t.left) + [t.n], Inorder(t.right));
      FoldConcat(f, Inorder(t.left), [t.n]);
      assert FoldSeq(f, [t.n]) == f.op(f.of(t.n), FoldSeq(f, []));
    }
  }

  // ---------------------------------------------------------------- frames

  ghost predicate Agree<N, A>(m: map<N, A>, w: map<N, A>, s: set<N>) {
    forall n :: n in s && n in m ==> n in w && w[n] == m[n]
  }

  lemma {:induction false} FrameConsistent<N, A>(f: Fold<N, A>, m: map<N, A>, w: map<N, A>, t: Tree<N>)
    requires Consistent(f, m, t) && Has(m, t) && Agree(m, w, Nodes(t))
    ensures Consistent(f, w, t) && Has(w, t) && Stored(f, w, t) == Stored(f, m, t)
  {
    if t.T? {
      FrameConsistent(f, m, w, t.left);
      FrameConsistent(f, m, w, t.right);
    }
  }

  lemma {:induction false} FrameConsistentC<N, A>(f: Fold<N, A>, m: map<N, A>, w: map<N, A>, c: Ctx<N>, hole: A)
    requires ConsistentC(f, m, c, hole) && Agree(m, w, NodesC(c))
    ensures ConsistentC(f, w, c, hole)
  {
    if c.In? {
      FrameConsistent(f, m, w, c.other);
      FrameConsistentC(f, m, w, c.up, m[c.n]);
    }
  }

  lemma {:induction false} PaintUpkept<N, A(!new)>(f: Fold<N, A>, m: map<N, A>, c: Ctx<N>, t: Tree<N>, red: bool)
    requires Upkept(f, m, Plug(c, t))
    ensures Upkept(f, m, Plug(c, Repaint(t, red)))
  {
    UnsealUp(f, m, Plug(c, t));
    UnsealUp(f, m, Plug(c, Repaint(t, red)));
    PlugConsistent(f, m, c, t);
    PlugConsistent(f, m, c, Repaint(t, red));
  }

  // ---------------------------------------------------------------- rotations

  ghost predicate Rotates<N, A>(f: Fold<N, A>, d: Side, a: A, x: N, b: A, y: N, c: A) {
    AtSide(f, d, AtSide(f, d, a, x, b), y, c) == AtSide(f, d, a, x, AtSide(f, d, b, y, c))
  }

  lemma Exchange<N, A(!new)>(f: Fold<N, A>, d: Side, a: A, x: N, b: A, y: N, c: A)
    requires Lawful(f.unit, f.op)
    ensures Rotates(f, d, a, x, b, y, c)
  {
    if d.Left? {} else {}
  }

  lemma {:induction false} SpinConsistentLocal<N, A(!new)>(f: Fold<N, A>, m: map<N, A>, w: map<N, A>, s: Spin<N>,
                                                           xr: bool, yr: bool,
                                                     ar': bool, xr': bool, yr': bool)
    requires s.Apart() && Consistent(f, m, s.Old(xr, yr))
    requires Has(m, s.a) && Has(m, s.b) && Has(m, s.c) && s.y in m
    requires Rotates(f, s.d, Stored(f, m, s.a), s.x, Stored(f, m, s.b), s.y, Stored(f, m, s.c))
    requires w == m[s.x := m[s.y]][s.y := AtSide(f, s.d, Stored(f, m, s.b), s.y, Stored(f, m, s.c))]
    ensures Consistent(f, w, s.New(ar', xr', yr')) && Has(w, s.New(ar', xr', yr'))
    ensures w[s.x] == m[s.y]
  {
    OpenConsistent(f, m, s.d, Mk(s.d, s.a, s.x, xr, s.b), s.y, yr, s.c);
    OpenConsistent(f, m, s.d, s.a, s.x, xr, s.b);
    FrameConsistent(f, m, w, s.a);
    FrameConsistent(f, m, w, s.b);
    FrameConsistent(f, m, w, s.c);
    OpenConsistent(f, w, s.d, s.b, s.y, yr', s.c);
    OpenConsistent(f, w, s.d, Repaint(s.a, ar'), s.x, xr', Mk(s.d, s.b, s.y, yr', s.c));
  }

  lemma {:induction false} Replant<N, A>(f: Fold<N, A>, m: map<N, A>, w: map<N, A>, c: Ctx<N>, s: Tree<N>, t: Tree<N>)
    requires Consistent(f, m, Plug(c, s)) && Consistent(f, w, t) && Agree(m, w, NodesC(c))
    requires Has(m, s) && Has(w, t) && Stored(f, w, t) == Stored(f, m, s)
    ensures Consistent(f, w, Plug(c, t))
  {
    PlugConsistent(f, m, c, s);
    FrameConsistentC(f, m, w, c, Stored(f, m, s));
    PlugConsistent(f, w, c, t);
  }

  /** A single rotation keeps every stored value up to date. */
  lemma {:induction false} SpinUpkept<N, A(!new)>(f: Fold<N, A>, m: map<N, A>, w: map<N, A>, s: Spin<N>, xr: bool,
                                                  yr: bool,
                                                  ar': bool, xr': bool, yr': bool)
    requires Distinct(Plug(s.up, s.Old(xr, yr))) && Upkept(f, m, Plug(s.up, s.Old(xr, yr)))
    requires Has(m, s.b) && Has(m, s.c) && s.y in m
    requires w == m[s.x := m[s.y]][s.y := AtSide(f, s.d, Stored(f, m, s.b), s.y, Stored(f, m, s.c))]
    ensures Upkept(f, w, Plug(s.up, s.New(ar', xr', yr')))
  {
    UnsealUp(f, m, Plug(s.up, s.Old(xr, yr)));
    UnsealUp(f, w, Plug(s.up, s.New(ar', xr', yr')));
    SpinApart(s, xr, yr);
    PlugConsistent(f, m, s.up, s.Old(xr, yr));
    OpenConsistent(f, m, s.d, Mk(s.d, s.a, s.x, xr, s.b), s.y, yr, s.c);
    OpenConsistent(f, m, s.d, s.a, s.x, xr, s.b);
    Exchange(f, s.d, Stored(f, m, s.a), s.x, Stored(f, m, s.b), s.y, Stored(f, m, s.c));
    SpinConsistentLocal(f, m, w, s, xr, yr, ar', xr', yr');
    assert Ptr(s.Old(xr, yr)) == Some(s.y) && Ptr(s.New(ar', xr', yr')) == Some(s.x);
    Replant(f, m, w, s.up, s.Old(xr, yr), s.New(ar', xr', yr'));
  }
}

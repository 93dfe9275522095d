/**
 One rebalancing case after the other: a snapshot of the heap represents a tree, and
 each lemma of this module says which tree the snapshot represents after the
 assignments of one case of src/rbtree.c.
 */
module RbState {
  import opened RbTrees
  import opened RbLinks
  import opened RbCases
  import opened RbSteps
  import opened RbAugment

  /** The fields of all nodes, their augmented values, and the root pointer. */
  datatype Shot<N, A> = Shot(v: View<N>, m: map<N, A>, r: Option<N>)

  /** What stays the same during rebalancing: the nodes, their order, and (if asked) the augmentation. */
  datatype Fixed<!N, !A> = Fixed(f: Fold<N, A>, nodes: set<N>, order: seq<N>, up: bool)

  ghost predicate Sound<N, A(!new)>(x: Fixed<N, A>, h: Shot<N, A>, t: Tree<N>) {
    && Wired(h.v, t) && h.r == Ptr(t)
    && Nodes(t) == x.nodes && Inorder(t) == x.order
    && h.m.Keys == x.nodes
    && (x.up ==> Upkept(x.f, h.m, t))
  }

  ghost predicate BrokenState<N, A(!new)>(k: Seal, x: Fixed<N, A>, h: Shot<N, A>, t: Tree<N>) {
    Sound(x, h, t)
  }

  /** `Sound`, under a quantifier that keeps the verifier from unfolding it at every step. */
  ghost predicate Holds<N, A(!new)>(x: Fixed<N, A>, h: Shot<N, A>, t: Tree<N>) {
    forall k: Seal :: BrokenState(k, x, h, t)
  }

  lemma {:induction false} Reveal<N, A(!new)>(x: Fixed<N, A>, h: Shot<N, A>, t: Tree<N>)
    ensures Holds(x, h, t) <==> Sound(x, h, t)
  {
    var ok := Sound(x, h, t);
    assert BrokenState(Seal, x, h, t) == ok;
    if ok {
      forall k: Seal ensures BrokenState(k, x, h, t) {}
    }
  }

  /** What can be read at and above the hole. */
  lemma {:induction false} Look<N, A(!new)>(x: Fixed<N, A>, h: Shot<N, A>, c: Ctx<N>, t: Tree<N>)
    requires Holds(x, h, Plug(c, t))
    ensures h.r == Ptr(Plug(c, t))
    ensures t.T? ==> t.n in x.nodes && t.n in h.v && h.v[t.n] == Cell(Ptr(t.left), Ptr(t.right), Parent(c), t.red)
    ensures c.In? ==>
      c.n in x.nodes && c.n in h.v && h.v[c.n] == MkCell(c.side, Ptr(t), Ptr(c.other), Parent(c.up), c.red)
    ensures c.In? && t.T? ==> c.n != t.n && Ptr(c.other) != Ptr(t)
  {
    Reveal(x, h, Plug(c, t));
    PlugDistinct(c, t);
    if t.T? { Here(h.v, c, t); }
    if c.In? { Above(h.v, c, t); }
  }

  ghost predicate In0<N>(p: Option<N>, s: set<N>) {
    p.Some? ==> p.value in s
  }

  /** The pointers read at and above the hole lead to nodes of the tree. */
  lemma {:induction false} LookPtr<N, A(!new)>(x: Fixed<N, A>, h: Shot<N, A>, c: Ctx<N>, t: Tree<N>)
    requires Holds(x, h, Plug(c, t))
    ensures In0(Ptr(t), x.nodes) && In0(Parent(c), x.nodes)
    ensures t.T? ==> In0(Ptr(t.left), x.nodes) && In0(Ptr(t.right), x.nodes)
    ensures t.T? ==> Parent(c) != Some(t.n) && Ptr(t.left) != Some(t.n) && Ptr(t.right) != Some(t.n)
    ensures c.In? ==> In0(Ptr(c.other), x.nodes) && Ptr(c.other) != Some(c.n)
    ensures c.In? ==> In0(Parent(c.up), x.nodes) && Parent(c.up) != Some(c.n)
  {
    Reveal(x, h, Plug(c, t));
    Unseal(h.v, Plug(c, t));
    PlugDistinct(c, t);
  }

  /** The colour of the sibling of the hole. */
  lemma {:induction false} Uncle<N, A(!new)>(x: Fixed<N, A>, h: Shot<N, A>, c: Ctx<N>, t: Tree<N>)
    requires Holds(x, h, Plug(c, t)) && c.In?
    ensures c.other.T? ==> c.other.n in x.nodes && c.other.n in h.v && h.v[c.other.n].red == c.other.red
  {
    Reveal(x, h, Plug(c, t));
    Unseal(h.v, Plug(c, t));
    PlugLinked(h.v, c, t);
    PlugDistinct(c, t);
  }

  /** The children of the sibling of the hole, and their colours. */
  lemma {:induction false} SiblingKids<N, A(!new)>(x: Fixed<N, A>, h: Shot<N, A>, c: Ctx<N>, t: Tree<N>)
    requires Holds(x, h, Plug(c, t)) && c.In? && c.other.T?
    ensures c.n in x.nodes && c.other.n in x.nodes && c.other.n in h.v
    ensures h.v[c.other.n] == Cell(Ptr(c.other.left), Ptr(c.other.right), Some(c.n), c.other.red)
    ensures c.other.left.T? ==>
      c.other.left.n in x.nodes && c.other.left.n in h.v && h.v[c.other.left.n].red == c.other.left.red
    ensures c.other.right.T? ==>
      c.other.right.n in x.nodes && c.other.right.n in h.v && h.v[c.other.right.n].red == c.other.right.red
  {
    Reveal(x, h, Plug(c, t));
    Unseal(h.v, Plug(c, t));
    PlugLinked(h.v, c, t);
    PlugDistinct(c, t);
    var o := c.other;
    assert Nodes(o) <= x.nodes && Linked(h.v, o, Some(c.n));
    assert Nodes(o.left) <= Nodes(o) && Nodes(o.right) <= Nodes(o);
    assert Linked(h.v, o.left, Some(o.n)) && Linked(h.v, o.right, Some(o.n));
  }

  lemma {:induction false} PaintState<N, A(!new)>(x: Fixed<N, A>, h: Shot<N, A>, c: Ctx<N>, t: Tree<N>, red: bool)
    requires Holds(x, h, Plug(c, t)) && t.T?
    ensures Holds(x, h.(v := PutPC(h.v, Some(t.n), Parent(c), red)), Plug(c, Repaint(t, red)))
  {
    Reveal(x, h, Plug(c, t));
    Reveal(x, h.(v := PutPC(h.v, Some(t.n), Parent(c), red)), Plug(c, Repaint(t, red)));
    PaintWired(h.v, c, t, red);
    PaintInorder(c, t, red);
    if x.up { PaintUpkept(x.f, h.m, c, t, red); }
  }

  lemma {:induction false} FlipState<N, A(!new)>(x: Fixed<N, A>, h: Shot<N, A>, c: Ctx<N>, t: Tree<N>)
    requires Holds(x, h, Plug(c, t)) && c.In? && c.up.In? && c.up.other.T?
    ensures c.n in x.nodes && c.up.n in x.nodes && c.up.other.n in x.nodes
    ensures c.n in h.v && c.up.n in h.v && c.up.other.n in h.v && c.n != c.up.n && c.up.n != c.up.other.n
    ensures Holds(x, h.(v := FlipPut(h.v, c.up.other.n, c.n, c.up.n)), Plug(c.up.up, Flipped(c, t)))
  {
    Reveal(x, h, Plug(c, t));
    FlipWired(h.v, c, t);
    Reveal(x, h.(v := FlipPut(h.v, c.up.other.n, c.n, c.up.n)), Plug(c.up.up, Flipped(c, t)));
    FlipInorder(c, t);
    PlugDistinct(c, t);
    PlugDistinct(c.up, Mk(c.side, t, c.n, c.red, c.other));
    if x.up { FlipUpkept(x.f, h.m, c, t); }
  }

  /** The root pointer after `x` has taken the place of `y` (src/rbtree_augmented.h:126-132). */
  ghost function NewRoot<N, A>(h: Shot<N, A>, y: N, x: N): Option<N>
    requires y in h.v
  {
    if h.v[y].parent.None? then Some(x) else h.r
  }

  ghost function AugPtr<N, A>(f: Fold<N, A>, m: map<N, A>, p: Option<N>): A {
    if p.Some? && p.value in m then m[p.value] else f.unit
  }

  /** The augmented values after the rotate callback on `y` and `x`, where `v` holds the children of `y`. */
  ghost function RotateAug<N, A>(f: Fold<N, A>, m: map<N, A>, v: View<N>, y: N, x: N): map<N, A>
  {
    if y !in m || y !in v then m
    else
      var n := m[x := m[y]];
      n[y := f.At(AugPtr(f, n, v[y].left), y, AugPtr(f, n, v[y].right))]
  }

  lemma {:induction false} SpinMembers<N>(s: Spin<N>, xr: bool, yr: bool)
    ensures var n := Nodes(Plug(s.up, s.Old(xr, yr)));
      s.x in n && s.y in n && Nodes(s.a) <= n && Nodes(s.b) <= n && Nodes(s.c) <= n && NodesC(s.up) <= n
  {
    SpinApart(s, xr, yr);
  }

  /** After a rotation, `y` has the children `b` and `c`. */
  lemma {:induction false} SpinCell<N>(s: Spin<N>, w: View<N>, ar: bool, xr: bool, yr: bool)
    requires Wired(w, Plug(s.up, s.New(ar, xr, yr)))
    ensures s.y in w && w[s.y] == MkCell(s.d, Ptr(s.b), Ptr(s.c), Some(s.x), yr)
  {
    Unseal(w, Plug(s.up, s.New(ar, xr, yr)));
    PlugLinked(w, s.up, s.New(ar, xr, yr));
    OpenLinked(w, s.d, Repaint(s.a, ar), s.x, xr, Mk(s.d, s.b, s.y, yr, s.c), Parent(s.up));
    OpenLinked(w, s.d, s.b, s.y, yr, s.c, Some(s.x));
  }

  /** Insert Case 3 and erase Case 1, as one step. */
  ghost function TurnShot<N, A>(f: Fold<N, A>, h: Shot<N, A>, d: Side, x: N, y: N, b: Option<N>, red: bool): Shot<N, A>
    requires x in h.v && y in h.v
  {
    var w := Turn(h.v, d, x, y, b, red);
    Shot(w, RotateAug(f, h.m, w, y, x), NewRoot(h, y, x))
  }

  lemma {:induction false} TurnState<N, A(!new)>(x: Fixed<N, A>, h: Shot<N, A>, s: Spin<N>, xr: bool, yr: bool,
                                                 yr': bool)
    requires Holds(x, h, Plug(s.up, s.Old(xr, yr))) && !IsRed(s.b)
    ensures s.x in h.v && s.y in h.v && s.x in x.nodes && s.y in x.nodes && s.x != s.y
    ensures Kid(h.v[s.x], Flip(s.d)) == Ptr(s.b) && Kid(h.v[s.y], Flip(s.d)) == Ptr(s.c)
      && h.v[s.y].parent == Parent(s.up)
    ensures In0(Ptr(s.b), x.nodes) && In0(Ptr(s.c), x.nodes) && In0(Parent(s.up), x.nodes)
    ensures Ptr(s.b) != Some(s.y) && Parent(s.up) != Some(s.y)
    ensures Holds(x, TurnShot(x.f, h, s.d, s.x, s.y, Ptr(s.b), yr'), Plug(s.up, s.New(IsRed(s.a), yr, yr')))
  {
    Reveal(x, h, Plug(s.up, s.Old(xr, yr)));
    SpinMembers(s, xr, yr);
    TurnWired(s, h.v, xr, yr, yr');
    SpinSlots(s, h.v, xr, yr);
    var w := Turn(h.v, s.d, s.x, s.y, Ptr(s.b), yr');
    var g := TurnShot(x.f, h, s.d, s.x, s.y, Ptr(s.b), yr');
    SpinCell(s, w, IsRed(s.a), yr, yr');
    SpinInorder(s, xr, yr, IsRed(s.a), yr, yr');
    if x.up {
      Unseal(h.v, Plug(s.up, s.Old(xr, yr)));
      KidMk(w, s.d, s.y, Ptr(s.b), Ptr(s.c));
      SpinMap(x.f, h.m, w, s, xr, yr, IsRed(s.a), yr, yr');
    }
    Reveal(x, g, Plug(s.up, s.New(IsRed(s.a), yr, yr')));
  }

  /** What one call of the rotate callback computes, on maps alone. */
  lemma {:induction false} SpinMap<N, A(!new)>(f: Fold<N, A>, m: map<N, A>, u: View<N>, s: Spin<N>, xr: bool, yr: bool,
                                               ar': bool, xr': bool, yr': bool)
    requires Distinct(Plug(s.up, s.Old(xr, yr))) && Upkept(f, m, Plug(s.up, s.Old(xr, yr)))
    requires m.Keys == Nodes(Plug(s.up, s.Old(xr, yr))) && s.y in u
    requires Kid(u[s.y], s.d) == Ptr(s.b) && Kid(u[s.y], Flip(s.d)) == Ptr(s.c)
    ensures Upkept(f, RotateAug(f, m, u, s.y, s.x), Plug(s.up, s.New(ar', xr', yr')))
    ensures RotateAug(f, m, u, s.y, s.x).Keys == m.Keys
  {
    SpinMembers(s, xr, yr);
    SpinApart(s, xr, yr);
    var w := RotateAug(f, m, u, s.y, s.x);
    assert w == m[s.x := m[s.y]][s.y := AtSide(f, s.d, Stored(f, m, s.b), s.y, Stored(f, m, s.c))] by {
      if s.d.Left? {} else {}
    }
    SpinUpkept(f, m, w, s, xr, yr, ar', xr', yr');
  }

  /** The two calls of the rotate callback in a double rotation. */
  lemma {:induction false} TwistMap<N, A(!new)>(f: Fold<N, A>, m: map<N, A>, u: View<N>, w: View<N>, s: Twist<N>,
                                                xr: bool, zr: bool, yr: bool, xr': bool, zr': bool, yr': bool)
    requires Distinct(Plug(s.up, s.Old(xr, zr, yr))) && Upkept(f, m, Plug(s.up, s.Old(xr, zr, yr)))
    requires m.Keys == Nodes(Plug(s.up, s.Old(xr, zr, yr))) && s.x in u && s.y in w
    requires Kid(u[s.x], s.d) == Ptr(s.a) && Kid(u[s.x], Flip(s.d)) == Ptr(s.b)
    requires Kid(w[s.y], s.d) == Ptr(s.c) && Kid(w[s.y], Flip(s.d)) == Ptr(s.e)
    ensures Upkept(f, RotateAug(f, RotateAug(f, m, u, s.x, s.z), w, s.y, s.z), Plug(s.up, s.New(xr', zr', yr')))
    ensures RotateAug(f, RotateAug(f, m, u, s.x, s.z), w, s.y, s.z).Keys == m.Keys
  {
    var i, j := FirstSpin(s, yr), SecondSpin(s, xr');
    TwistSpins(s, xr, zr, yr, xr', zr', yr');
    assert Flip(Flip(s.d)) == s.d;
    SpinMap(f, m, u, i, zr, xr, IsRed(s.c), zr, xr');
    SpinApart(i, zr, xr);
    SpinApartNew(i, IsRed(s.c), zr, xr');
    SpinMap(f, RotateAug(f, m, u, s.x, s.z), w, j, zr, yr, xr', zr', yr');
  }

  /** Insert Case 2, as one step. */
  ghost function BendShot<N, A>(f: Fold<N, A>, h: Shot<N, A>, d: Side, x: N, z: N, b: Option<N>): Shot<N, A> {
    var u := Bend(h.v, d, x, z, b);
    Shot(u, RotateAug(f, h.m, u, x, z), h.r)
  }

  /** After a double rotation, `x` and `y` have the children `a`, `b` and `c`, `e`. */
  lemma {:induction false} TwistCells<N>(s: Twist<N>, w: View<N>, xr: bool, zr: bool, yr: bool)
    requires Wired(w, Plug(s.up, s.New(xr, zr, yr)))
    ensures s.y in w && w[s.y] == MkCell(s.d, Ptr(s.c), Ptr(s.e), Some(s.z), yr)
  {
    Unseal(w, Plug(s.up, s.New(xr, zr, yr)));
    PlugLinked(w, s.up, s.New(xr, zr, yr));
    OpenLinked(w, s.d, Mk(s.d, s.a, s.x, xr, s.b), s.z, zr, Mk(s.d, s.c, s.y, yr, s.e), Parent(s.up));
    OpenLinked(w, s.d, s.c, s.y, yr, s.e, Some(s.z));
  }

  lemma {:induction false} TwistMembers<N>(s: Twist<N>, xr: bool, zr: bool, yr: bool)
    ensures var n := Nodes(Plug(s.up, s.Old(xr, zr, yr)));
      s.x in n && s.y in n && s.z in n && Nodes(s.a) <= n && Nodes(s.b) <= n && Nodes(s.c) <= n && Nodes(s.e) <= n
        && NodesC(s.up) <= n
  {
    TwistApart(s, xr, zr, yr);
  }

  /** Any double rotation of the fields, through `u` to `w`, with the two calls of the callback. */
  lemma {:induction false} TwistState<N, A(!new)>(x: Fixed<N, A>, h: Shot<N, A>, s: Twist<N>, u: View<N>, w: View<N>,
                                                  r: Option<N>,
                                                  xr: bool, zr: bool, yr: bool, xr': bool, zr': bool, yr': bool)
    requires Sound(x, h, Plug(s.up, s.Old(xr, zr, yr))) && Wired(w, Plug(s.up, s.New(xr', zr', yr')))
    requires Nodes(Plug(s.up, s.New(xr', zr', yr'))) == x.nodes && r == Ptr(Plug(s.up, s.New(xr', zr', yr')))
    requires s.x in u && u[s.x] == MkCell(s.d, Ptr(s.a), Ptr(s.b), u[s.x].parent, u[s.x].red)
    ensures Holds(x, Shot(w, RotateAug(x.f, RotateAug(x.f, h.m, u, s.x, s.z), w, s.y, s.z), r),
                  Plug(s.up, s.New(xr', zr', yr')))
  {
    var t, t' := Plug(s.up, s.Old(xr, zr, yr)), Plug(s.up, s.New(xr', zr', yr'));
    var g := Shot(w, RotateAug(x.f, RotateAug(x.f, h.m, u, s.x, s.z), w, s.y, s.z), r);
    TwistMembers(s, xr, zr, yr);
    TwistCells(s, w, xr', zr', yr');
    TwistInorder(s, xr, zr, yr, xr', zr', yr');
    KidMk(u, s.d, s.x, Ptr(s.a), Ptr(s.b));
    KidMk(w, s.d, s.y, Ptr(s.c), Ptr(s.e));
    if x.up {
      Unseal(h.v, t);
      TwistMap(x.f, h.m, u, w, s, xr, zr, yr, xr', zr', yr');
    }
    Reveal(x, g, t');
  }

  lemma {:induction false} BendState<N, A(!new)>(x: Fixed<N, A>, h: Shot<N, A>, s: Twist<N>, xr: bool, zr: bool,
                                                 yr: bool)
    requires Holds(x, h, Plug(s.up, s.Old(xr, zr, yr))) && !IsRed(s.b) && !IsRed(s.c)
    ensures s.x in x.nodes && s.y in x.nodes && s.z in x.nodes
    ensures Corner(h.v, s.d, s.x, s.z, s.y, Ptr(s.a), Ptr(s.b), Ptr(s.c), Ptr(s.e), Parent(s.up),
                   if s.up.In? then s.up.side else Left)
    ensures In0(Ptr(s.a), x.nodes) && In0(Ptr(s.b), x.nodes) && In0(Ptr(s.c), x.nodes) && In0(Ptr(s.e), x.nodes)
      && In0(Parent(s.up), x.nodes)
    ensures var u := BendShot(x.f, h, s.d, s.x, s.z, Ptr(s.b));
      && s.z in u.v && s.y in u.v && u.v[s.y] == h.v[s.y] && Kid(u.v[s.z], Flip(s.d)) == Ptr(s.c)
      && Holds(x, TurnShot(x.f, u, s.d, s.z, s.y, Ptr(s.c), true), Plug(s.up, s.New(true, yr, true)))
  {
    Reveal(x, h, Plug(s.up, s.Old(xr, zr, yr)));
    TwistMembers(s, xr, zr, yr);
    TwistCorner(s, h.v, xr, zr, yr);
    BendCells(h.v, s.d, s.x, s.z, Ptr(s.b));
    BendWired(s, h.v, xr, zr, yr);
    var u := Bend(h.v, s.d, s.x, s.z, Ptr(s.b));
    var w := Turn(u, s.d, s.z, s.y, Ptr(s.c), true);
    BentParent(h.v, u, s.d, s.x, s.z, s.y, Ptr(s.b));
    TwistState(x, h, s, u, w, NewRoot(h, s.y, s.z), xr, zr, yr, true, yr, true);
  }

  lemma BentParent<N>(v: View<N>, u: View<N>, d: Side, x: N, z: N, y: N, b: Option<N>)
    requires Bent(v, u, d, x, z, b) && y in v && y != x && y != z && Some(y) != b
    ensures u[y] == v[y] && u[x] == MkCell(d, Kid(v[x], d), b, u[x].parent, u[x].red)
    ensures Kid(u[z], Flip(d)) == Kid(v[z], Flip(d))
  {
    if d.Left? {} else {}
  }

  lemma KidMk<N>(v: View<N>, d: Side, x: N, a: Option<N>, b: Option<N>)
    requires x in v && v[x] == MkCell(d, a, b, v[x].parent, v[x].red)
    ensures Kid(v[x], d) == a && Kid(v[x], Flip(d)) == b
  {
    if d.Left? {} else {}
  }

  // ---------------------------------------------------------------- erasure

  /** Erase Case 4, as one step. */
  ghost function KeepShot<N, A>(f: Fold<N, A>, h: Shot<N, A>, d: Side, x: N, y: N, a: Option<N>,
                                b: Option<N>): Shot<N, A>
    requires x in h.v && y in h.v
  {
    var w := TurnKeep(h.v, d, x, y, a, b);
    Shot(w, RotateAug(f, h.m, w, y, x), NewRoot(h, y, x))
  }

  lemma {:induction false} KeepState<N, A(!new)>(x: Fixed<N, A>, h: Shot<N, A>, s: Spin<N>, xr: bool, yr: bool)
    requires Holds(x, h, Plug(s.up, s.Old(xr, yr))) && s.a.T?
    ensures s.x in h.v && s.y in h.v && s.x in x.nodes && s.y in x.nodes && s.x != s.y && s.a.n in x.nodes
    ensures Kid(h.v[s.x], Flip(s.d)) == Ptr(s.b) && Kid(h.v[s.y], Flip(s.d)) == Ptr(s.c)
      && h.v[s.y].parent == Parent(s.up)
    ensures In0(Ptr(s.b), x.nodes) && In0(Ptr(s.c), x.nodes) && In0(Parent(s.up), x.nodes)
    ensures Ptr(s.b) != Some(s.y) && s.a.n != s.y && Parent(s.up) != Some(s.y)
    ensures Holds(x, KeepShot(x.f, h, s.d, s.x, s.y, Ptr(s.a), Ptr(s.b)), Plug(s.up, s.New(false, yr, false)))
  {
    Reveal(x, h, Plug(s.up, s.Old(xr, yr)));
    SpinMembers(s, xr, yr);
    TurnKeepWired(s, h.v, xr, yr);
    SpinSlots(s, h.v, xr, yr);
    var w := TurnKeep(h.v, s.d, s.x, s.y, Ptr(s.a), Ptr(s.b));
    var g := KeepShot(x.f, h, s.d, s.x, s.y, Ptr(s.a), Ptr(s.b));
    SpinCell(s, w, false, yr, false);
    SpinInorder(s, xr, yr, false, yr, false);
    if x.up {
      Unseal(h.v, Plug(s.up, s.Old(xr, yr)));
      KidMk(w, s.d, s.y, Ptr(s.b), Ptr(s.c));
      SpinMap(x.f, h.m, w, s, xr, yr, false, yr, false);
    }
    Reveal(x, g, Plug(s.up, s.New(false, yr, false)));
  }

  /** Erase Case 3, as one step. */
  ghost function KinkShot<N, A>(f: Fold<N, A>, h: Shot<N, A>, d: Side, x: N, z: N, y: N, b: Option<N>): Shot<N, A> {
    var u := Kink(h.v, d, x, z, y, b);
    Shot(u, RotateAug(f, h.m, u, x, z), h.r)
  }

  lemma {:induction false} KinkState<N, A(!new)>(x: Fixed<N, A>, h: Shot<N, A>, s: Twist<N>, yr: bool)
    requires Holds(x, h, Plug(s.up, s.Old(false, true, yr))) && !IsRed(s.b)
    ensures s.x in x.nodes && s.y in x.nodes && s.z in x.nodes
    ensures Corner(h.v, s.d, s.x, s.z, s.y, Ptr(s.a), Ptr(s.b), Ptr(s.c), Ptr(s.e), Parent(s.up),
                   if s.up.In? then s.up.side else Left)
    ensures In0(Ptr(s.a), x.nodes) && In0(Ptr(s.b), x.nodes) && In0(Ptr(s.c), x.nodes) && In0(Ptr(s.e), x.nodes)
      && In0(Parent(s.up), x.nodes)
    ensures var u := KinkShot(x.f, h, s.d, s.x, s.z, s.y, Ptr(s.b));
      && s.z in u.v && s.y in u.v && u.v[s.y].parent == Parent(s.up)
      && Kid(u.v[s.z], Flip(s.d)) == Ptr(s.c) && Kid(u.v[s.y], Flip(s.d)) == Ptr(s.e)
      && Holds(x, KeepShot(x.f, u, s.d, s.z, s.y, Some(s.x), Ptr(s.c)), Plug(s.up, s.New(false, yr, false)))
  {
    Reveal(x, h, Plug(s.up, s.Old(false, true, yr)));
    TwistMembers(s, false, true, yr);
    TwistCorner(s, h.v, false, true, yr);
    KinkCells(h.v, s.d, s.x, s.z, s.y, Ptr(s.b));
    KinkWired(s, h.v, true, yr);
    var u := Kink(h.v, s.d, s.x, s.z, s.y, Ptr(s.b));
    var w := TurnKeep(u, s.d, s.z, s.y, Some(s.x), Ptr(s.c));
    KinkedParent(h.v, u, s.d, s.x, s.z, s.y, Ptr(s.a), Ptr(s.b));
    TwistState(x, h, s, u, w, NewRoot(h, s.y, s.z), false, true, yr, false, yr, false);
  }

  lemma KinkedParent<N>(v: View<N>, u: View<N>, d: Side, x: N, z: N, y: N, a: Option<N>, b: Option<N>)
    requires Kinked(v, u, d, x, z, y, b) && v[x] == MkCell(d, a, Some(z), v[x].parent, v[x].red)
    ensures u[y].parent == v[y].parent && Kid(u[y], Flip(d)) == Kid(v[y], Flip(d))
    ensures u[x] == MkCell(d, a, b, u[x].parent, u[x].red)
    ensures Kid(u[z], Flip(d)) == Kid(v[z], Flip(d))
  {
    if d.Left? {} else {}
  }

  /** Erase Case 2: paint the sibling red, and the parent black. */
  lemma {:induction false} SiblingState<N, A(!new)>(x: Fixed<N, A>, h: Shot<N, A>, c: Ctx<N>, t: Tree<N>)
    requires Holds(x, h, Plug(c, t)) && c.In? && c.other.T?
    ensures c.n in h.v && c.n in x.nodes && c.other.n in x.nodes && c.n != c.other.n && h.v[c.n].red == c.red
      && h.v[c.n].parent == Parent(c.up)
    ensures var h1 := h.(v := PutPC(h.v, Ptr(c.other), Some(c.n), true));
      && c.n in h1.v && h1.v[c.n] == h.v[c.n]
      && Holds(x, h1, Plug(c.up, Mk(c.side, t, c.n, c.red, Repaint(c.other, true))))
      && Holds(x, h1.(v := PutPC(h1.v, Some(c.n), Parent(c.up), false)),
               Plug(c.up, Mk(c.side, t, c.n, false, Repaint(c.other, true))))
  {
    Look(x, h, c, t);
    LookPtr(x, h, c, t);
    var k := In(Flip(c.side), c.n, c.red, t, c.up);
    assert Plug(c, t) == Plug(k, c.other) by { if c.side.Left? {} else {} }
    PaintState(x, h, k, c.other, true);
    var o, h1 := Repaint(c.other, true), h.(v := PutPC(h.v, Ptr(c.other), Some(c.n), true));
    var m := Mk(c.side, t, c.n, c.red, o);
    assert Plug(k, o) == Plug(c.up, m) by { if c.side.Left? {} else {} }
    PaintState(x, h1, c.up, m, false);
    assert Repaint(m, false) == Mk(c.side, t, c.n, false, o);
  }
}

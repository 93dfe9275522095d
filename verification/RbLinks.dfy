/**
 The pointer side of the red-black tree engine, as a value: a view maps every node to
 the four fields of its `struct rb_node` (src/rbtree.h:36-40, with `__rb_parent_color`
 split into parent and colour).  The functions `PutXxx` are the assignments that
 src/rbtree.c and src/rbtree_augmented.h perform; the lemmas say which abstract tree
 the view represents after them.
 */
module RbLinks {
  import opened RbTrees

  datatype Cell<N> = Cell(left: Option<N>, right: Option<N>, parent: Option<N>, red: bool)

  type View<N> = map<N, Cell<N>>

  function MkCell<N>(d: Side, near: Option<N>, far: Option<N>, p: Option<N>, red: bool): Cell<N> {
    if d.Left? then Cell(near, far, p, red) else Cell(far, near, p, red)
  }

  function WithKid<N>(c: Cell<N>, d: Side, k: Option<N>): Cell<N> {
    if d.Left? then c.(left := k) else c.(right := k)
  }

  function Kid<N>(c: Cell<N>, d: Side): Option<N> {
    if d.Left? then c.left else c.right
  }

  ghost function Opt<N>(p: Option<N>): set<N> {
    if p.Some? then {p.value} else {}
  }

  /** `v` stores the tree `t`, whose root has parent `p`: child links, parent links and colours all match. */
  ghost predicate Linked<N>(v: View<N>, t: Tree<N>, p: Option<N>) {
    t.T? ==>
      && t.n in v && v[t.n] == Cell(Ptr(t.left), Ptr(t.right), p, t.red)
      && Linked(v, t.left, Some(t.n)) && Linked(v, t.right, Some(t.n))
  }

  ghost predicate LinkedC<N>(v: View<N>, c: Ctx<N>, hole: Option<N>) {
    c.In? ==>
      && c.n in v && v[c.n] == MkCell(c.side, hole, Ptr(c.other), Parent(c.up), c.red)
      && Linked(v, c.other, Some(c.n)) && LinkedC(v, c.up, Some(c.n))
  }

  /** `v` stores the whole tree `t`, without sharing. */
  ghost predicate Stores<N>(v: View<N>, t: Tree<N>) {
    Linked(v, t, None) && Distinct(t)
  }

  /** `Stores`, under a quantifier that keeps the verifier from unfolding it at every heap update. */
  ghost predicate Wired<N>(v: View<N>, t: Tree<N>) {
    forall k: Seal :: Broken(k, v, t)
  }

  datatype Seal = Seal

  ghost predicate Broken<N>(k: Seal, v: View<N>, t: Tree<N>) {
    Stores(v, t)
  }

  lemma Unseal<N>(v: View<N>, t: Tree<N>)
    ensures Wired(v, t) <==> Stores(v, t)
  {
    assert Stores(v, t) ==> Wired(v, t);
    assert Wired(v, t) ==> Broken(Seal, v, t);
  }

  lemma {:induction false} OpenLinked<N>(v: View<N>, d: Side, a: Tree<N>, x: N, red: bool, b: Tree<N>, p: Option<N>)
    ensures Linked(v, Mk(d, a, x, red, b), p) <==>
              && x in v && v[x] == MkCell(d, Ptr(a), Ptr(b), p, red)
              && Linked(v, a, Some(x)) && Linked(v, b, Some(x))
  {
    if d.Left? {} else {}
  }

  lemma {:induction false} PlugLinked<N>(v: View<N>, c: Ctx<N>, t: Tree<N>)
    ensures Linked(v, Plug(c, t), None) <==> Linked(v, t, Parent(c)) && LinkedC(v, c, Ptr(t))
    decreases c
  {
    if c.In? { PlugLinked(v, c.up, Mk(c.side, t, c.n, c.red, c.other)); }
  }

  /** What a wired tree says about the node above the hole. */
  lemma {:induction false} Above<N>(v: View<N>, c: Ctx<N>, t: Tree<N>)
    requires Wired(v, Plug(c, t)) && c.In?
    ensures c.n in v && c.n !in Nodes(t)
    ensures v[c.n] == MkCell(c.side, Ptr(t), Ptr(c.other), Parent(c.up), c.red)
    ensures t.T? ==> Ptr(c.other) != Ptr(t)
  {
    Unseal(v, Plug(c, t));
    PlugLinked(v, c, t);
    PlugDistinct(c, t);
  }

  /** What a wired tree says about the node in the hole. */
  lemma {:induction false} Here<N>(v: View<N>, c: Ctx<N>, t: Tree<N>)
    requires Wired(v, Plug(c, t)) && t.T?
    ensures t.n in v && v[t.n] == Cell(Ptr(t.left), Ptr(t.right), Parent(c), t.red)
  {
    Unseal(v, Plug(c, t));
    PlugLinked(v, c, t);
  }

  // ---------------------------------------------------------------- frames

  /** `w` is `v` changed at most at the nodes of `k`. */
  ghost predicate Only<N>(v: View<N>, w: View<N>, k: set<N>) {
    w.Keys == v.Keys && forall n :: n in v && n !in k ==> w[n] == v[n]
  }

  ghost predicate Same<N>(v: View<N>, w: View<N>, s: set<N>) {
    forall n :: n in s && n in v ==> n in w && w[n] == v[n]
  }

  ghost predicate SameBelow<N>(v: View<N>, w: View<N>, t: Tree<N>) {
    t.T? ==> Same(v, w, Nodes(t.left)) && Same(v, w, Nodes(t.right))
  }

  ghost predicate SameAbove<N>(v: View<N>, w: View<N>, c: Ctx<N>) {
    c.In? ==> Same(v, w, Nodes(c.other)) && Same(v, w, NodesC(c.up))
  }

  lemma Still<N>(v: View<N>, w: View<N>, k: set<N>, s: set<N>)
    requires Only(v, w, k) && k !! s
    ensures Same(v, w, s)
  {
  }

  lemma {:induction false} StillBelow<N>(v: View<N>, w: View<N>, k: set<N>, t: Tree<N>)
    requires Only(v, w, k) && Distinct(t) && k * Nodes(t) <= Opt(Ptr(t))
    ensures SameBelow(v, w, t)
  {
    if t.T? {
      Still(v, w, k, Nodes(t.left));
      Still(v, w, k, Nodes(t.right));
    }
  }

  lemma {:induction false} StillAbove<N>(v: View<N>, w: View<N>, k: set<N>, c: Ctx<N>)
    requires Only(v, w, k) && DistinctC(c) && k * NodesC(c) <= Opt(Parent(c))
    ensures SameAbove(v, w, c)
  {
    if c.In? {
      Still(v, w, k, Nodes(c.other));
      Still(v, w, k, NodesC(c.up));
    }
  }

  lemma {:induction false} Frame<N>(v: View<N>, w: View<N>, t: Tree<N>, p: Option<N>)
    requires Linked(v, t, p) && Same(v, w, Nodes(t))
    ensures Linked(w, t, p)
  {
    if t.T? {
      Frame(v, w, t.left, Some(t.n));
      Frame(v, w, t.right, Some(t.n));
    }
  }

  /** The root of `t` gets a new parent and colour, the rest stays. */
  lemma {:induction false} Regraft<N>(v: View<N>, w: View<N>, t: Tree<N>, p: Option<N>, q: Option<N>, red: bool)
    requires Linked(v, t, p) && SameBelow(v, w, t)
    requires t.T? ==> t.n in w && w[t.n] == v[t.n].(parent := q, red := red)
    ensures Linked(w, Repaint(t, red), q)
  {
    if t.T? {
      Frame(v, w, t.left, Some(t.n));
      Frame(v, w, t.right, Some(t.n));
    }
  }

  lemma {:induction false} FrameC<N>(v: View<N>, w: View<N>, c: Ctx<N>, h: Option<N>)
    requires LinkedC(v, c, h) && Same(v, w, NodesC(c))
    ensures LinkedC(w, c, h)
  {
    if c.In? {
      Frame(v, w, c.other, Some(c.n));
      FrameC(v, w, c.up, Some(c.n));
    }
  }

  /** The node above the hole gets a new child there, the rest stays. */
  lemma {:induction false} Rehole<N>(v: View<N>, w: View<N>, c: Ctx<N>, h: Option<N>, k: Option<N>)
    requires LinkedC(v, c, h) && SameAbove(v, w, c)
    requires c.In? ==> c.n in w && w[c.n] == WithKid(v[c.n], c.side, k)
    ensures LinkedC(w, c, k)
  {
    if c.In? {
      Frame(v, w, c.other, Some(c.n));
      FrameC(v, w, c.up, Some(c.n));
    }
  }

  // ---------------------------------------------------------------- assignments

  ghost function PutKid<N>(v: View<N>, n: N, d: Side, k: Option<N>): View<N> {
    if n in v then v[n := WithKid(v[n], d, k)] else v
  }

  /** rb_set_parent_color (src/rbtree_augmented.h:116-120); nothing happens for a null node. */
  ghost function PutPC<N>(v: View<N>, n: Option<N>, p: Option<N>, red: bool): View<N> {
    if n.Some? && n.value in v then v[n.value := v[n.value].(parent := p, red := red)] else v
  }

  /** rb_set_parent (src/rbtree_augmented.h:111-114); nothing happens for a null node. */
  ghost function PutParent<N>(v: View<N>, n: Option<N>, p: Option<N>): View<N> {
    if n.Some? && n.value in v then v[n.value := v[n.value].(parent := p)] else v
  }

  /** __rb_change_child (src/rbtree_augmented.h:122-133), without the root pointer. */
  ghost function PutChild<N>(v: View<N>, o: N, n: Option<N>, p: Option<N>): View<N> {
    if p.None? || p.value !in v then v
    else PutKid(v, p.value, if v[p.value].left == Some(o) then Left else Right, n)
  }

  /** __rb_rotate_set_parents (src/rbtree.c:61-69), without the root pointer. */
  ghost function PutRotate<N>(v: View<N>, o: N, n: N, red: bool): View<N>
    requires o in v && n in v
  {
    PutChild(PutPC(PutPC(v, Some(n), v[o].parent, v[o].red), Some(o), Some(n), red), o, Some(n), v[o].parent)
  }

  // ---------------------------------------------------------------- repainting one node

  lemma {:induction false} PaintWired<N>(v: View<N>, c: Ctx<N>, t: Tree<N>, red: bool)
    requires Wired(v, Plug(c, t)) && t.T?
    ensures Wired(PutPC(v, Some(t.n), Parent(c), red), Plug(c, Repaint(t, red)))
    ensures Nodes(Plug(c, Repaint(t, red))) == Nodes(Plug(c, t))
    ensures Ptr(Plug(c, Repaint(t, red))) == Ptr(Plug(c, t))
  {
    Unseal(v, Plug(c, t));
    Unseal(PutPC(v, Some(t.n), Parent(c), red), Plug(c, Repaint(t, red)));
    var w := PutPC(v, Some(t.n), Parent(c), red);
    PlugLinked(v, c, t);
    PlugDistinct(c, t);
    Regraft(v, w, t, Parent(c), Parent(c), red);
    FrameC(v, w, c, Some(t.n));
    PlugLinked(w, c, Repaint(t, red));
    PlugDistinct(c, Repaint(t, red));
    PlugPtr(c, t, Repaint(t, red));
  }

  // ---------------------------------------------------------------- single rotation

  /**
   `x` is the child of `y` on side `d`; the rotation puts `x` in the place of `y`,
   and `b`, the inner subtree of `x`, changes hands.
   */
  datatype Spin<N> = Spin(up: Ctx<N>, d: Side, a: Tree<N>, x: N, b: Tree<N>, y: N, c: Tree<N>) {

    function Old(xr: bool, yr: bool): Tree<N> {
      Mk(d, Mk(d, a, x, xr, b), y, yr, c)
    }

    function New(ar: bool, xr: bool, yr: bool): Tree<N> {
      Mk(d, Repaint(a, ar), x, xr, Mk(d, b, y, yr, c))
    }

    ghost predicate Apart() {
      && Distinct(a) && Distinct(b) && Distinct(c) && DistinctC(up)
      && x != y
      && x !in Nodes(a) && x !in Nodes(b) && x !in Nodes(c) && x !in NodesC(up)
      && y !in Nodes(a) && y !in Nodes(b) && y !in Nodes(c) && y !in NodesC(up)
      && Nodes(a) !! Nodes(b) && Nodes(a) !! Nodes(c) && Nodes(b) !! Nodes(c)
      && NodesC(up) !! Nodes(a) && NodesC(up) !! Nodes(b) && NodesC(up) !! Nodes(c)
    }

    ghost predicate Parts(v: View<N>) {
      Linked(v, a, Some(x)) && Linked(v, b, Some(x)) && Linked(v, c, Some(y)) && LinkedC(v, up, Some(y))
    }

    /** What the assignments of a rotation do to the fields. */
    ghost predicate Turned(v: View<N>, w: View<N>, ar: bool, xr: bool, yr: bool) {
      && Only(v, w, {x, y} + Opt(Ptr(a)) + Opt(Ptr(b)) + Opt(Parent(up))) && x in w && y in w
      && w[x] == MkCell(d, Ptr(a), Some(y), Parent(up), xr)
      && w[y] == MkCell(d, Ptr(b), Ptr(c), Some(x), yr)
      && (a.T? ==> a.n in w && w[a.n] == v[a.n].(red := ar))
      && (b.T? ==> b.n in w && w[b.n] == v[b.n].(parent := Some(y)))
      && (up.In? ==> up.n in w && w[up.n] == WithKid(v[up.n], up.side, Some(x)))
    }
  }

  lemma {:induction false} SpinApart<N>(s: Spin<N>, xr: bool, yr: bool)
    ensures Nodes(Plug(s.up, s.Old(xr, yr))) == Nodes(s.a) + Nodes(s.b) + Nodes(s.c) + {s.x, s.y} + NodesC(s.up)
    ensures Distinct(Plug(s.up, s.Old(xr, yr))) ==> s.Apart()
  {
    PlugDistinct(s.up, s.Old(xr, yr));
    OpenDistinct(s.d, Mk(s.d, s.a, s.x, xr, s.b), s.y, yr, s.c);
    OpenDistinct(s.d, s.a, s.x, xr, s.b);
  }

  lemma {:induction false} SpinApartNew<N>(s: Spin<N>, ar: bool, xr: bool, yr: bool)
    ensures Nodes(Plug(s.up, s.New(ar, xr, yr))) == Nodes(s.a) + Nodes(s.b) + Nodes(s.c) + {s.x, s.y} + NodesC(s.up)
    ensures s.Apart() ==> Distinct(Plug(s.up, s.New(ar, xr, yr)))
  {
    PlugDistinct(s.up, s.New(ar, xr, yr));
    OpenDistinct(s.d, Repaint(s.a, ar), s.x, xr, Mk(s.d, s.b, s.y, yr, s.c));
    OpenDistinct(s.d, s.b, s.y, yr, s.c);
  }

  lemma {:induction false} SpinParts<N>(s: Spin<N>, v: View<N>, xr: bool, yr: bool)
    requires Wired(v, Plug(s.up, s.Old(xr, yr)))
    ensures s.Parts(v) && s.Apart() && s.x in v && s.y in v
    ensures v[s.x] == MkCell(s.d, Ptr(s.a), Ptr(s.b), Some(s.y), xr)
    ensures v[s.y] == MkCell(s.d, Some(s.x), Ptr(s.c), Parent(s.up), yr)
  {
    Unseal(v, Plug(s.up, s.Old(xr, yr)));
    SpinApart(s, xr, yr);
    PlugLinked(v, s.up, s.Old(xr, yr));
    OpenLinked(v, s.d, Mk(s.d, s.a, s.x, xr, s.b), s.y, yr, s.c, Parent(s.up));
    OpenLinked(v, s.d, s.a, s.x, xr, s.b, Some(s.y));
    if s.d.Left? {} else {}
  }

  lemma {:induction false} SpinFrames<N>(s: Spin<N>, v: View<N>, w: View<N>)
    requires s.Apart() && Only(v, w, {s.x, s.y} + Opt(Ptr(s.a)) + Opt(Ptr(s.b)) + Opt(Parent(s.up)))
    ensures SameBelow(v, w, s.a) && SameBelow(v, w, s.b) && Same(v, w, Nodes(s.c)) && SameAbove(v, w, s.up)
  {
    var k := {s.x, s.y} + Opt(Ptr(s.a)) + Opt(Ptr(s.b)) + Opt(Parent(s.up));
    StillBelow(v, w, k, s.a);
    StillBelow(v, w, k, s.b);
    Still(v, w, k, Nodes(s.c));
    StillAbove(v, w, k, s.up);
  }

  lemma {:induction false} SpinLinked<N>(s: Spin<N>, v: View<N>, w: View<N>, ar: bool, xr: bool, yr: bool)
    requires s.Parts(v) && s.Apart() && s.Turned(v, w, ar, xr, yr)
    ensures Linked(w, Plug(s.up, s.New(ar, xr, yr)), None)
  {
    SpinFrames(s, v, w);
    Regraft(v, w, s.a, Some(s.x), Some(s.x), ar);
    Regraft(v, w, s.b, Some(s.x), Some(s.y), IsRed(s.b));
    Frame(v, w, s.c, Some(s.y));
    Rehole(v, w, s.up, Some(s.y), Some(s.x));
    OpenLinked(w, s.d, Repaint(s.a, ar), s.x, xr, Mk(s.d, s.b, s.y, yr, s.c), Parent(s.up));
    OpenLinked(w, s.d, s.b, s.y, yr, s.c, Some(s.x));
    PlugLinked(w, s.up, s.New(ar, xr, yr));
  }

  lemma {:induction false} SpinWired<N>(s: Spin<N>, v: View<N>, w: View<N>, xr: bool, yr: bool, ar': bool, xr': bool,
                                        yr': bool)
    requires Wired(v, Plug(s.up, s.Old(xr, yr))) && s.Turned(v, w, ar', xr', yr')
    ensures Wired(w, Plug(s.up, s.New(ar', xr', yr')))
    ensures Nodes(Plug(s.up, s.New(ar', xr', yr'))) == Nodes(Plug(s.up, s.Old(xr, yr)))
    ensures Ptr(Plug(s.up, s.New(ar', xr', yr'))) == if s.up.Top? then Some(s.x) else Ptr(Plug(s.up, s.Old(xr, yr)))
  {
    Unseal(w, Plug(s.up, s.New(ar', xr', yr')));
    SpinParts(s, v, xr, yr);
    SpinApart(s, xr, yr);
    SpinApartNew(s, ar', xr', yr');
    SpinLinked(s, v, w, ar', xr', yr');
    PlugPtr(s.up, s.Old(xr, yr), s.New(ar', xr', yr'));
  }

  // ---------------------------------------------------------------- double rotation

  /**
   `x` is the child of `y` on side `d` and `z` its inner child; the double rotation
   puts `z` in the place of `y`, between `x` and `y`.
   */
  datatype Twist<N> = Twist(up: Ctx<N>, d: Side, a: Tree<N>, x: N, b: Tree<N>, z: N, c: Tree<N>, y: N, e: Tree<N>) {

    function Old(xr: bool, zr: bool, yr: bool): Tree<N> {
      Mk(d, Mk(d, a, x, xr, Mk(d, b, z, zr, c)), y, yr, e)
    }

    function New(xr: bool, zr: bool, yr: bool): Tree<N> {
      Mk(d, Mk(d, a, x, xr, b), z, zr, Mk(d, c, y, yr, e))
    }

    ghost predicate Apart() {
      && Distinct(a) && Distinct(b) && Distinct(c) && Distinct(e) && DistinctC(up)
      && x != y && x != z && y != z
      && x !in Nodes(a) && x !in Nodes(b) && x !in Nodes(c) && x !in Nodes(e) && x !in NodesC(up)
      && y !in Nodes(a) && y !in Nodes(b) && y !in Nodes(c) && y !in Nodes(e) && y !in NodesC(up)
      && z !in Nodes(a) && z !in Nodes(b) && z !in Nodes(c) && z !in Nodes(e) && z !in NodesC(up)
      && Nodes(a) !! Nodes(b) && Nodes(a) !! Nodes(c) && Nodes(a) !! Nodes(e)
      && Nodes(b) !! Nodes(c) && Nodes(b) !! Nodes(e) && Nodes(c) !! Nodes(e)
      && NodesC(up) !! Nodes(a) && NodesC(up) !! Nodes(b) && NodesC(up) !! Nodes(c) && NodesC(up) !! Nodes(e)
    }

    ghost predicate Parts(v: View<N>) {
      && Linked(v, a, Some(x)) && Linked(v, b, Some(z)) && Linked(v, c, Some(z)) && Linked(v, e, Some(y))
      && LinkedC(v, up, Some(y))
    }

    ghost predicate Turned(v: View<N>, w: View<N>, xr: bool, zr: bool, yr: bool) {
      && Only(v, w, {x, y, z} + Opt(Ptr(b)) + Opt(Ptr(c)) + Opt(Parent(up))) && x in w && y in w && z in w
      && w[x] == MkCell(d, Ptr(a), Ptr(b), Some(z), xr)
      && w[z] == MkCell(d, Some(x), Some(y), Parent(up), zr)
      && w[y] == MkCell(d, Ptr(c), Ptr(e), Some(z), yr)
      && (b.T? ==> b.n in w && w[b.n] == v[b.n].(parent := Some(x)))
      && (c.T? ==> c.n in w && w[c.n] == v[c.n].(parent := Some(y)))
      && (up.In? ==> up.n in w && w[up.n] == WithKid(v[up.n], up.side, Some(z)))
    }
  }

  lemma {:induction false} TwistApart<N>(s: Twist<N>, xr: bool, zr: bool, yr: bool)
    ensures Nodes(Plug(s.up, s.Old(xr, zr, yr))) ==
            Nodes(s.a) + Nodes(s.b) + Nodes(s.c) + Nodes(s.e) + {s.x, s.y, s.z} + NodesC(s.up)
    ensures Distinct(Plug(s.up, s.Old(xr, zr, yr))) ==> s.Apart()
  {
    PlugDistinct(s.up, s.Old(xr, zr, yr));
    OpenDistinct(s.d, Mk(s.d, s.a, s.x, xr, Mk(s.d, s.b, s.z, zr, s.c)), s.y, yr, s.e);
    OpenDistinct(s.d, s.a, s.x, xr, Mk(s.d, s.b, s.z, zr, s.c));
    OpenDistinct(s.d, s.b, s.z, zr, s.c);
  }

  lemma {:induction false} TwistApartNew<N>(s: Twist<N>, xr: bool, zr: bool, yr: bool)
    ensures Nodes(Plug(s.up, s.New(xr, zr, yr))) ==
            Nodes(s.a) + Nodes(s.b) + Nodes(s.c) + Nodes(s.e) + {s.x, s.y, s.z} + NodesC(s.up)
    ensures s.Apart() ==> Distinct(Plug(s.up, s.New(xr, zr, yr)))
  {
    PlugDistinct(s.up, s.New(xr, zr, yr));
    OpenDistinct(s.d, Mk(s.d, s.a, s.x, xr, s.b), s.z, zr, Mk(s.d, s.c, s.y, yr, s.e));
    OpenDistinct(s.d, s.a, s.x, xr, s.b);
    OpenDistinct(s.d, s.c, s.y, yr, s.e);
  }

  lemma {:induction false} TwistParts<N>(s: Twist<N>, v: View<N>, xr: bool, zr: bool, yr: bool)
    requires Wired(v, Plug(s.up, s.Old(xr, zr, yr)))
    ensures s.Parts(v) && s.Apart() && s.x in v && s.y in v && s.z in v
    ensures v[s.x] == MkCell(s.d, Ptr(s.a), Some(s.z), Some(s.y), xr)
    ensures v[s.z] == MkCell(s.d, Ptr(s.b), Ptr(s.c), Some(s.x), zr)
    ensures v[s.y] == MkCell(s.d, Some(s.x), Ptr(s.e), Parent(s.up), yr)
  {
    Unseal(v, Plug(s.up, s.Old(xr, zr, yr)));
    TwistApart(s, xr, zr, yr);
    PlugLinked(v, s.up, s.Old(xr, zr, yr));
    OpenLinked(v, s.d, Mk(s.d, s.a, s.x, xr, Mk(s.d, s.b, s.z, zr, s.c)), s.y, yr, s.e, Parent(s.up));
    OpenLinked(v, s.d, s.a, s.x, xr, Mk(s.d, s.b, s.z, zr, s.c), Some(s.y));
    OpenLinked(v, s.d, s.b, s.z, zr, s.c, Some(s.x));
    if s.d.Left? {} else {}
  }

  lemma {:induction false} TwistFrames<N>(s: Twist<N>, v: View<N>, w: View<N>)
    requires s.Apart() && Only(v, w, {s.x, s.y, s.z} + Opt(Ptr(s.b)) + Opt(Ptr(s.c)) + Opt(Parent(s.up)))
    ensures Same(v, w, Nodes(s.a)) && SameBelow(v, w, s.b) && SameBelow(v, w, s.c)
    ensures Same(v, w, Nodes(s.e)) && SameAbove(v, w, s.up)
  {
    var k := {s.x, s.y, s.z} + Opt(Ptr(s.b)) + Opt(Ptr(s.c)) + Opt(Parent(s.up));
    Still(v, w, k, Nodes(s.a));
    StillBelow(v, w, k, s.b);
    StillBelow(v, w, k, s.c);
    Still(v, w, k, Nodes(s.e));
    StillAbove(v, w, k, s.up);
  }

  lemma {:induction false} TwistLinked<N>(s: Twist<N>, v: View<N>, w: View<N>, xr: bool, zr: bool, yr: bool)
    requires s.Parts(v) && s.Apart() && s.Turned(v, w, xr, zr, yr)
    ensures Linked(w, Plug(s.up, s.New(xr, zr, yr)), None)
  {
    TwistFrames(s, v, w);
    Frame(v, w, s.a, Some(s.x));
    Regraft(v, w, s.b, Some(s.z), Some(s.x), IsRed(s.b));
    Regraft(v, w, s.c, Some(s.z), Some(s.y), IsRed(s.c));
    Frame(v, w, s.e, Some(s.y));
    Rehole(v, w, s.up, Some(s.y), Some(s.z));
    OpenLinked(w, s.d, s.a, s.x, xr, s.b, Some(s.z));
    OpenLinked(w, s.d, s.c, s.y, yr, s.e, Some(s.z));
    OpenLinked(w, s.d, Mk(s.d, s.a, s.x, xr, s.b), s.z, zr, Mk(s.d, s.c, s.y, yr, s.e), Parent(s.up));
    PlugLinked(w, s.up, s.New(xr, zr, yr));
  }

  lemma {:induction false} TwistWired<N>(s: Twist<N>, v: View<N>, w: View<N>,
                                         xr: bool, zr: bool, yr: bool, xr': bool, zr': bool, yr': bool)
    requires Wired(v, Plug(s.up, s.Old(xr, zr, yr))) && s.Turned(v, w, xr', zr', yr')
    ensures Wired(w, Plug(s.up, s.New(xr', zr', yr')))
    ensures Nodes(Plug(s.up, s.New(xr', zr', yr'))) == Nodes(Plug(s.up, s.Old(xr, zr, yr)))
    ensures Ptr(Plug(s.up, s.New(xr', zr', yr'))) == if s.up.Top? then Some(s.z) else Ptr(Plug(s.up, s.Old(xr, zr, yr)))
  {
    Unseal(w, Plug(s.up, s.New(xr', zr', yr')));
    TwistParts(s, v, xr, zr, yr);
    TwistApart(s, xr, zr, yr);
    TwistApartNew(s, xr', zr', yr');
    TwistLinked(s, v, w, xr', zr', yr');
    PlugPtr(s.up, s.Old(xr, zr, yr), s.New(xr', zr', yr'));
  }
}

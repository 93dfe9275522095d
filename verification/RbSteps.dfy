/**
 The assignment sequences of the rebalancing cases (src/rbtree.c:71-360), field by
 field.  Each lemma runs one sequence on a view and says what every field holds
 afterwards; RbLinks turns that into a statement about trees.
 */
module RbSteps {
  import opened RbTrees
  import opened RbLinks
  import opened RbCases
  import opened RbAugment

  /** Insert Case 3 (src/rbtree.c:151-155) and erase Case 1 (src/rbtree.c:226-230). */
  ghost function Turn<N>(v: View<N>, d: Side, x: N, y: N, b: Option<N>, red: bool): View<N>
    requires x in v && y in v
  {
    PutRotate(PutPC(PutKid(PutKid(v, y, d, b), x, Flip(d), Some(y)), b, Some(y), false), y, x, red)
  }

  /** Erase Case 4 (src/rbtree.c:299-305). */
  ghost function TurnKeep<N>(v: View<N>, d: Side, x: N, y: N, a: Option<N>, b: Option<N>): View<N>
    requires x in v && y in v
  {
    PutRotate(PutParent(PutPC(PutKid(PutKid(v, y, d, b), x, Flip(d), Some(y)), a, Some(x), false), b, Some(y)), y, x,
              false)
  }

  /** Insert Case 2 (src/rbtree.c:131-136): the links from and to the grandparent stay stale. */
  ghost function Bend<N>(v: View<N>, d: Side, x: N, z: N, b: Option<N>): View<N> {
    PutPC(PutPC(PutKid(PutKid(v, x, Flip(d), b), z, d, Some(x)), b, Some(x), false), Some(x), Some(z), true)
  }

  /** Erase Case 3 (src/rbtree.c:277-282): the parents of `x` and `z` stay stale. */
  ghost function Kink<N>(v: View<N>, d: Side, x: N, z: N, y: N, b: Option<N>): View<N> {
    PutPC(PutKid(PutKid(PutKid(v, x, Flip(d), b), z, d, Some(x)), y, d, Some(z)), b, Some(x), false)
  }

  /** The other pointers a rotation of `x` over `y` touches are different nodes. */
  ghost predicate Slots<N>(v: View<N>, x: N, y: N, b: Option<N>, g: Option<N>, gd: Side) {
    && x in v && y in v && x != y
    && (b.Some? ==> b.value in v && b.value != x && b.value != y && b != g)
    && (g.Some? ==> g.value in v && g.value != x && g.value != y && (gd.Left? <==> v[g.value].left == Some(y)))
  }

  ghost predicate Rotated<N>(v: View<N>, w: View<N>, d: Side, x: N, y: N, b: Option<N>, g: Option<N>, gd: Side,
                             red: bool)
    requires x in v && y in v
  {
    && x in w && y in w
    && w[x] == MkCell(d, Kid(v[x], d), Some(y), v[y].parent, v[y].red)
    && w[y] == MkCell(d, b, Kid(v[y], Flip(d)), Some(x), red)
    && (b.Some? ==> b.value in v && b.value in w && w[b.value] == v[b.value].(parent := Some(y)))
    && (g.Some? ==> g.value in v && g.value in w && w[g.value] == WithKid(v[g.value], gd, Some(x)))
  }

  lemma TurnCells<N>(v: View<N>, d: Side, x: N, y: N, b: Option<N>, g: Option<N>, gd: Side, red: bool)
    requires Slots(v, x, y, b, g, gd) && v[y].parent == g
    requires b.Some? ==> !v[b.value].red
    ensures Only(v, Turn(v, d, x, y, b, red), {x, y} + Opt(b) + Opt(g))
    ensures Rotated(v, Turn(v, d, x, y, b, red), d, x, y, b, g, gd, red)
  {
    if d.Left? {} else {}
  }

  lemma TurnKeepCells<N>(v: View<N>, d: Side, x: N, y: N, a: N, b: Option<N>, g: Option<N>, gd: Side)
    requires Slots(v, x, y, b, g, gd) && v[y].parent == g
    requires a in v && a != x && a != y && Some(a) != b && Some(a) != g
    ensures Only(v, TurnKeep(v, d, x, y, Some(a), b), {x, y, a} + Opt(b) + Opt(g))
    ensures Rotated(v, TurnKeep(v, d, x, y, Some(a), b), d, x, y, b, g, gd, false)
    ensures TurnKeep(v, d, x, y, Some(a), b)[a] == v[a].(parent := Some(x), red := false)
  {
    if d.Left? {} else {}
  }

  ghost predicate Bent<N>(v: View<N>, u: View<N>, d: Side, x: N, z: N, b: Option<N>) {
    && Only(v, u, {x, z} + Opt(b)) && x in v && z in v
    && u[x] == MkCell(d, Kid(v[x], d), b, Some(z), true)
    && u[z] == WithKid(v[z], d, Some(x))
    && (b.Some? ==> b.value in v && u[b.value] == v[b.value].(parent := Some(x)))
  }

  ghost predicate Kinked<N>(v: View<N>, u: View<N>, d: Side, x: N, z: N, y: N, b: Option<N>) {
    && Only(v, u, {x, y, z} + Opt(b)) && x in v && z in v && y in v
    && u[x] == WithKid(v[x], Flip(d), b)
    && u[z] == WithKid(v[z], d, Some(x))
    && u[y] == WithKid(v[y], d, Some(z))
    && (b.Some? ==> b.value in v && u[b.value] == v[b.value].(parent := Some(x)))
  }

  lemma BendCells<N>(v: View<N>, d: Side, x: N, z: N, b: Option<N>)
    requires x in v && z in v && x != z
    requires b.Some? ==> b.value in v && b.value != x && b.value != z && !v[b.value].red
    ensures Bent(v, Bend(v, d, x, z, b), d, x, z, b)
  {
    if d.Left? {} else {}
  }

  lemma KinkCells<N>(v: View<N>, d: Side, x: N, z: N, y: N, b: Option<N>)
    requires x in v && z in v && y in v && x != z && x != y && y != z
    requires b.Some? ==> b.value in v && b.value != x && b.value != z && b.value != y && !v[b.value].red
    ensures Kinked(v, Kink(v, d, x, z, y, b), d, x, z, y, b)
  {
    if d.Left? {} else {}
  }

  // ---------------------------------------------------------------- on trees

  lemma {:induction false} SpinSlots<N>(s: Spin<N>, v: View<N>, xr: bool, yr: bool)
    requires Wired(v, Plug(s.up, s.Old(xr, yr)))
    ensures Slots(v, s.x, s.y, Ptr(s.b), Parent(s.up), if s.up.In? then s.up.side else Left)
    ensures v[s.y].parent == Parent(s.up) && v[s.x].parent == Some(s.y)
    ensures v[s.x].red == xr && v[s.y].red == yr
    ensures Kid(v[s.x], s.d) == Ptr(s.a) && Kid(v[s.x], Flip(s.d)) == Ptr(s.b)
    ensures Kid(v[s.y], s.d) == Some(s.x) && Kid(v[s.y], Flip(s.d)) == Ptr(s.c)
    ensures s.b.T? ==> v[s.b.n].red == s.b.red
    ensures s.a.T? ==> s.a.n in v && v[s.a.n].red == s.a.red && v[s.a.n].parent == Some(s.x)
    ensures s.a.T? ==> s.a.n != s.x && s.a.n != s.y && Ptr(s.a) != Ptr(s.b) && Ptr(s.a) != Parent(s.up)
  {
    SpinParts(s, v, xr, yr);
    if s.up.In? { Above(v, s.up, s.Old(xr, yr)); }
    if s.d.Left? {} else {}
  }

  /** Insert Case 3, erase Case 1. */
  lemma {:induction false} TurnWired<N>(s: Spin<N>, v: View<N>, xr: bool, yr: bool, yr': bool)
    requires Wired(v, Plug(s.up, s.Old(xr, yr))) && !IsRed(s.b)
    ensures s.x in v && s.y in v
    ensures Wired(Turn(v, s.d, s.x, s.y, Ptr(s.b), yr'), Plug(s.up, s.New(IsRed(s.a), yr, yr')))
    ensures Nodes(Plug(s.up, s.New(IsRed(s.a), yr, yr'))) == Nodes(Plug(s.up, s.Old(xr, yr)))
    ensures Ptr(Plug(s.up, s.New(IsRed(s.a), yr, yr'))) == if s.up.Top? then Some(s.x)
      else Ptr(Plug(s.up, s.Old(xr, yr)))
  {
    SpinSlots(s, v, xr, yr);
    TurnCells(v, s.d, s.x, s.y, Ptr(s.b), Parent(s.up), if s.up.In? then s.up.side else Left, yr');
    SpinWired(s, v, Turn(v, s.d, s.x, s.y, Ptr(s.b), yr'), xr, yr, IsRed(s.a), yr, yr');
  }

  /** Erase Case 4. */
  lemma {:induction false} TurnKeepWired<N>(s: Spin<N>, v: View<N>, xr: bool, yr: bool)
    requires Wired(v, Plug(s.up, s.Old(xr, yr))) && s.a.T?
    ensures s.x in v && s.y in v
    ensures Wired(TurnKeep(v, s.d, s.x, s.y, Ptr(s.a), Ptr(s.b)), Plug(s.up, s.New(false, yr, false)))
    ensures Nodes(Plug(s.up, s.New(false, yr, false))) == Nodes(Plug(s.up, s.Old(xr, yr)))
    ensures Ptr(Plug(s.up, s.New(false, yr, false))) == if s.up.Top? then Some(s.x) else Ptr(Plug(s.up, s.Old(xr, yr)))
  {
    SpinSlots(s, v, xr, yr);
    TurnKeepCells(v, s.d, s.x, s.y, s.a.n, Ptr(s.b), Parent(s.up), if s.up.In? then s.up.side else Left);
    SpinWired(s, v, TurnKeep(v, s.d, s.x, s.y, Ptr(s.a), Ptr(s.b)), xr, yr, false, yr, false);
  }

  /** The fields around `x`, its inner child `z` and its parent `y`, before a double rotation. */
  ghost predicate Corner<N>(v: View<N>, d: Side, x: N, z: N, y: N, a: Option<N>, b: Option<N>, c: Option<N>,
                            e: Option<N>,
                            g: Option<N>, gd: Side) {
    && x in v && y in v && z in v && x != y && x != z && y != z
    && v[x] == MkCell(d, a, Some(z), Some(y), v[x].red)
    && v[z] == MkCell(d, b, c, Some(x), v[z].red)
    && v[y] == MkCell(d, Some(x), e, g, v[y].red)
    && (b.Some? ==> b.value in v && b.value != x && b.value != y && b.value != z && b != c && b != g)
    && (c.Some? ==> c.value in v && c.value != x && c.value != y && c.value != z && c != g)
    && (g.Some? ==>
       g.value in v && g.value != x && g.value != y && g.value != z && (gd.Left? <==> v[g.value].left == Some(y)))
  }

  /** The same fields afterwards. */
  ghost predicate Cornered<N>(v: View<N>, w: View<N>, d: Side, x: N, z: N, y: N, a: Option<N>, b: Option<N>,
                              c: Option<N>, e: Option<N>,
                              g: Option<N>, gd: Side, xr: bool, zr: bool, yr: bool) {
    && Only(v, w, {x, y, z} + Opt(b) + Opt(c) + Opt(g)) && x in w && y in w && z in w
    && w[x] == MkCell(d, a, b, Some(z), xr)
    && w[z] == MkCell(d, Some(x), Some(y), g, zr)
    && w[y] == MkCell(d, c, e, Some(z), yr)
    && (b.Some? ==> b.value in v && b.value in w && w[b.value] == v[b.value].(parent := Some(x)))
    && (c.Some? ==> c.value in v && c.value in w && w[c.value] == v[c.value].(parent := Some(y)))
    && (g.Some? ==> g.value in v && g.value in w && w[g.value] == WithKid(v[g.value], gd, Some(z)))
  }

  lemma OnlyTrans<N>(u: View<N>, v: View<N>, w: View<N>, j: set<N>, k: set<N>, m: set<N>)
    requires Only(u, v, j) && Only(v, w, k) && j <= m && k <= m
    ensures Only(u, w, m)
  {
  }

  lemma BentSlots<N>(v: View<N>, u: View<N>, d: Side, x: N, z: N, y: N, a: Option<N>, b: Option<N>, c: Option<N>,
                     e: Option<N>,
                     g: Option<N>, gd: Side)
    requires Corner(v, d, x, z, y, a, b, c, e, g, gd) && Bent(v, u, d, x, z, b)
    ensures Slots(u, z, y, c, g, gd) && u[y].parent == g && (c.Some? ==> u[c.value].red == v[c.value].red)
  {
    if d.Left? {} else {}
  }

  lemma KinkedSlots<N>(v: View<N>, u: View<N>, d: Side, x: N, z: N, y: N, a: Option<N>, b: Option<N>, c: Option<N>,
                       e: Option<N>,
                       g: Option<N>, gd: Side)
    requires Corner(v, d, x, z, y, a, b, c, e, g, gd) && Kinked(v, u, d, x, z, y, b)
    ensures Slots(u, z, y, c, g, gd) && u[y].parent == g
  {
    if d.Left? {} else {}
  }

  lemma BentRotated<N>(v: View<N>, u: View<N>, w: View<N>, d: Side, x: N, z: N, y: N, a: Option<N>, b: Option<N>,
                       c: Option<N>, e: Option<N>,
                       g: Option<N>, gd: Side)
    requires Corner(v, d, x, z, y, a, b, c, e, g, gd) && Bent(v, u, d, x, z, b)
    requires Only(u, w, {z, y} + Opt(c) + Opt(g)) && Rotated(u, w, d, z, y, c, g, gd, true)
    ensures Cornered(v, w, d, x, z, y, a, b, c, e, g, gd, true, v[y].red, true)
  {
    OnlyTrans(v, u, w, {x, z} + Opt(b), {z, y} + Opt(c) + Opt(g), {x, y, z} + Opt(b) + Opt(c) + Opt(g));
    if d.Left? {} else {}
  }

  lemma KinkedRotated<N>(v: View<N>, u: View<N>, w: View<N>, d: Side, x: N, z: N, y: N, a: Option<N>, b: Option<N>,
                         c: Option<N>, e: Option<N>,
                         g: Option<N>, gd: Side)
    requires Corner(v, d, x, z, y, a, b, c, e, g, gd) && Kinked(v, u, d, x, z, y, b)
    requires Only(u, w, {z, y, x} + Opt(c) + Opt(g)) && Rotated(u, w, d, z, y, c, g, gd, false)
    requires w[x] == u[x].(parent := Some(z), red := false)
    ensures Cornered(v, w, d, x, z, y, a, b, c, e, g, gd, false, v[y].red, false)
  {
    OnlyTrans(v, u, w, {x, y, z} + Opt(b), {z, y, x} + Opt(c) + Opt(g), {x, y, z} + Opt(b) + Opt(c) + Opt(g));
    if d.Left? {} else {}
  }

  lemma {:induction false} TwistCorner<N>(s: Twist<N>, v: View<N>, xr: bool, zr: bool, yr: bool)
    requires Wired(v, Plug(s.up, s.Old(xr, zr, yr)))
    ensures Corner(v, s.d, s.x, s.z, s.y, Ptr(s.a), Ptr(s.b), Ptr(s.c), Ptr(s.e), Parent(s.up),
                   if s.up.In? then s.up.side else Left)
    ensures v[s.x].red == xr && v[s.z].red == zr && v[s.y].red == yr
    ensures (s.b.T? ==> v[s.b.n].red == s.b.red) && (s.c.T? ==> v[s.c.n].red == s.c.red)
  {
    TwistParts(s, v, xr, zr, yr);
    if s.up.In? { Above(v, s.up, s.Old(xr, zr, yr)); }
  }

  /** Insert Case 2 followed by Case 3. */
  lemma {:induction false} BendWired<N>(s: Twist<N>, v: View<N>, xr: bool, zr: bool, yr: bool)
    requires Wired(v, Plug(s.up, s.Old(xr, zr, yr))) && !IsRed(s.b) && !IsRed(s.c)
    ensures s.x in v && s.z in v && s.y in v
    ensures Wired(Turn(Bend(v, s.d, s.x, s.z, Ptr(s.b)), s.d, s.z, s.y, Ptr(s.c), true),
                  Plug(s.up, s.New(true, yr, true)))
    ensures Nodes(Plug(s.up, s.New(true, yr, true))) == Nodes(Plug(s.up, s.Old(xr, zr, yr)))
    ensures Ptr(Plug(s.up, s.New(true, yr, true))) == if s.up.Top? then Some(s.z)
      else Ptr(Plug(s.up, s.Old(xr, zr, yr)))
  {
    TwistCorner(s, v, xr, zr, yr);
    var b, c, g, gd := Ptr(s.b), Ptr(s.c), Parent(s.up), if s.up.In? then s.up.side else Left;
    var u := Bend(v, s.d, s.x, s.z, b);
    BendCells(v, s.d, s.x, s.z, b);
    BentSlots(v, u, s.d, s.x, s.z, s.y, Ptr(s.a), b, c, Ptr(s.e), g, gd);
    TurnCells(u, s.d, s.z, s.y, c, g, gd, true);
    var w := Turn(u, s.d, s.z, s.y, c, true);
    BentRotated(v, u, w, s.d, s.x, s.z, s.y, Ptr(s.a), b, c, Ptr(s.e), g, gd);
    TwistWired(s, v, w, xr, zr, yr, true, yr, true);
  }

  /** Erase Case 3 followed by Case 4. */
  lemma {:induction false} KinkWired<N>(s: Twist<N>, v: View<N>, zr: bool, yr: bool)
    requires Wired(v, Plug(s.up, s.Old(false, zr, yr))) && !IsRed(s.b)
    ensures s.x in v && s.z in v && s.y in v
    ensures Wired(TurnKeep(Kink(v, s.d, s.x, s.z, s.y, Ptr(s.b)), s.d, s.z, s.y, Some(s.x), Ptr(s.c)),
                  Plug(s.up, s.New(false, yr, false)))
    ensures Nodes(Plug(s.up, s.New(false, yr, false))) == Nodes(Plug(s.up, s.Old(false, zr, yr)))
    ensures Ptr(Plug(s.up, s.New(false, yr, false))) == if s.up.Top? then Some(s.z)
      else Ptr(Plug(s.up, s.Old(false, zr, yr)))
  {
    TwistCorner(s, v, false, zr, yr);
    var b, c, g, gd := Ptr(s.b), Ptr(s.c), Parent(s.up), if s.up.In? then s.up.side else Left;
    var u := Kink(v, s.d, s.x, s.z, s.y, b);
    KinkCells(v, s.d, s.x, s.z, s.y, b);
    KinkedSlots(v, u, s.d, s.x, s.z, s.y, Ptr(s.a), b, c, Ptr(s.e), g, gd);
    TurnKeepCells(u, s.d, s.z, s.y, s.x, c, g, gd);
    var w := TurnKeep(u, s.d, s.z, s.y, Some(s.x), c);
    KinkedRotated(v, u, w, s.d, s.x, s.z, s.y, Ptr(s.a), b, c, Ptr(s.e), g, gd);
    TwistWired(s, v, w, false, zr, yr, false, yr, false);
  }

  // ---------------------------------------------------------------- colour flip on insertion

  ghost function Flipped<N>(c: Ctx<N>, t: Tree<N>): Tree<N>
    requires c.In? && c.up.In?
  {
    Mk(c.up.side, Mk(c.side, t, c.n, false, c.other), c.up.n, true, Repaint(c.up.other, false))
  }

  /** Insert Case 1 (src/rbtree.c:109-113): paint the uncle, the parent and the grandparent. */
  ghost function FlipPut<N>(v: View<N>, u: N, p: N, g: N): View<N>
    requires g in v
  {
    PutPC(PutPC(PutPC(v, Some(u), Some(g), false), Some(p), Some(g), false), Some(g), v[g].parent, true)
  }

  lemma {:induction false} FlipWired<N>(v: View<N>, c: Ctx<N>, t: Tree<N>)
    requires Wired(v, Plug(c, t)) && c.In? && c.up.In? && c.up.other.T?
    ensures c.n in v && c.up.n in v && c.up.other.n in v && c.n != c.up.n && c.up.n != c.up.other.n
    ensures Wired(FlipPut(v, c.up.other.n, c.n, c.up.n), Plug(c.up.up, Flipped(c, t)))
    ensures Nodes(Plug(c.up.up, Flipped(c, t))) == Nodes(Plug(c, t))
    ensures Ptr(Plug(c.up.up, Flipped(c, t))) == Ptr(Plug(c, t))
  {
    var g, u, p := c.up, c.up.other, Mk(c.side, t, c.n, c.red, c.other);
    var cu, cp := In(Flip(g.side), g.n, g.red, p, g.up), In(g.side, g.n, g.red, Repaint(u, false), g.up);
    FlipContexts(c, t);
    var v1 := PutPC(v, Some(u.n), Some(g.n), false);
    Here(v, cu, u);
    Here(v, g, p);
    Above(v, c, t);
    Above(v, g, p);
    Above(v, cu, u);
    PaintWired(v, cu, u, false);
    PaintWired(v1, cp, p, false);
    PaintWired(PutPC(v1, Some(c.n), Some(g.n), false), g.up,
               Mk(g.side, Repaint(p, false), g.n, g.red, Repaint(u, false)), true);
  }

  /** The three positions that are painted, as contexts. */
  lemma {:induction false} FlipContexts<N>(c: Ctx<N>, t: Tree<N>)
    requires c.In? && c.up.In? && c.up.other.T?
    ensures var g, u, p := c.up, c.up.other, Mk(c.side, t, c.n, c.red, c.other);
      var cu, cp := In(Flip(g.side), g.n, g.red, p, g.up), In(g.side, g.n, g.red, Repaint(u, false), g.up);
      && Plug(c, t) == Plug(cu, u) == Plug(g, p) && Ptr(p) == Some(c.n)
      && Plug(cu, Repaint(u, false)) == Plug(cp, p)
      && Plug(cp, Repaint(p, false)) == Plug(g.up, Mk(g.side, Repaint(p, false), g.n, g.red, Repaint(u, false)))
      && Repaint(Mk(g.side, Repaint(p, false), g.n, g.red, Repaint(u, false)), true) == Flipped(c, t)
  {
    if c.up.side.Left? {} else {}
  }

  lemma {:induction false} FlipInorder<N>(c: Ctx<N>, t: Tree<N>)
    requires c.In? && c.up.In? && c.up.other.T?
    ensures Inorder(Plug(c.up.up, Flipped(c, t))) == Inorder(Plug(c, t))
  {
    var g, u, p := c.up, c.up.other, Mk(c.side, t, c.n, c.red, c.other);
    FlipContexts(c, t);
    PaintInorder(In(Flip(g.side), g.n, g.red, p, g.up), u, false);
    PaintInorder(In(g.side, g.n, g.red, Repaint(u, false), g.up), p, false);
    PaintInorder(g.up, Mk(g.side, Repaint(p, false), g.n, g.red, Repaint(u, false)), true);
  }

  lemma {:induction false} FlipUpkept<N, A(!new)>(f: Fold<N, A>, m: map<N, A>, c: Ctx<N>, t: Tree<N>)
    requires c.In? && c.up.In? && c.up.other.T? && Upkept(f, m, Plug(c, t))
    ensures Upkept(f, m, Plug(c.up.up, Flipped(c, t)))
  {
    var g, u, p := c.up, c.up.other, Mk(c.side, t, c.n, c.red, c.other);
    FlipContexts(c, t);
    PaintUpkept(f, m, In(Flip(g.side), g.n, g.red, p, g.up), u, false);
    PaintUpkept(f, m, In(g.side, g.n, g.red, Repaint(u, false), g.up), p, false);
    PaintUpkept(f, m, g.up, Mk(g.side, Repaint(p, false), g.n, g.red, Repaint(u, false)), true);
  }
}

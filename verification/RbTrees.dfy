/**
 The abstract side of the red-black tree engine (src/rbtree.c): binary trees whose
 nodes have an identity and a colour, one-hole contexts ("the path to the root"),
 the red-black properties 2-5 of src/rbtree.c:26-39, and the in-order sequence.
 Nothing here mentions the heap.
 */
module RbTrees {
  import opened Seqs

  datatype Option<+T> = None | Some(value: T)

  datatype Side = Left | Right

  datatype Tree<N> = Nil | T(left: Tree<N>, n: N, red: bool, right: Tree<N>)

  /** A tree with one hole: `In(d, n, red, o, up)` puts the hole on side `d` of `n`. */
  datatype Ctx<N> = Top | In(side: Side, n: N, red: bool, other: Tree<N>, up: Ctx<N>)

  function Flip(d: Side): Side {
    if d.Left? then Right else Left
  }

  /** The node `n` with `near` as its child on side `d` and `far` on the other side. */
  function Mk<N>(d: Side, near: Tree<N>, n: N, red: bool, far: Tree<N>): Tree<N> {
    if d.Left? then T(near, n, red, far) else T(far, n, red, near)
  }

  function Ptr<N>(t: Tree<N>): Option<N> {
    if t.Nil? then None else Some(t.n)
  }

  function Parent<N>(c: Ctx<N>): Option<N> {
    if c.Top? then None else Some(c.n)
  }

  /** The number of nodes above the hole. */
  ghost function Depth<N>(c: Ctx<N>): nat {
    if c.Top? then 0 else 1 + Depth(c.up)
  }

  function Plug<N>(c: Ctx<N>, t: Tree<N>): Tree<N>
    decreases c
  {
    match c
    case Top => t
    case In(d, n, red, o, up) => Plug(up, Mk(d, t, n, red, o))
  }

  predicate IsRed<N>(t: Tree<N>) {
    t.T? && t.red
  }

  function Repaint<N>(t: Tree<N>, red: bool): Tree<N> {
    if t.Nil? then Nil else t.(red := red)
  }

  // ---------------------------------------------------------------- node sets

  ghost function Nodes<N>(t: Tree<N>): set<N> {
    match t
    case Nil => {}
    case T(l, n, _, r) => Nodes(l) + {n} + Nodes(r)
  }

  ghost function NodesC<N>(c: Ctx<N>): set<N> {
    match c
    case Top => {}
    case In(_, n, _, o, up) => Nodes(o) + {n} + NodesC(up)
  }

  /** No node occurs twice. */
  ghost predicate Distinct<N>(t: Tree<N>) {
    t.T? ==>
      && t.n !in Nodes(t.left) && t.n !in Nodes(t.right) && Nodes(t.left) !! Nodes(t.right)
      && Distinct(t.left) && Distinct(t.right)
  }

  ghost predicate DistinctC<N>(c: Ctx<N>) {
    c.In? ==>
      && c.n !in Nodes(c.other) && c.n !in NodesC(c.up) && Nodes(c.other) !! NodesC(c.up)
      && Distinct(c.other) && DistinctC(c.up)
  }

  lemma {:induction false} OpenDistinct<N>(d: Side, a: Tree<N>, x: N, xr: bool, b: Tree<N>)
    ensures Nodes(Mk(d, a, x, xr, b)) == Nodes(a) + {x} + Nodes(b)
    ensures Distinct(Mk(d, a, x, xr, b)) <==>
              Distinct(a) && Distinct(b) && x !in Nodes(a) && x !in Nodes(b) && Nodes(a) !! Nodes(b)
  {
    if d.Left? {} else {}
  }

  lemma {:induction false} PlugDistinct<N>(c: Ctx<N>, t: Tree<N>)
    ensures Nodes(Plug(c, t)) == Nodes(t) + NodesC(c)
    ensures Distinct(Plug(c, t)) <==> Distinct(t) && DistinctC(c) && Nodes(t) !! NodesC(c)
    decreases c
  {
    if c.In? { PlugDistinct(c.up, Mk(c.side, t, c.n, c.red, c.other)); }
  }

  lemma {:induction false} PlugPtr<N>(c: Ctx<N>, s: Tree<N>, t: Tree<N>)
    ensures c.In? ==> Ptr(Plug(c, s)) == Ptr(Plug(c, t))
    decreases c
  {
    if c.In? && c.up.In? {
      PlugPtr(c.up, Mk(c.side, s, c.n, c.red, c.other), Mk(c.side, t, c.n, c.red, c.other));
    }
  }

  // ---------------------------------------------------------------- in-order

  ghost function Inorder<N>(t: Tree<N>): seq<N> {
    match t
    case Nil => []
    case T(l, n, _, r) => Inorder(l) + [n] + Inorder(r)
  }

  /** What the in-order walk visits before the hole. */
  ghost function Before<N>(c: Ctx<N>): seq<N> {
    match c
    case Top => []
    case In(d, n, _, o, up) => Before(up) + if d.Left? then [] else Inorder(o) + [n]
  }

  /** What the in-order walk visits after the hole. */
  ghost function After<N>(c: Ctx<N>): seq<N> {
    match c
    case Top => []
    case In(d, n, _, o, up) => (if d.Left? then [n] + Inorder(o) else []) + After(up)
  }

  lemma Shuffle<X>(a: seq<X>, b: seq<X>, c: seq<X>, d: seq<X>, e: seq<X>)
    ensures a + (b + c + d) + e == a + b + (c + d + e)
    ensures a + (b + c + d) + e == (a + (b + c)) + d + e
  {
  }

  lemma {:induction false} PlugInorder<N>(c: Ctx<N>, t: Tree<N>)
    ensures Inorder(Plug(c, t)) == Before(c) + Inorder(t) + After(c)
    decreases c
  {
    if c.In? {
      PlugInorder(c.up, Mk(c.side, t, c.n, c.red, c.other));
      if c.side.Left? {
        Shuffle(Before(c.up), Inorder(t), [c.n], Inorder(c.other), After(c.up));
        assert Before(c.up) + [] == Before(c.up);
      } else {
        Shuffle(Before(c.up), Inorder(c.other), [c.n], Inorder(t), After(c.up));
        assert [] + After(c.up) == After(c.up);
      }
    }
  }

  ghost predicate Elements<X>(s: seq<X>, e: set<X>) {
    (forall x :: x in s ==> x in e) && (forall x :: x in e ==> x in s)
  }

  lemma {:induction false} InorderNodes<N>(t: Tree<N>)
    ensures Elements(Inorder(t), Nodes(t))
  {
    if t.T? { InorderNodes(t.left); InorderNodes(t.right); }
  }

  ghost predicate Unshared<X>(r: seq<X>, s: seq<X>) {
    forall x :: x in r ==> x !in s
  }

  lemma {:induction false} InorderNoDup<N>(t: Tree<N>)
    requires Distinct(t)
    ensures NoDup(Inorder(t))
  {
    if t.T? {
      InorderNodes(t.left);
      InorderNodes(t.right);
      InorderNoDup(t.left);
      InorderNoDup(t.right);
      JoinNoDup(Inorder(t.left), t.n, Inorder(t.right));
    }
  }

  lemma JoinNoDup<X>(l: seq<X>, x: X, r: seq<X>)
    requires NoDup(l) && NoDup(r) && x !in l && x !in r
    requires Unshared(l, r)
    ensures NoDup(l + [x] + r)
  {
    var s, k := l + [x] + r, |l| + 1;
    forall i, j | 0 <= i < j < |s| ensures s[i] != s[j] {
      if i < |l| { assert s[i] == l[i] && l[i] in l; }
      if j > |l| { assert s[j] == r[j - k] && r[j - k] in r; }
      if i > |l| { assert s[i] == r[i - k]; }
      if j < |l| { assert s[j] == l[j]; }
    }
  }

  // ---------------------------------------------------------------- red-black

  /** Properties 4 and 5: no red node has a red child, and every path to a leaf meets `h` black nodes. */
  predicate Rb<N>(t: Tree<N>, h: nat) {
    match t
    case Nil => h == 0
    case T(l, _, red, r) =>
      if red then !IsRed(l) && !IsRed(r) && Rb(l, h) && Rb(r, h)
      else h > 0 && Rb(l, h - 1) && Rb(r, h - 1)
  }

  /** The black height read along the left spine. */
  function BlackHeight<N>(t: Tree<N>): nat {
    match t
    case Nil => 0
    case T(l, _, red, _) => BlackHeight(l) + if red then 0 else 1
  }

  /** Properties 2-5 of src/rbtree.c:26-39. */
  predicate RedBlack<N>(t: Tree<N>) {
    !IsRed(t) && Rb(t, BlackHeight(t))
  }

  lemma {:induction false} RbHeight<N>(t: Tree<N>, h: nat)
    requires Rb(t, h)
    ensures h == BlackHeight(t)
  {
    if t.T? { RbHeight(t.left, if t.red then h else h - 1); }
  }

  /** A context that becomes red-black when its hole takes a tree of black height `h` whose root is red iff `red`. */
  predicate RbC<N>(c: Ctx<N>, red: bool, h: nat) {
    match c
    case Top => !red
    case In(_, _, nred, o, up) =>
      && (nred ==> !red && !IsRed(o))
      && Rb(o, h)
      && RbC(up, nred, if nred then h else h + 1)
  }

  lemma {:induction false} OpenRb<N>(d: Side, a: Tree<N>, x: N, red: bool, b: Tree<N>, h: nat)
    ensures Rb(Mk(d, a, x, red, b), h) <==>
      if red then !IsRed(a) && !IsRed(b) && Rb(a, h) && Rb(b, h)
      else h > 0 && Rb(a, h - 1) && Rb(b, h - 1)
    ensures IsRed(Mk(d, a, x, red, b)) == red
  {
  }

  lemma {:induction false} PlugRb<N>(c: Ctx<N>, t: Tree<N>, h: nat)
    requires Rb(t, h) && RbC(c, IsRed(t), h)
    ensures RedBlack(Plug(c, t))
    decreases c
  {
    RbHeight(t, h);
    if c.In? {
      OpenRb(c.side, t, c.n, c.red, c.other, if c.red then h else h + 1);
      PlugRb(c.up, Mk(c.side, t, c.n, c.red, c.other), if c.red then h else h + 1);
    }
  }

  lemma {:induction false} UnplugRb<N>(c: Ctx<N>, t: Tree<N>)
    requires RedBlack(Plug(c, t))
    ensures Rb(t, BlackHeight(t)) && RbC(c, IsRed(t), BlackHeight(t))
    decreases c
  {
    if c.In? {
      var m := Mk(c.side, t, c.n, c.red, c.other);
      UnplugRb(c.up, m);
      OpenRb(c.side, t, c.n, c.red, c.other, BlackHeight(m));
      RbHeight(t, if c.red then BlackHeight(m) else BlackHeight(m) - 1);
    }
  }
}

/**
 The circular doubly linked lists of src/list.h: a head and its entries form one ring.  A
 snapshot of the links carries the reasoning; a list is its head and the sequence of its
 entries.
 */
module Lists {
  import opened Seqs


  class Link {
    var next: Link
    var prev: Link

    /** INIT_LIST_HEAD (src/list.h:23-27). */
    constructor ()
      ensures next == this && prev == this
    {
      next, prev := this, this;
    }
  }

  datatype Ends<N> = Ends(next: N, prev: N)

  type View<N> = map<N, Ends<N>>

  ghost predicate Adjacent<N>(v: View<N>, a: N, b: N) {
    a in v && b in v && v[a].next == b && v[b].prev == a
  }

  /** Neighbours in `q` are linked both ways. */
  ghost predicate Chain<N>(v: View<N>, q: seq<N>) {
    forall i, j :: 0 <= i < |q| - 1 && j == i + 1 ==> Adjacent(v, q[i], q[j])
  }

  /** The list with head `h` and entries `s`. */
  ghost predicate Ring<N>(v: View<N>, h: N, s: seq<N>) {
    Chain(v, [h] + s + [h]) && NoDup([h] + s)
  }

  /** `w` has the same keys, the same `next` along `q` but for the last, and the same `prev` but for the first. */
  ghost predicate Keeps<N>(v: View<N>, w: View<N>, q: seq<N>) {
    && v.Keys == w.Keys
    && (forall i :: 0 <= i < |q| - 1 && q[i] in v ==> w[q[i]].next == v[q[i]].next)
    && (forall i :: 1 <= i < |q| && q[i] in v ==> w[q[i]].prev == v[q[i]].prev)
  }

  lemma ChainFrame<N>(v: View<N>, w: View<N>, q: seq<N>)
    requires Chain(v, q) && Keeps(v, w, q)
    ensures Chain(w, q)
  {
    forall i, j | 0 <= i < |q| - 1 && j == i + 1 ensures Adjacent(w, q[i], q[j]) { assert Adjacent(v, q[i], q[j]); }
  }

  lemma ChainSplit<N>(v: View<N>, a: seq<N>, b: seq<N>)
    requires Chain(v, a + b) && a != [] && b != []
    ensures Chain(v, a) && Chain(v, b) && Adjacent(v, a[|a| - 1], b[0])
  {
    var q := a + b;
    forall i, j | 0 <= i < |a| - 1 && j == i + 1 ensures Adjacent(v, a[i], a[j]) { assert Adjacent(v, q[i], q[j]); }
    forall i, j | 0 <= i < |b| - 1 && j == i + 1 ensures Adjacent(v, b[i], b[j]) {
      assert Adjacent(v, q[|a| + i], q[|a| + j]);
    }
    assert Adjacent(v, q[|a| - 1], q[|a|]);
  }

  lemma ChainJoin<N>(v: View<N>, a: seq<N>, b: seq<N>)
    requires Chain(v, a) && Chain(v, b) && a != [] && b != [] && Adjacent(v, a[|a| - 1], b[0])
    ensures Chain(v, a + b)
  {
    var q := a + b;
    forall i, j | 0 <= i < |q| - 1 && j == i + 1 ensures Adjacent(v, q[i], q[j]) {
      if i < |a| - 1 { assert Adjacent(v, a[i], a[j]); }
      else if i >= |a| { assert Adjacent(v, b[i - |a|], b[j - |a|]); }
    }
  }

  ghost function PutNext<N>(v: View<N>, x: N, n: N): View<N> {
    if x in v then v[x := v[x].(next := n)] else v
  }

  ghost function PutPrev<N>(v: View<N>, x: N, p: N): View<N> {
    if x in v then v[x := v[x].(prev := p)] else v
  }

  function LastOf<N>(s: seq<N>): N
    requires s != []
  {
    s[|s| - 1]
  }

  /** `w` is `v` but for the `next` of nodes in `p` and the `prev` of nodes in `q`. */
  ghost predicate Touches<N>(v: View<N>, w: View<N>, p: set<N>, q: set<N>) {
    && v.Keys == w.Keys
    && (forall x :: x in v && x !in p ==> w[x].next == v[x].next)
    && (forall x :: x in v && x !in q ==> w[x].prev == v[x].prev)
  }

  /** A chain that avoids the nodes written to is kept. */
  lemma ChainKept<N>(v: View<N>, w: View<N>, p: set<N>, q: set<N>, c: seq<N>)
    requires Chain(v, c) && Touches(v, w, p, q)
    requires Safe(c, p, q)
    ensures Chain(w, c)
  {
    assert Keeps(v, w, c);
    ChainFrame(v, w, c);
  }

  ghost predicate Disjoint<N>(s: seq<N>, t: seq<N>) {
    forall x :: x in s ==> x !in t
  }

  lemma NoDupConcat<N>(s: seq<N>, t: seq<N>)
    ensures NoDup(s + t) <==> NoDup(s) && NoDup(t) && Disjoint(s, t)
  {
    var q := s + t;
    if NoDup(q) {
      forall i, j | 0 <= i < j < |s| ensures s[i] != s[j] { assert q[i] != q[j]; }
      forall i, j | 0 <= i < j < |t| ensures t[i] != t[j] { assert q[|s| + i] != q[|s| + j]; }
      forall x | x in s ensures x !in t {
        var i :| 0 <= i < |s| && s[i] == x;
        forall j | 0 <= j < |t| ensures t[j] != x { assert q[i] != q[|s| + j]; }
      }
    }
    if NoDup(s) && NoDup(t) && Disjoint(s, t) {
      forall i, j | 0 <= i < j < |q| ensures q[i] != q[j] {
        if i < |s| <= j { assert q[i] in s && q[j] in t; }
      }
    }
  }

  /** Writing the `next` of its last and the `prev` of another node leaves a chain intact. */
  ghost predicate Safe<N>(c: seq<N>, p: set<N>, q: set<N>) {
    (forall i :: 0 <= i < |c| - 1 ==> c[i] !in p) && (forall i :: 1 <= i < |c| ==> c[i] !in q)
  }

  /** The two halves of a ring, cut behind `s`, and the nodes at the cut. */
  lemma Halves<N>(h: N, s: seq<N>, t: seq<N>, p: N, n: N, x: set<N>)
    requires NoDup([h] + (s + t)) && p == LastOf([h] + s) && n == (t + [h])[0]
    requires forall y :: y in x ==> y !in [h] + (s + t)
    ensures Safe([h] + s, {p} + x, {n} + x) && Safe(t + [h], {p} + x, {n} + x)
  {
    var a, b, all := [h] + s, t + [h], [h] + (s + t);
    forall i | 0 <= i < |a| ensures a[i] == all[i] && a[i] in all {}
    forall i | 0 <= i < |t| ensures b[i] == all[|a| + i] && b[i] in all {}
    assert h == all[0] && h in all;
    forall i | 1 <= i < |a| ensures a[i] != n {
      if t == [] { assert all[0] != all[i]; } else { assert all[i] != all[|a|]; }
    }
    forall i | 0 <= i < |b| - 1 ensures b[i] != p { assert p == all[|a| - 1] && b[i] == all[|a| + i]; }
    forall i | 1 <= i < |b| ensures b[i] != n {
      if i < |t| { assert all[|a|] != all[|a| + i]; } else { assert all[0] != all[|a|]; }
    }
  }

  // ---------------------------------------------------------------- the operations on a snapshot

  /** __list_add (src/list.h:36-44). */
  ghost function AddV<N>(v: View<N>, x: N, prev: N, next: N): View<N> {
    PutNext(PutPrev(PutNext(PutPrev(v, next, x), x, next), x, prev), prev, x)
  }

  lemma AddTouches<N>(v: View<N>, x: N, p: N, n: N)
    requires x in v && p in v && n in v && x != p && x != n
    ensures var w := AddV(v, x, p, n);
      Touches(v, w, {p} + {x}, {n} + {x}) && Adjacent(w, p, x) && Adjacent(w, x, n)
  {
  }

  /** Between any two neighbours: behind `s` and before `t`. */
  lemma AddRing<N>(v: View<N>, x: N, h: N, s: seq<N>, t: seq<N>)
    requires x in v && Ring(v, h, s + t) && x !in [h] + (s + t)
    ensures var p, n := LastOf([h] + s), (t + [h])[0];
      Adjacent(v, p, n) && Ring(AddV(v, x, p, n), h, s + [x] + t) && Touches(v, AddV(v, x, p, n), {p} + {x}, {n} + {x})
  {
    var a, b := [h] + s, t + [h];
    assert [h] + (s + t) + [h] == a + b;
    ChainSplit(v, a, b);
    var p, n := LastOf(a), b[0];
    Halves(h, s, t, p, n, {x});
    var w := AddV(v, x, p, n);
    assert x !in a && x !in b;
    AddTouches(v, x, p, n);
    ChainKept(v, w, {p} + {x}, {n} + {x}, a);
    ChainKept(v, w, {p} + {x}, {n} + {x}, b);
    ChainJoin(w, a, [x]);
    ChainJoin(w, a + [x], b);
    assert [h] + (s + [x] + t) + [h] == a + [x] + b;
    NoDupInsert(a, x, t);
    assert [h] + (s + [x] + t) == a + [x] + t && [h] + (s + t) == a + t;
  }

  lemma NoDupInsert<N>(a: seq<N>, x: N, b: seq<N>)
    ensures NoDup(a + [x] + b) <==> NoDup(a + b) && x !in a + b
  {
    NoDupConcat(a, b);
    NoDupConcat(a + [x], b);
    NoDupConcat(a, [x]);
  }

  /** __list_del (src/list.h:85-89). */
  ghost function DelV<N>(v: View<N>, prev: N, next: N): View<N> {
    PutNext(PutPrev(v, next, prev), prev, next)
  }

  lemma DelTouches<N>(v: View<N>, p: N, n: N)
    requires p in v && n in v
    ensures var w := DelV(v, p, n); Touches(v, w, {p}, {n}) && Adjacent(w, p, n)
  {
  }

  lemma DelRing<N>(v: View<N>, x: N, h: N, s: seq<N>, t: seq<N>)
    requires Ring(v, h, s + [x] + t)
    ensures x in v && x !in [h] + (s + t)
    ensures var p, n := v[x].prev, v[x].next;
      Ring(DelV(v, p, n), h, s + t) && Touches(v, DelV(v, p, n), {p}, {n}) && p == LastOf([h] + s) && n == (t + [h])[0]
      && p in v && n in v
  {
    var a, b := [h] + s, t + [h];
    assert [h] + (s + [x] + t) == a + [x] + t && [h] + (s + [x] + t) + [h] == (a + [x]) + b && [h] + (s + t) == a + t;
    NoDupInsert(a, x, t);
    ChainSplit(v, a + [x], b);
    ChainSplit(v, a, [x]);
    assert LastOf(a + [x]) == x;
    var p, n := v[x].prev, v[x].next;
    Halves(h, s, t, p, n, {});
    var w := DelV(v, p, n);
    DelTouches(v, p, n);
    ChainKept(v, w, {p} + {}, {n} + {}, a);
    ChainKept(v, w, {p} + {}, {n} + {}, b);
    ChainJoin(w, a, b);
    assert [h] + (s + t) + [h] == a + b;
  }

  /** Writing `next` only at its last node, or elsewhere, and `prev` only at its first, keeps a chain. */
  lemma SafeEnds<N>(c: seq<N>, p: set<N>, q: set<N>)
    requires NoDup(c) && c != []
    requires forall x :: x in p ==> x == LastOf(c) || x !in c
    requires forall x :: x in q ==> x == c[0] || x !in c
    ensures Safe(c, p, q)
  {
    forall i | 0 <= i < |c| - 1 ensures c[i] !in p { assert c[i] != LastOf(c) && c[i] in c; }
    forall i | 1 <= i < |c| ensures c[i] !in q { assert c[i] != c[0] && c[i] in c; }
  }

  /** __list_cut_position (src/list.h:232-242). */
  ghost function CutV<N>(v: View<N>, l: N, h: N, e: N): View<N>
    requires h in v && e in v
  {
    var first, rest := v[h].next, v[e].next;
    PutPrev(PutNext(PutNext(PutPrev(PutPrev(PutNext(v, l, first), first, l), l, e), e, l), h, rest), rest, h)
  }

  lemma CutTouches<N>(v: View<N>, l: N, h: N, e: N)
    requires l in v && h in v && e in v && l != h && l != e && h != e && v[h].next in v && v[e].next in v
    requires v[h].next != l && v[e].next != l && v[h].next != v[e].next
    ensures var w, first, rest := CutV(v, l, h, e), v[h].next, v[e].next;
      && Touches(v, w, {l, e, h}, {first, l, rest})
      && Adjacent(w, l, first) && Adjacent(w, e, l) && Adjacent(w, h, rest)
  {
  }

  lemma CutRing<N>(v: View<N>, l: N, h: N, s: seq<N>, e: N, t: seq<N>)
    requires l in v && Ring(v, h, s + [e] + t) && l !in [h] + (s + [e] + t)
    ensures h in v && e in v && v[h].next in v && v[e].next in v
    ensures Ring(CutV(v, l, h, e), l, s + [e]) && Ring(CutV(v, l, h, e), h, t)
  {
    var c, d := s + [e], t + [h];
    assert [h] + (s + [e] + t) + [h] == ([h] + c) + d && [h] + (s + [e] + t) == [h] + (c + t);
    NoDupConcat([h], c + t);
    NoDupConcat(c, t);
    NoDupConcat(t, [h]);
    NoDupConcat([h], t);
    NoDupConcat([l], c);
    ChainSplit(v, [h] + c, d);
    ChainSplit(v, [h], c);
    assert LastOf([h] + c) == e && LastOf(c) == e;
    var first, rest := c[0], d[0];
    assert e in c && first in c && rest in t + [h];
    var w := CutV(v, l, h, e);
    assert forall x :: x in c ==> x in c + t;
    assert forall x :: x in t ==> x in c + t;
    CutTouches(v, l, h, e);
    SafeEnds(c, {l, e, h}, {first, l, rest});
    SafeEnds(d, {l, e, h}, {first, l, rest});
    ChainKept(v, w, {l, e, h}, {first, l, rest}, c);
    ChainKept(v, w, {l, e, h}, {first, l, rest}, d);
    ChainJoin(w, [l], c);
    ChainJoin(w, [l] + c, [l]);
    ChainJoin(w, [h], d);
    assert [h] + t + [h] == [h] + d;
  }

  /** __list_splice (src/list.h:272-284). */
  ghost function SpliceV<N>(v: View<N>, l: N, p: N, n: N): View<N>
    requires l in v
  {
    var first, last := v[l].next, v[l].prev;
    PutPrev(PutNext(PutNext(PutPrev(v, first, p), p, first), last, n), n, last)
  }

  lemma SpliceTouches<N>(v: View<N>, l: N, p: N, n: N)
    requires l in v && p in v && n in v && v[l].next in v && v[l].prev in v
    requires v[l].next != n && v[l].prev != p
    ensures var w, first, last := SpliceV(v, l, p, n), v[l].next, v[l].prev;
      Touches(v, w, {p, last}, {first, n}) && Adjacent(w, p, first) && Adjacent(w, last, n)
  {
  }

  lemma SpliceNoDup<N>(l: N, a: seq<N>, h: N, s: seq<N>, t: seq<N>)
    requires NoDup([l] + a) && NoDup([h] + (s + t)) && Disjoint([l] + a, [h] + (s + t))
    ensures NoDup([h] + (s + a + t)) && l !in [h] + (s + a + t)
  {
    var c := [h] + s;
    assert [h] + (s + t) == c + t && [h] + (s + a + t) == (c + a) + t;
    NoDupConcat([l], a);
    NoDupConcat(c, t);
    forall x | x in a ensures x !in c && x !in t { assert x in [l] + a; }
    NoDupConcat(c, a);
    forall x | x in c + a ensures x !in t { if x in c {} else {} }
    NoDupConcat(c + a, t);
    assert l in [l] + a;
  }

  /** The entries `a` of the list `l` go between `s` and `t`. */
  lemma SpliceRing<N>(v: View<N>, l: N, a: seq<N>, h: N, s: seq<N>, t: seq<N>)
    requires a != [] && Ring(v, l, a) && Ring(v, h, s + t) && Disjoint([l] + a, [h] + (s + t))
    ensures var p, n := LastOf([h] + s), (t + [h])[0];
      l in v && Ring(SpliceV(v, l, p, n), h, s + a + t) && l !in [h] + (s + a + t)
  {
    var c, d, p, n := [h] + s, t + [h], LastOf([h] + s), (t + [h])[0];
    SpliceNoDup(l, a, h, s, t);
    assert [h] + (s + t) + [h] == c + d;
    ChainSplit(v, c, d);
    ChainSplit(v, [l] + a, [l]);
    ChainSplit(v, [l], a);
    assert LastOf([l] + a) == LastOf(a);
    SpliceSafe(l, a, h, s, t);
    SpliceTouches(v, l, p, n);
    var w := SpliceV(v, l, p, n);
    ChainKept(v, w, {p, LastOf(a)}, {a[0], n}, c);
    ChainKept(v, w, {p, LastOf(a)}, {a[0], n}, d);
    ChainKept(v, w, {p, LastOf(a)}, {a[0], n}, a);
    ChainJoin(w, c, a);
    ChainJoin(w, c + a, d);
    assert [h] + (s + a + t) + [h] == c + a + d;
  }

  lemma SpliceSafe<N>(l: N, a: seq<N>, h: N, s: seq<N>, t: seq<N>)
    requires a != [] && NoDup([l] + a) && NoDup([h] + (s + t)) && Disjoint([l] + a, [h] + (s + t))
    ensures var c, d, p, n := [h] + s, t + [h], LastOf([h] + s), (t + [h])[0];
      && Safe(c, {p, LastOf(a)}, {a[0], n}) && Safe(d, {p, LastOf(a)}, {a[0], n}) && Safe(a, {p, LastOf(a)}, {a[0], n})
      && a[0] != n && LastOf(a) != p
  {
    var c, d, p, n := [h] + s, t + [h], LastOf([h] + s), (t + [h])[0];
    assert [h] + (s + t) == c + t;
    NoDupConcat([l], a);
    NoDupConcat(c, t);
    NoDupConcat([h], s);
    NoDupConcat(t, [h]);
    assert a[0] in [l] + a && LastOf(a) in [l] + a && h in c + t;
    assert p in c && n in d;
    forall x | x in a ensures x !in c && x !in d { assert x in [l] + a; }
    SafeEnds(c, {p, LastOf(a)}, {a[0], n});
    SafeEnds(d, {p, LastOf(a)}, {a[0], n});
    SafeEnds(a, {p, LastOf(a)}, {a[0], n});
  }

  /** A list that shares no node with those written to is not affected. */
  lemma OtherRing<N>(v: View<N>, w: View<N>, p: set<N>, q: set<N>, h: N, s: seq<N>)
    requires Ring(v, h, s) && Touches(v, w, p, q)
    requires forall x :: x in [h] + s ==> x !in p && x !in q
    ensures Ring(w, h, s)
  {
    var c := [h] + s + [h];
    forall i | 0 <= i < |c| ensures c[i] in [h] + s {}
    ChainKept(v, w, p, q, c);
  }

  // ---------------------------------------------------------------- the operations on the heap

  ghost function ViewOf(all: set<Link>): View<Link>
    reads all
  {
    map x | x in all :: Ends(x.next, x.prev)
  }

  method SetNext(ghost all: set<Link>, x: Link, n: Link)
    requires x in all
    modifies x
    ensures ViewOf(all) == PutNext(old(ViewOf(all)), x, n)
  {
    x.next := n;
  }

  method SetPrev(ghost all: set<Link>, x: Link, p: Link)
    requires x in all
    modifies x
    ensures ViewOf(all) == PutPrev(old(ViewOf(all)), x, p)
  {
    x.prev := p;
  }

  lemma Members(all: set<Link>, h: Link, s: seq<Link>)
    requires Chain(ViewOf(all), [h] + s + [h])
    ensures forall x :: x in [h] + s ==> x in all
    ensures h.next == (s + [h])[0] && h.prev == LastOf([h] + s)
  {
    var c := [h] + s + [h];
    forall i | 0 <= i < |c| - 1 ensures c[i] in all { assert Adjacent(ViewOf(all), c[i], c[i + 1]); }
    assert Adjacent(ViewOf(all), c[0], c[1]) && Adjacent(ViewOf(all), c[|c| - 2], c[|c| - 1]);
    assert forall x :: x in [h] + s ==> x in c[..|c| - 1];
  }

  /** __list_add. */
  method Add(ghost all: set<Link>, x: Link, prev: Link, next: Link)
    requires x in all && prev in all && next in all
    modifies x, prev, next
    ensures ViewOf(all) == AddV(old(ViewOf(all)), x, prev, next)
  {
    SetPrev(all, next, x);
    SetNext(all, x, next);
    SetPrev(all, x, prev);
    SetNext(all, prev, x);
  }

  /** list_add (src/list.h:59-62). */
  method ListAdd(ghost all: set<Link>, x: Link, head: Link, ghost s: seq<Link>)
    requires x in all && Ring(ViewOf(all), head, s) && x !in [head] + s
    modifies all
    ensures Ring(ViewOf(all), head, [x] + s)
    ensures Touches(old(ViewOf(all)), ViewOf(all), {head, x}, {(s + [head])[0], x})
  {
    Members(all, head, s);
    assert [] + s == s && [head] + [] == [head] && [] + [x] + s == [x] + s;
    AddRing(ViewOf(all), x, head, [], s);
    Add(all, x, head, head.next);
  }

  /** list_add_tail (src/list.h:73-76). */
  method ListAddTail(ghost all: set<Link>, x: Link, head: Link, ghost s: seq<Link>)
    requires x in all && Ring(ViewOf(all), head, s) && x !in [head] + s
    modifies all
    ensures Ring(ViewOf(all), head, s + [x])
    ensures Touches(old(ViewOf(all)), ViewOf(all), {LastOf([head] + s), x}, {head, x})
  {
    Members(all, head, s);
    assert s + [] == s && s + [x] + [] == s + [x];
    AddRing(ViewOf(all), x, head, s, []);
    Add(all, x, head.prev, head);
  }

  /** list_del_init (src/list.h:141-145): the entry is taken out and becomes an empty list of its own. */
  method ListDelInit(ghost all: set<Link>, x: Link, ghost head: Link, ghost s: seq<Link>, ghost t: seq<Link>)
    requires Ring(ViewOf(all), head, s + [x] + t)
    modifies all
    ensures Ring(ViewOf(all), head, s + t) && Ring(ViewOf(all), x, []) && x !in [head] + (s + t)
    ensures Touches(old(ViewOf(all)), ViewOf(all), {LastOf([head] + s), x}, {(t + [head])[0], x})
  {
    ghost var v := ViewOf(all);
    DelRing(v, x, head, s, t);
    var prev, next := x.prev, x.next;
    SetPrev(all, next, prev);
    SetNext(all, prev, next);
    ghost var w := ViewOf(all);
    SetNext(all, x, x);
    SetPrev(all, x, x);
    OtherRing(w, ViewOf(all), {x}, {x}, head, s + t);
  }

  /** list_is_singular (src/list.h:227-230). */
  method IsSingular(ghost all: set<Link>, head: Link, ghost s: seq<Link>) returns (r: bool)
    requires Ring(ViewOf(all), head, s)
    ensures r <==> |s| == 1
  {
    Members(all, head, s);
    var c := head.next;
    r := head.next != head && head.next == head.prev;
    assert NoDup([head] + s);
    if |s| > 0 { assert ([head] + s)[0] != ([head] + s)[1] && s[0] == ([head] + s)[1]; }
    if |s| > 1 { assert ([head] + s)[1] != ([head] + s)[|s|] && LastOf([head] + s) == s[|s| - 1]; }
  }

  /**
   list_cut_position (src/list.h:258-270): the entries up to and including `entry` move to
   `list`; with an empty `head`, or an entry that is not the only one of `head`, nothing is
   done at all, and `list` is not even emptied.
   */
  method ListCutPosition(ghost all: set<Link>, list: Link, head: Link, entry: Link, ghost s: seq<Link>,
                         ghost t: seq<Link>)
    requires list in all && Ring(ViewOf(all), head, s + t) && list !in [head] + (s + t)
    requires entry == LastOf([head] + s) || (|s + t| <= 1 && entry !in [head] + (s + t))
    modifies all
    ensures s + t == [] || entry !in [head] + (s + t) ==> ViewOf(all) == old(ViewOf(all))
    ensures s + t != [] && entry in [head] + (s + t) ==> Ring(ViewOf(all), list, s) && Ring(ViewOf(all), head, t)
  {
    Members(all, head, s + t);
    ghost var e := s + t;
    assert e != [] ==> e[0] != head by { if e != [] { assert ([head] + e)[0] != ([head] + e)[1]; } }
    if head.next == head {
      return;
    }
    var singular := IsSingular(all, head, s + t);
    if singular && head.next != entry && head != entry {
      assert e == [head.next] && entry !in [head] + e;
      return;
    }
    assert head in [head] + e && (singular ==> head.next in [head] + e);
    ghost var v := ViewOf(all);
    if entry == head {
      CutNothing(head, s, t);
      assert s + t == t;
      SetNext(all, list, list);
      SetPrev(all, list, list);
      OtherRing(v, ViewOf(all), {list}, {list}, head, s + t);
    } else {
      ghost var s0 := s[..|s| - 1];
      assert s + t == s0 + [entry] + t && s == s0 + [entry];
      CutRing(v, list, head, s0, entry, t);
      CutFields(all, list, head, entry);
    }
  }

  /** Cutting an empty list: the target keeps the entry it had, which is not one of the source. */
  method CutOfEmpty() returns (ghost all: set<Link>, list: Link, head: Link, x: Link)
    ensures Ring(ViewOf(all), head, []) && Ring(ViewOf(all), list, [x])
  {
    list := new Link();
    head := new Link();
    x := new Link();
    all := {list, head, x};
    Alone(all, list);
    Alone(all, head);
    ghost var v := ViewOf(all);
    ListAddTail(all, x, list, []);
    assert [] + [x] == [x] && [list] + [] == [list];
    OtherRing(v, ViewOf(all), {list, x}, {list, x}, head, []);
    ListCutPosition(all, list, head, head, [], []);
  }

  lemma Alone(all: set<Link>, x: Link)
    requires x in all && x.next == x && x.prev == x
    ensures Ring(ViewOf(all), x, [])
  {
  }

  lemma CutNothing<N>(h: N, s: seq<N>, t: seq<N>)
    requires NoDup([h] + (s + t))
    ensures s != [] ==> LastOf([h] + s) != h && s[0] != h
  {
    var all := [h] + (s + t);
    if s != [] { assert all[|s|] == LastOf([h] + s) && all[1] == s[0] && all[0] == h; }
  }

  method CutFields(ghost all: set<Link>, list: Link, head: Link, entry: Link)
    requires list in all && head in all && entry in all && head.next in all && entry.next in all
    modifies all
    ensures ViewOf(all) == CutV(old(ViewOf(all)), list, head, entry)
  {
    var newFirst, first := entry.next, head.next;
    SetNext(all, list, first);
    SetPrev(all, first, list);
    SetPrev(all, list, entry);
    SetNext(all, entry, list);
    SetNext(all, head, newFirst);
    SetPrev(all, newFirst, head);
  }

  /** list_splice and list_splice_init (src/list.h:291-296, 317-324): the entries go to the front of `head`. */
  method ListSplice(ghost all: set<Link>, list: Link, head: Link, init: bool, ghost a: seq<Link>, ghost b: seq<Link>)
    requires Ring(ViewOf(all), list, a) && Ring(ViewOf(all), head, b) && Disjoint([list] + a, [head] + b)
    modifies all
    ensures Ring(ViewOf(all), head, a + b) && (init || a == [] ==> Ring(ViewOf(all), list, []))
    ensures !init ==> list.next == old(list.next) && list.prev == old(list.prev)
  {
    Members(all, head, b);
    assert [] + b == b && [head] + [] == [head] && [] + a + b == a + b;
    Splice(all, list, head, head.next, init, head, a, [], b);
  }

  /** list_splice_tail and list_splice_tail_init (src/list.h:303-308, 334-341): to the end of `head`. */
  method ListSpliceTail(ghost all: set<Link>, list: Link, head: Link, init: bool, ghost a: seq<Link>,
                        ghost b: seq<Link>)
    requires Ring(ViewOf(all), list, a) && Ring(ViewOf(all), head, b) && Disjoint([list] + a, [head] + b)
    modifies all
    ensures Ring(ViewOf(all), head, b + a) && (init || a == [] ==> Ring(ViewOf(all), list, []))
    ensures !init ==> list.next == old(list.next) && list.prev == old(list.prev)
  {
    Members(all, head, b);
    assert b + [] == b && [] + [head] == [head] && b + a + [] == b + a;
    Splice(all, list, head.prev, head, init, head, a, b, []);
  }

  /** The common part: if `list` has entries they go between `prev` and `next`. */
  method Splice(ghost all: set<Link>, list: Link, prev: Link, next: Link, init: bool, ghost head: Link,
                ghost a: seq<Link>, ghost s: seq<Link>, ghost t: seq<Link>)
    requires Ring(ViewOf(all), list, a) && Ring(ViewOf(all), head, s + t) && Disjoint([list] + a, [head] + (s + t))
    requires prev == LastOf([head] + s) && next == (t + [head])[0]
    modifies all
    ensures Ring(ViewOf(all), head, s + a + t) && (init || a == [] ==> Ring(ViewOf(all), list, []))
    ensures !init ==> list.next == old(list.next) && list.prev == old(list.prev)
  {
    Members(all, list, a);
    Ends3(all, list, head, a, s, t);
    if list.next != list {
      SpliceRing(ViewOf(all), list, a, head, s, t);
      SpliceFields(all, list, prev, next);
      if init {
        ghost var w := ViewOf(all);
        SetNext(all, list, list);
        SetPrev(all, list, list);
        OtherRing(w, ViewOf(all), {list}, {list}, head, s + a + t);
      }
    } else {
      assert s + [] + t == s + t;
    }
  }

  /** The nodes at both ends are in use, and none of them is the head of the spliced list. */
  lemma Ends3(all: set<Link>, list: Link, head: Link, a: seq<Link>, s: seq<Link>, t: seq<Link>)
    requires Ring(ViewOf(all), list, a) && Ring(ViewOf(all), head, s + t) && Disjoint([list] + a, [head] + (s + t))
    ensures var prev, next := LastOf([head] + s), (t + [head])[0];
      prev in all && next in all && list in all && list.next in all && list.prev in all && list != prev && list != next
    ensures a != [] ==> list.next != list && list.prev != list
    ensures a == [] ==> list.next == list
  {
    Members(all, list, a);
    Members(all, head, s + t);
    assert LastOf([head] + s) in [head] + (s + t) && (t + [head])[0] in [head] + (s + t) && list in [list] + a;
    if a != [] {
      assert ([list] + a)[0] != ([list] + a)[1] && ([list] + a)[0] != ([list] + a)[|a|];
      assert list.next in [list] + a && list.prev in [list] + a;
    }
  }

  method SpliceFields(ghost all: set<Link>, list: Link, prev: Link, next: Link)
    requires list in all && prev in all && next in all && list.next in all && list.prev in all && list != prev
      && list != next
    requires list.next != list && list.prev != list
    modifies all
    ensures ViewOf(all) == SpliceV(old(ViewOf(all)), list, prev, next)
    ensures list.next == old(list.next) && list.prev == old(list.prev)
  {
    var first, last := list.next, list.prev;
    SetPrev(all, first, prev);
    SetNext(all, prev, first);
    SetNext(all, last, next);
    SetPrev(all, next, last);
  }

  // ---------------------------------------------------------------- emptying a list while walking it

  /**
   list_for_each_entry_safe with list_del_init in its body (src/machine.c:27-32): the
   successor is saved, then the entry is taken out.
   */
  method DrainList(ghost all: set<Link>, head: Link, ghost s: seq<Link>) returns (visited: seq<Link>)
    requires Ring(ViewOf(all), head, s)
    modifies all
    ensures visited == s && Ring(ViewOf(all), head, [])
    ensures forall x :: x in s ==> x in all && x.next == x && x.prev == x
  {
    visited := [];
    Members(all, head, s);
    var pos := head.next;
    ghost var rest := s;
    while pos != head
      invariant visited + rest == s && Ring(ViewOf(all), head, rest) && pos == (rest + [head])[0]
      invariant Parked(ViewOf(all), visited, [head] + rest)
      decreases |rest|
    {
      assert rest != [] && rest == [pos] + rest[1..];
      pos, visited := DrainFirst(all, head, pos, rest[1..], visited);
      rest := rest[1..];
    }
    assert rest + [] == rest;
    CutNothing(head, rest, []);
  }

  /** The entries are empty lists of their own, apart from `others`. */
  ghost predicate Parked(v: View<Link>, done: seq<Link>, others: seq<Link>) {
    forall x :: x in done ==> x in v && v[x].next == x && v[x].prev == x && x !in others
  }

  method DrainFirst(ghost all: set<Link>, head: Link, pos: Link, ghost rest: seq<Link>, done: seq<Link>)
    returns (n: Link, visited: seq<Link>)
    requires Ring(ViewOf(all), head, [pos] + rest) && Parked(ViewOf(all), done, [head] + ([pos] + rest))
    modifies all
    ensures visited == done + [pos] && n == (rest + [head])[0]
    ensures Ring(ViewOf(all), head, rest) && Parked(ViewOf(all), visited, [head] + rest)
  {
    Second(all, head, [pos] + rest);
    n := pos.next;
    ghost var v := ViewOf(all);
    assert [] + [pos] + rest == [pos] + rest && [] + rest == rest && [head] + [] == [head];
    ListDelInit(all, pos, head, [], rest);
    Members(all, pos, []);
    assert pos in [pos] + [] && pos.next == pos && pos.prev == pos && pos in all;
    forall x | x in done ensures x in ViewOf(all) && ViewOf(all)[x] == v[x] && x !in [head] + rest {
      assert (rest + [head])[0] in [head] + ([pos] + rest);
    }
    visited := done + [pos];
  }

  lemma Second(all: set<Link>, h: Link, s: seq<Link>)
    requires Ring(ViewOf(all), h, s) && s != []
    ensures s[0] in all && s[0].next == (s[1..] + [h])[0]
  {
    var c := [h] + s + [h];
    assert Adjacent(ViewOf(all), c[1], c[2]);
  }
}

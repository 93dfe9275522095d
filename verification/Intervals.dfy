/**
 Interval lookup in a tree ordered by start address (src/map.c:143-189), on the tree as a
 value: what maps__find answers for every shape the tree can have, and when that answer
 is complete.  `at` gives the range of a node.
 */
module Intervals {
  import opened Words
  import opened RbTrees
  import opened RbSearch

  datatype Range = Range(start: U64, end: U64)

  predicate Contains(r: Range, ip: U64) {
    r.start <= ip < r.end
  }

  /** The descent of maps__find: left below the start, right from the end on, else found. */
  ghost function FindIn<N>(t: Tree<N>, at: N -> Range, ip: U64): Option<N> {
    if t.Nil? then None
    else if ip < at(t.n).start then FindIn(t.left, at, ip)
    else if ip >= at(t.n).end then FindIn(t.right, at, ip)
    else Some(t.n)
  }

  /** Some range of `s` contains `ip`. */
  ghost predicate Held<N>(s: seq<N>, at: N -> Range, ip: U64) {
    exists i :: 0 <= i < |s| && Contains(at(s[i]), ip)
  }

  ghost predicate StartsAscend<N>(s: seq<N>, at: N -> Range) {
    forall i, j :: 0 <= i < j < |s| ==> at(s[i]).start <= at(s[j]).start
  }

  ghost predicate EndsAscend<N>(s: seq<N>, at: N -> Range) {
    forall i, j :: 0 <= i < j < |s| ==> at(s[i]).end <= at(s[j]).end
  }

  /**
   A range that starts before `ip` and ends before it, with `ip` in an earlier range but in
   no later one: a descent that meets it first turns away from the answer.
   */
  ghost predicate ShadowAt<N>(s: seq<N>, at: N -> Range, ip: U64, i: nat, j: nat) {
    && i < j < |s| && Contains(at(s[i]), ip)
    && at(s[j]).start <= ip && at(s[j]).end <= ip && !Held(s[j + 1..], at, ip)
  }

  ghost predicate Shadowed<N>(s: seq<N>, at: N -> Range, ip: U64) {
    exists i, j :: ShadowAt(s, at, ip, i, j)
  }

  /** Only ranges that contain `ip` are ever returned, whatever the ranges are. */
  lemma {:induction false} FindSound<N>(t: Tree<N>, at: N -> Range, ip: U64)
    ensures var r := FindIn(t, at, ip);
      r.Some? ==> Contains(at(r.value), ip) && r.value in Nodes(t) && Held(Inorder(t), at, ip)
  {
    if t.T? {
      var l, m := Inorder(t.left), Inorder(t.right);
      if ip < at(t.n).start {
        FindSound(t.left, at, ip);
        HeldConcat(l, t.n, m, at, ip);
      } else if ip >= at(t.n).end {
        FindSound(t.right, at, ip);
        HeldConcat(l, t.n, m, at, ip);
      } else {
        HeldConcat(l, t.n, m, at, ip);
      }
    }
  }

  lemma HeldConcat<N>(a: seq<N>, n: N, b: seq<N>, at: N -> Range, ip: U64)
    ensures Held(a + [n] + b, at, ip) <==> Held(a, at, ip) || Contains(at(n), ip) || Held(b, at, ip)
  {
    var s := a + [n] + b;
    if Held(a, at, ip) {
      var i :| 0 <= i < |a| && Contains(at(a[i]), ip);
      assert s[i] == a[i];
    }
    if Contains(at(n), ip) { assert s[|a|] == n; }
    if Held(b, at, ip) {
      var i :| 0 <= i < |b| && Contains(at(b[i]), ip);
      assert s[|a| + 1 + i] == b[i];
    }
    if Held(s, at, ip) {
      var i :| 0 <= i < |s| && Contains(at(s[i]), ip);
      if i < |a| { assert s[i] == a[i]; } else if i > |a| { assert s[i] == b[i - |a| - 1]; }
    }
  }

  lemma AscendParts<N>(a: seq<N>, n: N, b: seq<N>, at: N -> Range)
    requires StartsAscend(a + [n] + b, at)
    ensures StartsAscend(a, at) && StartsAscend(b, at)
  {
    var s := a + [n] + b;
    forall i, j | 0 <= i < j < |a| ensures at(a[i]).start <= at(a[j]).start { assert s[i] == a[i] && s[j] == a[j]; }
    forall i, j | 0 <= i < j < |b| ensures at(b[i]).start <= at(b[j]).start {
      assert s[|a| + 1 + i] == b[i] && s[|a| + 1 + j] == b[j];
    }
  }

  /** A shadow in the part behind `n` is a shadow in the whole. */
  lemma ShadowRight<N>(a: seq<N>, n: N, b: seq<N>, at: N -> Range, ip: U64)
    requires Shadowed(b, at, ip)
    ensures Shadowed(a + [n] + b, at, ip)
  {
    var s := a + [n] + b;
    var i: nat, j: nat :| ShadowAt(b, at, ip, i, j);
    assert s[|a| + 1 + j + 1..] == b[j + 1..];
    assert s[|a| + 1 + i] == b[i] && s[|a| + 1 + j] == b[j];
    assert ShadowAt(s, at, ip, |a| + 1 + i, |a| + 1 + j);
  }

  /** So is one before `n`, if nothing from `n` on contains `ip`. */
  lemma ShadowLeft<N>(a: seq<N>, n: N, b: seq<N>, at: N -> Range, ip: U64)
    requires Shadowed(a, at, ip) && !Contains(at(n), ip) && !Held(b, at, ip)
    ensures Shadowed(a + [n] + b, at, ip)
  {
    var s := a + [n] + b;
    var i: nat, j: nat :| ShadowAt(a, at, ip, i, j);
    assert s[j + 1..] == a[j + 1..] + [n] + b;
    HeldConcat(a[j + 1..], n, b, at, ip);
    assert s[i] == a[i] && s[j] == a[j];
    assert ShadowAt(s, at, ip, i, j);
  }

  /** And `n` itself casts one if it turns the search away from a range before it. */
  lemma ShadowHere<N>(a: seq<N>, n: N, b: seq<N>, at: N -> Range, ip: U64)
    requires at(n).start <= ip && at(n).end <= ip && Held(a, at, ip) && !Held(b, at, ip)
    ensures Shadowed(a + [n] + b, at, ip)
  {
    var s := a + [n] + b;
    var i :| 0 <= i < |a| && Contains(at(a[i]), ip);
    assert s[i] == a[i] && s[|a|] == n && s[|a| + 1..] == b;
    assert ShadowAt(s, at, ip, i, |a|);
  }

  /** Nothing behind a later start contains `ip`. */
  lemma NothingBehind<N>(a: seq<N>, n: N, b: seq<N>, at: N -> Range, ip: U64)
    requires StartsAscend(a + [n] + b, at) && ip < at(n).start
    ensures !Held(b, at, ip)
  {
    var s := a + [n] + b;
    forall i | 0 <= i < |b| ensures !Contains(at(b[i]), ip) { assert s[|a|] == n && s[|a| + 1 + i] == b[i]; }
  }

  /** Parts of a sequence without a shadow have none; on the right of a part nothing contains `ip`. */
  lemma UnshadowedPart<N>(a: seq<N>, n: N, b: seq<N>, at: N -> Range, ip: U64)
    requires StartsAscend(a + [n] + b, at) && !Shadowed(a + [n] + b, at, ip)
    ensures StartsAscend(a, at) && StartsAscend(b, at)
    ensures !Shadowed(b, at, ip)
    ensures ip < at(n).start ==> !Shadowed(a, at, ip) && !Held(b, at, ip)
    ensures at(n).start <= ip && at(n).end <= ip && Held(a, at, ip) ==> Held(b, at, ip)
  {
    AscendParts(a, n, b, at);
    if Shadowed(b, at, ip) { ShadowRight(a, n, b, at, ip); }
    if ip < at(n).start {
      NothingBehind(a, n, b, at, ip);
      if Shadowed(a, at, ip) { ShadowLeft(a, n, b, at, ip); }
    }
    if at(n).start <= ip && at(n).end <= ip && Held(a, at, ip) && !Held(b, at, ip) { ShadowHere(a, n, b, at, ip); }
  }

  /** Without a shadow the search is complete, for every shape of the tree. */
  lemma {:induction false} FindComplete<N>(t: Tree<N>, at: N -> Range, ip: U64)
    requires StartsAscend(Inorder(t), at) && !Shadowed(Inorder(t), at, ip)
    ensures FindIn(t, at, ip).Some? <==> Held(Inorder(t), at, ip)
  {
    if t.T? {
      var l, m := Inorder(t.left), Inorder(t.right);
      UnshadowedPart(l, t.n, m, at, ip);
      HeldConcat(l, t.n, m, at, ip);
      if ip < at(t.n).start {
        FindComplete(t.left, at, ip);
      } else if ip >= at(t.n).end {
        FindComplete(t.right, at, ip);
      }
    }
  }

  // ---------------------------------------------------------------- exactly what a tree answers

  /** A node at which the search for `ip` goes right. */
  predicate Turns(r: Range, ip: U64) {
    r.start <= ip && r.end <= ip
  }

  /** The nodes a search for `ip` turns away from: those in the left subtree of a node where it goes right. */
  ghost function Hidden<N>(t: Tree<N>, at: N -> Range, ip: U64): set<N> {
    match t
    case Nil => {}
    case T(l, n, _, r) => Hidden(l, at, ip) + Hidden(r, at, ip) + if Turns(at(n), ip) then Nodes(l) else {}
  }

  /** Some range that contains `ip` is not hidden. */
  ghost predicate Exposed<N>(t: Tree<N>, at: N -> Range, ip: U64) {
    exists n :: n in Nodes(t) && Contains(at(n), ip) && n !in Hidden(t, at, ip)
  }

  lemma {:induction false} HiddenInside<N>(t: Tree<N>, at: N -> Range, ip: U64)
    ensures Hidden(t, at, ip) <= Nodes(t)
  {
    if t.T? {
      HiddenInside(t.left, at, ip);
      HiddenInside(t.right, at, ip);
    }
  }

  /** In a tree with ascending starts nothing to the right of a later start contains `ip`. */
  lemma {:induction false} RightOfStart<N>(t: Tree<N>, at: N -> Range, ip: U64)
    requires t.T? && StartsAscend(Inorder(t), at)
    ensures StartsAscend(Inorder(t.left), at) && StartsAscend(Inorder(t.right), at)
    ensures ip < at(t.n).start ==> NoneContains(Nodes(t.right), at, ip)
  {
    var l, m := Inorder(t.left), Inorder(t.right);
    var s := l + [t.n] + m;
    InorderNodes(t.right);
    forall i, j | 0 <= i < j < |l| ensures at(l[i]).start <= at(l[j]).start { assert s[i] == l[i] && s[j] == l[j]; }
    forall i, j | 0 <= i < j < |m| ensures at(m[i]).start <= at(m[j]).start {
      assert s[|l| + 1 + i] == m[i] && s[|l| + 1 + j] == m[j];
    }
    forall n | n in Nodes(t.right) ensures at(t.n).start <= at(n).start {
      var i :| 0 <= i < |m| && m[i] == n;
      assert s[|l|] == t.n && s[|l| + 1 + i] == n;
    }
  }

  ghost predicate NoneContains<N>(s: set<N>, at: N -> Range, ip: U64) {
    forall n :: n in s ==> !Contains(at(n), ip)
  }

  /** The search of a given tree succeeds if and only if a range that contains `ip` is not hidden in it. */
  lemma {:induction false} FindExact<N>(t: Tree<N>, at: N -> Range, ip: U64)
    requires Distinct(t) && StartsAscend(Inorder(t), at)
    ensures FindIn(t, at, ip).Some? <==> Exposed(t, at, ip)
  {
    if t.T? {
      RightOfStart(t, at, ip);
      HiddenInside(t.left, at, ip);
      HiddenInside(t.right, at, ip);
      if ip < at(t.n).start {
        FindExact(t.left, at, ip);
        ExposedIn(t, t.left, at, ip);
      } else if ip >= at(t.n).end {
        FindExact(t.right, at, ip);
        ExposedIn(t, t.right, at, ip);
      } else {
        assert t.n in Nodes(t) && t.n !in Hidden(t, at, ip);
      }
    }
  }

  /** What is exposed in a tree is what is exposed in the subtree that holds all ranges in question. */
  lemma ExposedIn<N>(t: Tree<N>, u: Tree<N>, at: N -> Range, ip: U64)
    requires Nodes(u) <= Nodes(t)
    requires forall n :: n in Nodes(u) ==> (n in Hidden(t, at, ip) <==> n in Hidden(u, at, ip))
    requires forall n :: n in Nodes(t) && n !in Nodes(u) ==> !Contains(at(n), ip) || n in Hidden(t, at, ip)
    ensures Exposed(t, at, ip) <==> Exposed(u, at, ip)
  {
  }

  // ---------------------------------------------------------------- conditions on the ranges alone

  /** With a shadow, some shape of the tree hides a range that contains `ip`. */
  lemma {:induction false} ShadowHides<N>(s: seq<N>, at: N -> Range, ip: U64) returns (t: Tree<N>)
    requires Shadowed(s, at, ip)
    ensures Inorder(t) == s && Held(s, at, ip) && FindIn(t, at, ip).None?
  {
    var i: nat, j: nat :| ShadowAt(s, at, ip, i, j);
    var a := Comb(s[..j]);
    var b := Comb(s[j + 1..]);
    t := T(a, s[j], false, b);
    assert s == s[..j] + [s[j]] + s[j + 1..];
    FindSound(b, at, ip);
  }

  lemma {:induction false} Comb<N>(s: seq<N>) returns (t: Tree<N>)
    ensures Inorder(t) == s
    decreases |s|
  {
    t := Nil;
    if s != [] {
      var u := Comb(s[1..]);
      t := T(Nil, s[0], false, u);
      assert [] + [s[0]] + s[1..] == s;
    }
  }

  /**
   What can be said of the ranges without the tree: every binary tree holding them answers
   correctly if and only if no address is shadowed.  For the trees the engine builds this
   is sufficient but not necessary (`ShadowedYetFound`).
   */
  lemma {:induction false} EveryShapeComplete<N(!new)>(s: seq<N>, at: N -> Range, ip: U64)
    requires StartsAscend(s, at)
    ensures (forall t: Tree<N> :: Inorder(t) == s ==> (FindIn(t, at, ip).Some? <==> Held(s, at, ip))) <==>
      !Shadowed(s, at, ip)
  {
    if Shadowed(s, at, ip) {
      var t := ShadowHides(s, at, ip);
    } else {
      forall t: Tree<N> | Inorder(t) == s ensures FindIn(t, at, ip).Some? <==> Held(s, at, ip) {
        FindComplete(t, at, ip);
      }
    }
  }

  /** Ranges whose ends never decrease, in particular disjoint or repeated ones, shadow nothing. */
  lemma AscendingUnshadowed<N>(s: seq<N>, at: N -> Range, ip: U64)
    requires EndsAscend(s, at)
    ensures !Shadowed(s, at, ip)
  {
  }

  /** The code admits other ranges: if [20, 30) is inserted before [10, 100), a search for 50 ends at the former. */
  lemma NestedIsMissed()
    ensures var a, b := Range(10, 100), Range(20, 30);
      var t := T(T(Nil, a, true, Nil), b, false, Nil);
      && RedBlack(t) && StartsAscend(Inorder(t), r => r)
      && Held(Inorder(t), r => r, 50) && FindIn(t, r => r, 50) == None
  {
    var a, b := Range(10, 100), Range(20, 30);
    var t := T(T(Nil, a, true, Nil), b, false, Nil);
    assert Inorder(T(Nil, a, true, Nil)) == [a];
    assert Inorder(t) == [a, b];
    assert Contains(Inorder(t)[0], 50);
    assert Rb(t, 1);
  }

  /** Here 50 is shadowed by [20, 30), yet no red-black tree of these ranges has that one at its root. */
  lemma ShadowedYetFound(t: Tree<Range>)
    requires RedBlack(t) && Inorder(t) == [Range(10, 100), Range(11, 100), Range(20, 30)]
    ensures Shadowed(Inorder(t), r => r, 50) && FindIn(t, r => r, 50).Some?
  {
    var s, c := Inorder(t), Range(20, 30);
    assert !Held(s[3..], r => r, 50);
    assert ShadowAt(s, r => r, 50, 1, 2);
    var l, m := Inorder(t.left), Inorder(t.right);
    assert s[|l|] == t.n && |s| == |l| + 1 + |m|;
    if t.n == c {
      var h := BlackHeight(t);
      assert t.right.Nil? && Rb(t, h) && !t.red;
      assert Rb(t.left, h - 1) && Rb(t.right, h - 1);
      Shallow(t.left);
    }
  }

  /** A tree without black nodes has at most one node. */
  lemma Shallow<N>(t: Tree<N>)
    requires Rb(t, 0)
    ensures |Inorder(t)| <= 1
  {
    if t.T? { assert t.left.Nil? && t.right.Nil?; }
  }

  // ---------------------------------------------------------------- insertion

  /** Where __maps__insert puts a range: behind all that do not start after it. */
  ghost function Placed<N>(s: seq<N>, n: N, at: N -> Range): seq<N> {
    if s == [] then [n]
    else if at(n).start < at(s[0]).start then [n] + s
    else [s[0]] + Placed(s[1..], n, at)
  }

  lemma {:induction false} PlacedBetween<N>(a: seq<N>, n: N, b: seq<N>, at: N -> Range)
    requires All(a, x => at(x).start <= at(n).start) && All(b, x => at(n).start < at(x).start)
    ensures Placed(a + b, n, at) == a + [n] + b
    decreases |a|
  {
    if a == [] {
      assert a + b == b && a + [n] + b == [n] + b;
      if b != [] { assert at(n).start < at(b[0]).start; }
    } else {
      assert (a + b)[1..] == a[1..] + b && at(a[0]).start <= at(n).start;
      forall i | 0 <= i < |a[1..]| ensures at(a[1..][i]).start <= at(n).start { assert a[1..][i] == a[i + 1]; }
      PlacedBetween(a[1..], n, b, at);
      assert a == [a[0]] + a[1..];
    }
  }

  lemma {:induction false} PlacedContents<N>(s: seq<N>, n: N, at: N -> Range)
    ensures multiset(Placed(s, n, at)) == multiset(s) + multiset{n}
    decreases |s|
  {
    if s != [] && at(s[0]).start <= at(n).start {
      PlacedContents(s[1..], n, at);
      assert s == [s[0]] + s[1..];
    }
  }

  lemma AscendCons<N>(x: N, s: seq<N>, at: N -> Range)
    requires StartsAscend(s, at) && (s != [] ==> at(x).start <= at(s[0]).start)
    ensures StartsAscend([x] + s, at)
  {
    var r := [x] + s;
    forall i, j | 0 <= i < j < |r| ensures at(r[i]).start <= at(r[j]).start {
      assert r[j] == s[j - 1] && (i > 0 ==> r[i] == s[i - 1]);
    }
  }

  lemma AscendTail<N>(s: seq<N>, at: N -> Range)
    requires StartsAscend(s, at) && s != []
    ensures StartsAscend(s[1..], at)
  {
  }

  lemma {:induction false} PlacedAscends<N>(s: seq<N>, n: N, at: N -> Range)
    requires StartsAscend(s, at)
    ensures StartsAscend(Placed(s, n, at), at)
    ensures Placed(s, n, at)[0] == n || (s != [] && Placed(s, n, at)[0] == s[0])
    decreases |s|
  {
    if s == [] {
    } else if at(n).start < at(s[0]).start {
      AscendCons(n, s, at);
    } else {
      AscendTail(s, at);
      PlacedAscends(s[1..], n, at);
      AscendCons(s[0], Placed(s[1..], n, at), at);
    }
  }

  /** A range that starts after all others goes to the end. */
  lemma PlacedLast<N>(s: seq<N>, n: N, at: N -> Range)
    requires All(s, x => at(x).start <= at(n).start)
    ensures Placed(s, n, at) == s + [n]
  {
    PlacedBetween(s, n, [], at);
    assert s + [] == s && s + [n] + [] == s + [n];
  }
}

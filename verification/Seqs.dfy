/** Sequences as lists: without duplicates, without an entry, and the entries that stay. */
module Seqs {
  ghost predicate NoDup<X>(s: seq<X>) {
    forall i, j :: 0 <= i < j < |s| ==> s[i] != s[j]
  }

  lemma HasMember<X>(s: seq<X>)
    ensures s == [] || exists x :: x in s
  {
    if s != [] { assert s[0] in s; }
  }

  /** `after` is `before` without one occurrence of `n`. */
  ghost predicate Removed<X>(before: seq<X>, n: X, after: seq<X>) {
    exists i :: 0 <= i < |before| && before[i] == n && after == before[..i] + before[i + 1..]
  }

  /** A list without an entry. */
  function Drop<X(==)>(s: seq<X>, n: X): seq<X> {
    if s == [] then [] else (if s[0] == n then [] else [s[0]]) + Drop(s[1..], n)
  }

  lemma {:induction false} DropLast<X>(s: seq<X>, n: X)
    requires n !in s
    ensures Drop(s + [n], n) == s
  {
    if s == [] {
      assert s + [n] == [n];
    } else {
      assert (s + [n])[1..] == s[1..] + [n];
      DropLast(s[1..], n);
    }
  }

  /** The entries of a list that are in `k`, in order. */
  ghost function Keep<X>(s: seq<X>, k: set<X>): seq<X> {
    if s == [] then [] else (if s[0] in k then [s[0]] else []) + Keep(s[1..], k)
  }

  lemma {:induction false} KeepIn<X>(s: seq<X>, k: set<X>)
    ensures forall x :: x in Keep(s, k) <==> x in s && x in k
  {
    if s != [] {
      KeepIn(s[1..], k);
      assert s == [s[0]] + s[1..];
    }
  }

  lemma {:induction false} KeepNoDup<X>(s: seq<X>, k: set<X>)
    requires NoDup(s)
    ensures NoDup(Keep(s, k))
  {
    if s != [] {
      var r := s[1..];
      KeepNoDup(r, k);
      KeepIn(r, k);
      assert s[0] !in r by {
        forall i | 0 <= i < |r| ensures r[i] != s[0] { assert r[i] == s[i + 1]; }
      }
      if s[0] in k {
        var q := [s[0]] + Keep(r, k);
        forall i, j | 0 <= i < j < |q| ensures q[i] != q[j] {
          assert q[j] == Keep(r, k)[j - 1] && q[j] in Keep(r, k);
          assert i > 0 ==> q[i] == Keep(r, k)[i - 1];
        }
      }
    }
  }

  lemma {:induction false} KeepAll<X>(s: seq<X>, k: set<X>)
    requires forall x :: x in s ==> x in k
    ensures Keep(s, k) == s
  {
    if s != [] {
      KeepAll(s[1..], k);
      assert s == [s[0]] + s[1..];
    }
  }

  lemma {:induction false} KeepTwice<X>(s: seq<X>, k: set<X>, j: set<X>)
    requires j <= k
    ensures Keep(Keep(s, k), j) == Keep(s, j)
  {
    if s != [] {
      KeepTwice(s[1..], k, j);
      var r := Keep(s[1..], k);
      if s[0] in k { assert ([s[0]] + r)[1..] == r; } else { assert Keep(s, k) == r; }
    }
  }

  lemma {:induction false} DropKeeps<X>(s: seq<X>, n: X, k: set<X>)
    requires forall x :: x in s ==> (x in k <==> x != n)
    ensures Drop(s, n) == Keep(s, k)
  {
    if s != [] {
      DropKeeps(s[1..], n, k);
      assert s == [s[0]] + s[1..];
    }
  }
}

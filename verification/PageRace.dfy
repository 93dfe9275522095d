/**
 Several readers sharing one page cache (src/dso.c:286-318, 331-395).  Each reader runs
 the loop of cached_read; a find, a load, an insertion under the lock and a copy are its
 atomic steps, and the steps of different readers interleave freely.
 */
module PageRace {
  import opened Words
  import opened RbTrees
  import opened PageCache

  datatype Pc =
    | Looking
    | Missed
    | Loaded(own: nat)
    | Copying(page: nat, missed: bool)
    | Done

  /** One call of cached_read: the request, what is left of it, and the bytes copied so far. */
  datatype Reader = Reader(start: nat, size: nat, off: nat, left: nat, out: seq<Byte>, pc: Pc)

  /** `pages` are all pages ever allocated; some are in the tree, some have been freed. */
  datatype State = State(pages: map<nat, Page>, tree: set<nat>, freed: set<nat>, readers: seq<Reader>)

  datatype Move = Find(hit: Option<nat>) | Load(id: nat) | Insert(found: Option<nat>) | Copy

  predicate CoveredBy(s: State, id: nat, offset: nat) {
    id in s.tree && id in s.pages && Covers(s.pages[id], offset)
  }

  ghost predicate Uncovered(s: State, offset: nat) {
    forall id :: id in s.tree ==> !CoveredBy(s, id, offset)
  }

  ghost predicate Hits(s: State, hit: Option<nat>, offset: nat) {
    if hit.Some? then CoveredBy(s, hit.value, offset) else Uncovered(s, offset)
  }

  ghost predicate Enabled(s: State, i: nat, m: Move) {
    && i < |s.readers|
    && var r := s.readers[i];
       match m
       case Find(hit) => r.pc.Looking? && Hits(s, hit, r.off)
       case Load(id) => r.pc.Missed? && id !in s.pages
       case Insert(found) => r.pc.Loaded? && r.pc.own in s.pages && Hits(s, found, s.pages[r.pc.own].offset)
       case Copy => r.pc.Copying? && r.pc.page in s.pages
  }

  function With(s: State, i: nat, r: Reader): State
    requires i < |s.readers|
  {
    s.(readers := s.readers[i := r])
  }

  /** dso_cache__memcpy with its unsigned subtraction (src/dso.c:324-325). */
  function CopySize(p: Page, off: nat, left: nat): nat {
    Min((|p.data| - (off - p.offset) % TWO64) % TWO64, left)
  }

  function Copied(p: Page, off: nat, n: nat): seq<Byte> {
    if p.offset <= off && off - p.offset + n <= |p.data| then p.data[off - p.offset..off - p.offset + n] else []
  }

  ghost function Apply(file: File, s: State, i: nat, m: Move): State
    requires Enabled(s, i, m)
  {
    var r := s.readers[i];
    match m
    case Find(hit) =>
      With(s, i, r.(pc := if hit.Some? then Copying(hit.value, false) else Missed))
    case Load(id) =>
      var bytes := Pread(file, PageStart(r.off));
      var s1 := s.(pages := s.pages[id := Page(PageStart(r.off), bytes)]);
      if bytes == [] then With(s1.(freed := s.freed + {id}), i, r.(pc := Done))
      else With(s1, i, r.(pc := Loaded(id)))
    case Insert(found) =>
      if found.Some? then With(s.(freed := s.freed + {r.pc.own}), i, r.(pc := Copying(found.value, true)))
      else With(s.(tree := s.tree + {r.pc.own}), i, r.(pc := Copying(r.pc.own, true)))
    case Copy =>
      var p := s.pages[r.pc.page];
      var n := CopySize(p, r.off, r.left);
      if n == 0 then With(if r.pc.missed then s.(freed := s.freed + {r.pc.page}) else s, i, r.(pc := Done))
      else
        var q := r.(off := r.off + n, left := if n <= r.left then r.left - n else 0,
                    out := r.out + Copied(p, r.off, n));
        With(s, i, q.(pc := if q.left == 0 then Done else Looking))
  }

  // ---------------------------------------------------------------- the invariant

  ghost predicate TreeOk(file: File, s: State) {
    && s.tree <= s.pages.Keys && s.freed <= s.pages.Keys && s.tree !! s.freed
    && (forall id :: id in s.tree ==> PageOf(file, s.pages[id]))
    && (forall a, b :: a in s.tree && b in s.tree && a != b ==> s.pages[a].offset != s.pages[b].offset)
  }

  ghost predicate Owns(s: State, i: nat, id: nat) {
    i < |s.readers| && s.readers[i].pc.Loaded? && s.readers[i].pc.own == id
  }

  ghost predicate ReaderOk(file: File, s: State, r: Reader) {
    && 0 < r.size < TWO63 && r.start < |file|
    && r.start <= r.off <= |file| && r.out == file[r.start..r.off] && r.left == r.size - (r.off - r.start)
       && r.off - r.start <= r.size
    && (!r.pc.Done? ==> r.left > 0)
    && (r.off == |file| && PageStart(r.off) < |file| ==> !Uncovered(s, r.off))
    && match r.pc
       case Looking => true
       case Missed => !(r.off == |file| && PageStart(r.off) < |file|)
       case Loaded(own) =>
         own in s.pages && own !in s.tree && own !in s.freed && PageOf(file, s.pages[own])
           && Covers(s.pages[own], r.off) && r.off < |file|
       case Copying(id, missed) => CoveredBy(s, id, r.off) && (missed ==> r.off < |file|)
       case Done => r.left == 0 || r.off == |file|
  }

  /** Two readers never own the same page. */
  ghost predicate OwnersDiffer(s: State) {
    forall i, j, id :: Owns(s, i, id) && Owns(s, j, id) ==> i == j
  }

  /** Every page ever allocated is in the tree, has been released, or belongs to the reader that loaded it. */
  ghost predicate NoneLost(s: State) {
    forall id :: id in s.pages ==> id in s.tree || id in s.freed || Owned(s, id)
  }

  ghost predicate Owned(s: State, id: nat) {
    exists i :: Owns(s, i, id)
  }

  ghost predicate Inv(file: File, s: State) {
    && TreeOk(file, s) && OwnersDiffer(s) && NoneLost(s)
    && forall i :: 0 <= i < |s.readers| ==> ReaderOk(file, s, s.readers[i])
  }

  ghost predicate Init(file: File, s: State) {
    && s.pages == map[] && s.tree == {} && s.freed == {}
    && forall i :: 0 <= i < |s.readers| ==>
         var r := s.readers[i];
         0 < r.size < TWO63 && r.start < |file| && r == Reader(r.start, r.size, r.start, r.size, [], Looking)
  }

  lemma InitInv(file: File, s: State)
    requires Init(file, s)
    ensures Inv(file, s)
  {
  }

  // ---------------------------------------------------------------- every step keeps it

  /** Only pages are added, to the memory and to the tree. */
  ghost predicate Grows(s: State, t: State) {
    && s.tree <= t.tree && |t.readers| == |s.readers|
    && forall id :: id in s.pages ==> id in t.pages && t.pages[id] == s.pages[id]
  }

  /** The readers other than `i` do not notice: what they own is still theirs. */
  lemma OtherReader(file: File, s: State, t: State, r: Reader)
    requires ReaderOk(file, s, r) && TreeOk(file, s) && Grows(s, t)
    requires r.pc.Loaded? ==> r.pc.own !in t.tree && r.pc.own !in t.freed
    ensures ReaderOk(file, t, r)
  {
    if r.off == |file| && PageStart(r.off) < |file| {
      var id :| id in s.tree && CoveredBy(s, id, r.off);
      assert CoveredBy(t, id, r.off);
    }
  }

  /** The other readers, when the step of `i` frees or links nothing they own. */
  lemma Others(file: File, s: State, t: State, i: nat)
    requires Inv(file, s) && Grows(s, t) && i < |s.readers| && t.readers == s.readers[i := t.readers[i]]
    requires forall id :: id in t.tree && id !in s.tree ==> Owns(s, i, id)
    requires forall id :: id in t.freed && id !in s.freed ==> Owns(s, i, id) || id !in s.pages
    ensures forall j :: 0 <= j < |s.readers| && j != i ==> ReaderOk(file, t, t.readers[j])
  {
    forall j | 0 <= j < |s.readers| && j != i ensures ReaderOk(file, t, t.readers[j]) {
      var r := s.readers[j];
      assert ReaderOk(file, s, r);
      if r.pc.Loaded? { assert Owns(s, j, r.pc.own); }
      OtherReader(file, s, t, r);
    }
  }

  /** A step is correct when the tree stays correct and the stepping reader does; `own` is what it may newly own. */
  lemma Assemble(file: File, s: State, t: State, i: nat)
    requires Inv(file, s) && Grows(s, t) && i < |s.readers| && t.readers == s.readers[i := t.readers[i]]
    requires forall id :: id in t.tree && id !in s.tree ==> Owns(s, i, id)
    requires forall id :: id in t.freed && id !in s.freed ==> Owns(s, i, id) || id !in s.pages
    requires TreeOk(file, t) && ReaderOk(file, t, t.readers[i])
    requires t.readers[i].pc.Loaded? ==> t.readers[i].pc.own !in s.pages
    requires s.freed <= t.freed && forall id :: id in t.pages && (id !in s.pages || Owns(s, i, id)) ==>
      id in t.tree || id in t.freed || Owns(t, i, id)
    ensures Inv(file, t)
  {
    Others(file, s, t, i);
    StillKept(s, t, i);
    forall j | 0 <= j < |t.readers| ensures ReaderOk(file, t, t.readers[j]) {
      if j == i {} else {}
    }
    forall j: nat, k: nat, id | Owns(t, j, id) && Owns(t, k, id) ensures j == k {
      if j != i { assert Owns(s, j, id) && ReaderOk(file, s, s.readers[j]); }
      if k != i { assert Owns(s, k, id) && ReaderOk(file, s, s.readers[k]); }
    }
  }

  /** No page is lost when the stepping reader accounts for what it owned and what is new. */
  lemma StillKept(s: State, t: State, i: nat)
    requires NoneLost(s) && Grows(s, t) && i < |s.readers| && t.readers == s.readers[i := t.readers[i]]
    requires s.freed <= t.freed && forall id :: id in t.pages && (id !in s.pages || Owns(s, i, id)) ==>
      id in t.tree || id in t.freed || Owns(t, i, id)
    ensures NoneLost(t)
  {
    forall id | id in t.pages && id !in t.tree && id !in t.freed ensures Owned(t, id) {
      if id in s.pages && !Owns(s, i, id) {
        var j :| Owns(s, j, id);
        assert Owns(t, j, id);
      }
    }
  }

  /** At the end of a file that ends inside a page, that page stays in the tree. */
  lemma StillCovered(s: State, t: State, offset: nat)
    requires Grows(s, t) && !Uncovered(s, offset)
    ensures !Uncovered(t, offset)
  {
    var id :| id in s.tree && CoveredBy(s, id, offset);
    assert CoveredBy(t, id, offset);
  }

  lemma FindStep(file: File, s: State, i: nat, hit: Option<nat>)
    requires Inv(file, s) && Enabled(s, i, Find(hit))
    ensures Inv(file, Apply(file, s, i, Find(hit)))
  {
    var t := Apply(file, s, i, Find(hit));
    var r := s.readers[i];
    assert ReaderOk(file, s, r);
    if !Uncovered(s, r.off) { StillCovered(s, t, r.off); }
    assert ReaderOk(file, t, t.readers[i]);
    Assemble(file, s, t, i);
  }

  lemma LoadStep(file: File, s: State, i: nat, id: nat)
    requires Inv(file, s) && Enabled(s, i, Load(id))
    ensures Inv(file, Apply(file, s, i, Load(id)))
  {
    var t := Apply(file, s, i, Load(id));
    var r := s.readers[i];
    assert ReaderOk(file, s, r);
    assert Grows(s, t);
    if !Uncovered(s, r.off) { StillCovered(s, t, r.off); }
    assert ReaderOk(file, t, t.readers[i]);
    Assemble(file, s, t, i);
  }

  lemma InsertStep(file: File, s: State, i: nat, found: Option<nat>)
    requires Inv(file, s) && Enabled(s, i, Insert(found))
    ensures Inv(file, Apply(file, s, i, Insert(found)))
  {
    var t := Apply(file, s, i, Insert(found));
    var r := s.readers[i];
    assert ReaderOk(file, s, r);
    var own := r.pc.own;
    assert Owns(s, i, own);
    if !Uncovered(s, r.off) { StillCovered(s, t, r.off); }
    if found.Some? {
      AlignedSame(s.pages[found.value].offset, s.pages[own].offset);
      assert CoveredBy(t, found.value, r.off);
    } else {
      forall id | id in s.tree ensures s.pages[id].offset != s.pages[own].offset {
        assert !CoveredBy(s, id, s.pages[own].offset);
      }
      assert CoveredBy(t, own, r.off);
    }
    assert TreeOk(file, t);
    assert ReaderOk(file, t, t.readers[i]);
    Assemble(file, s, t, i);
  }

  /** The unsigned subtraction does not wrap. */
  lemma CopySizeIs(file: File, p: Page, off: nat, left: nat)
    requires PageOf(file, p) && Covers(p, off) && off <= |file| && 0 < left < TWO63
    ensures off - p.offset <= |p.data| && CopySize(p, off, left) == Min(|p.data| - (off - p.offset), left)
    ensures p.offset == PageStart(off) && |p.data| == Min(PAGE, |file| - p.offset)
  {
    CoverStart(p.offset, off);
  }

  /** What a copy yields: something unless the reader is at the end of the file, and always the file's bytes. */
  lemma CopyBytes(file: File, p: Page, off: nat, left: nat)
    requires PageOf(file, p) && Covers(p, off) && off <= |file| && 0 < left < TWO63
    ensures var n := CopySize(p, off, left);
      && off - p.offset <= |p.data| && n <= |p.data| - (off - p.offset) && n <= left && off + n <= |file|
      && (n == 0 <==> off == |file|)
      && Copied(p, off, n) == file[off..off + n]
      && (off + n == |file| && PageStart(off + n) < |file| ==> Covers(p, off + n))
  {
    var n := CopySize(p, off, left);
    CopySizeIs(file, p, off, left);
    assert n <= |p.data| - (off - p.offset) && n <= left;
    CopiedIs(file, p, off, n);
    StaysCovered(file, p, off, n);
  }

  /** A slice of a page is that slice of the file. */
  lemma CopiedIs(file: File, p: Page, off: nat, n: nat)
    requires PageOf(file, p) && p.offset <= off && off - p.offset + n <= |p.data| && p.offset < |file|
    ensures off + n <= |file| && Copied(p, off, n) == file[off..off + n]
  {
    var a, end := p.offset, Min(p.offset + PAGE, |file|);
    assert p.data == file[a..end];
    SliceOfSlice(file, a, end, off, off + n);
  }

  lemma SliceOfSlice(s: seq<Byte>, a: nat, b: nat, i: nat, j: nat)
    requires a <= i <= j <= b <= |s|
    ensures s[a..b][i - a..j - a] == s[i..j]
  {
    forall k | 0 <= k < j - i ensures s[a..b][i - a..j - a][k] == s[i..j][k] {}
  }

  lemma StaysCovered(file: File, p: Page, off: nat, n: nat)
    requires p.offset == PageStart(off) && off + n <= p.offset + PAGE
    ensures off + n == |file| && PageStart(off + n) < |file| ==> Covers(p, off + n)
  {
    if off + n == |file| && PageStart(off + n) < |file| { SamePage(off, off + n); }
  }

  lemma JoinSlices(s: seq<Byte>, a: nat, b: nat, c: nat)
    requires a <= b <= c <= |s|
    ensures s[a..b] + s[b..c] == s[a..c]
  {
  }

  lemma CopyReader(file: File, s: State, i: nat)
    requires Inv(file, s) && Enabled(s, i, Copy)
    ensures ReaderOk(file, Apply(file, s, i, Copy), Apply(file, s, i, Copy).readers[i])
    ensures Apply(file, s, i, Copy).freed == s.freed
  {
    var t := Apply(file, s, i, Copy);
    var r := s.readers[i];
    assert ReaderOk(file, s, r);
    var p := s.pages[r.pc.page];
    CopyBytes(file, p, r.off, r.left);
    var n := CopySize(p, r.off, r.left);
    JoinSlices(file, r.start, r.off, r.off + n);
    assert CoveredBy(s, r.pc.page, r.off);
    assert Grows(s, t);
    if Covers(p, r.off + n) { assert CoveredBy(t, r.pc.page, r.off + n); }
  }

  lemma CopyStep(file: File, s: State, i: nat)
    requires Inv(file, s) && Enabled(s, i, Copy)
    ensures Inv(file, Apply(file, s, i, Copy))
  {
    CopyReader(file, s, i);
    Assemble(file, s, Apply(file, s, i, Copy), i);
  }

  /** Every step of every reader keeps the invariant. */
  lemma StepInv(file: File, s: State, i: nat, m: Move)
    requires Inv(file, s) && Enabled(s, i, m)
    ensures Inv(file, Apply(file, s, i, m))
  {
    match m
    case Find(hit) => FindStep(file, s, i, hit);
    case Load(id) => LoadStep(file, s, i, id);
    case Insert(found) => InsertStep(file, s, i, found);
    case Copy => CopyStep(file, s, i);
  }

  // ---------------------------------------------------------------- whole runs

  datatype Event = Event(reader: nat, move: Move)

  /** The states passed by a run are those of `Apply` along the events. */
  ghost predicate Run(file: File, s: State, es: seq<Event>, t: State)
    decreases |es|
  {
    if es == [] then t == s
    else Enabled(s, es[0].reader, es[0].move) && Run(file, Apply(file, s, es[0].reader, es[0].move), es[1..], t)
  }

  /** The readers still serve the requests they started with. */
  ghost predicate SameRequests(s: State, t: State) {
    && |t.readers| == |s.readers|
    && forall i :: 0 <= i < |s.readers| ==>
       t.readers[i].start == s.readers[i].start && t.readers[i].size == s.readers[i].size
  }

  lemma StepRequests(file: File, s: State, i: nat, m: Move)
    requires Enabled(s, i, m)
    ensures SameRequests(s, Apply(file, s, i, m))
  {
  }

  lemma {:induction false} RunInv(file: File, s: State, es: seq<Event>, t: State)
    requires Inv(file, s) && Run(file, s, es, t)
    ensures Inv(file, t) && SameRequests(s, t)
    decreases |es|
  {
    if es != [] {
      StepInv(file, s, es[0].reader, es[0].move);
      StepRequests(file, s, es[0].reader, es[0].move);
      RunInv(file, Apply(file, s, es[0].reader, es[0].move), es[1..], t);
    }
  }

  /** No byte of the file is in two pages of the tree. */
  ghost predicate Disjoint(s: State) {
    forall a, b, offset :: CoveredBy(s, a, offset) && CoveredBy(s, b, offset) ==> a == b
  }

  /** A reader that has finished holds the bytes a plain read of the file gives. */
  ghost predicate Served(file: File, r: Reader) {
    r.pc.Done? && r.start < |file| ==> r.out == file[r.start..r.start + Min(r.size, |file| - r.start)]
  }

  lemma InvSafe(file: File, s: State)
    requires Inv(file, s)
    ensures Disjoint(s) && s.tree !! s.freed && (forall i :: 0 <= i < |s.readers| ==> Served(file, s.readers[i]))
  {
    forall a, b, offset | CoveredBy(s, a, offset) && CoveredBy(s, b, offset) ensures a == b {
      CoverStart(s.pages[a].offset, offset);
      CoverStart(s.pages[b].offset, offset);
    }
    forall i | 0 <= i < |s.readers| ensures Served(file, s.readers[i]) {
      assert ReaderOk(file, s, s.readers[i]);
    }
  }

  /**
   Whatever the interleaving: the tree never holds two overlapping pages, no page in it has
   been released, its pages are the file's, no page is lost, and every finished reader has the
   file's bytes.
   */
  lemma RaceSafe(file: File, s: State, es: seq<Event>, t: State)
    requires Init(file, s) && Run(file, s, es, t)
    ensures Disjoint(t) && t.tree !! t.freed && TreeOk(file, t) && NoneLost(t) && SameRequests(s, t)
    ensures forall i :: 0 <= i < |t.readers| ==> Served(file, t.readers[i])
  {
    InitInv(file, s);
    RunInv(file, s, es, t);
    InvSafe(file, t);
  }

  /**
   What a step releases: the page of a reader that finds another one in its place, which it
   read itself and which was never linked, and a page for which the file has no byte.
   */
  lemma FreesOwn(file: File, s: State, i: nat, m: Move, id: nat)
    requires Inv(file, s) && Enabled(s, i, m)
    ensures var t := Apply(file, s, i, m);
      && s.freed <= t.freed
      && (id in t.freed && id !in s.freed <==>
            || (m.Insert? && m.found.Some? && Owns(s, i, id))
            || (m == Load(id) && PageStart(s.readers[i].off) >= |file|))
      && (id in t.freed ==> id !in t.tree)
  {
    if m.Copy? { CopyReader(file, s, i); }
    StepInv(file, s, i, m);
    assert ReaderOk(file, s, s.readers[i]);
  }

  // ---------------------------------------------------------------- progress

  /** A bound on the steps a reader still takes. */
  function Rank(r: Reader): nat {
    match r.pc
    case Looking => 5 * r.left + 4
    case Missed => 5 * r.left + 3
    case Loaded(_) => 5 * r.left + 2
    case Copying(_, _) => 5 * r.left + 1
    case Done => 0
  }

  function TotalRank(rs: seq<Reader>): nat {
    if rs == [] then 0 else Rank(rs[0]) + TotalRank(rs[1..])
  }

  lemma {:induction false} TotalUpdate(rs: seq<Reader>, i: nat, r: Reader)
    requires i < |rs|
    ensures TotalRank(rs[i := r]) == TotalRank(rs) - Rank(rs[i]) + Rank(r)
  {
    if i == 0 {
      assert rs[i := r][1..] == rs[1..];
    } else {
      assert rs[i := r][1..] == rs[1..][i - 1 := r];
      TotalUpdate(rs[1..], i - 1, r);
    }
  }

  lemma StepRank(file: File, s: State, i: nat, m: Move)
    requires Inv(file, s) && Enabled(s, i, m)
    ensures TotalRank(Apply(file, s, i, m).readers) < TotalRank(s.readers)
  {
    var t, r := Apply(file, s, i, m), s.readers[i];
    assert ReaderOk(file, s, r);
    if m.Copy? { CopyBytes(file, s.pages[r.pc.page], r.off, r.left); }
    assert Rank(t.readers[i]) < Rank(r);
    TotalUpdate(s.readers, i, t.readers[i]);
  }

  /** No run is longer than this bound, whatever the interleaving. */
  lemma {:induction false} RunBounded(file: File, s: State, es: seq<Event>, t: State)
    requires Inv(file, s) && Run(file, s, es, t)
    ensures |es| + TotalRank(t.readers) <= TotalRank(s.readers)
    decreases |es|
  {
    if es != [] {
      StepInv(file, s, es[0].reader, es[0].move);
      StepRank(file, s, es[0].reader, es[0].move);
      RunBounded(file, Apply(file, s, es[0].reader, es[0].move), es[1..], t);
    }
  }

  lemma {:induction false} FreshId(ids: set<nat>) returns (k: nat)
    ensures forall id :: id in ids ==> id < k
  {
    k := 0;
    if ids != {} {
      var x :| x in ids;
      var j := FreshId(ids - {x});
      k := if x < j then j else x + 1;
      forall id | id in ids ensures id < k {
        if id != x { assert id in ids - {x}; }
      }
    }
  }

  /** The answer of a find: there always is one. */
  lemma SomeHit(s: State, offset: nat) returns (hit: Option<nat>)
    ensures Hits(s, hit, offset)
  {
    if Uncovered(s, offset) {
      hit := None;
    } else {
      var id :| id in s.tree && CoveredBy(s, id, offset);
      hit := Some(id);
    }
  }

  /** A reader that has not finished is never stuck. */
  lemma NeverStuck(file: File, s: State, i: nat) returns (m: Move)
    requires Inv(file, s) && i < |s.readers| && !s.readers[i].pc.Done?
    ensures Enabled(s, i, m)
  {
    var r := s.readers[i];
    assert ReaderOk(file, s, r);
    match r.pc
    case Looking =>
      var hit := SomeHit(s, r.off);
      m := Find(hit);
    case Missed =>
      var id := FreshId(s.pages.Keys);
      m := Load(id);
    case Loaded(own) =>
      var found := SomeHit(s, s.pages[own].offset);
      m := Insert(found);
    case Copying(_, _) =>
      m := Copy;
  }

  /** Every run that cannot go on has served every reader, and each page is in the tree or has been released. */
  lemma RunsEnd(file: File, s: State, es: seq<Event>, t: State)
    requires Init(file, s) && Run(file, s, es, t) && (forall i: nat, m :: !Enabled(t, i, m))
    ensures SameRequests(s, t) && forall i :: 0 <= i < |t.readers| ==>
      t.readers[i].pc.Done? && Served(file, t.readers[i])
    ensures t.pages.Keys == t.tree + t.freed && t.tree !! t.freed
  {
    RaceSafe(file, s, es, t);
    InitInv(file, s);
    RunInv(file, s, es, t);
    forall i | 0 <= i < |t.readers| ensures t.readers[i].pc.Done? {
      if !t.readers[i].pc.Done? { var m := NeverStuck(file, t, i); }
    }
    forall id | id in t.pages ensures id in t.tree + t.freed {
      assert forall i :: !Owns(t, i, id);
    }
  }
}

/**
 The file page cache of a DSO (src/dso.c:261-480).  Pages of 4096 bytes sit in a
 red-black tree ordered by offset and are filled on demand from one fixed file; `pread`
 returns all bytes available, up to a page.  `freed` records the pages passed to free().
 */
module PageCache {
  import opened Words
  import opened RbTrees
  import opened RbLinks
  import opened RbHeap
  import opened RbTree
  import opened RbIterate
  import opened RbSearch

  const PAGE: nat := 4096

  /** The contents of a file; off_t is signed. */
  type File = s: seq<Byte> | |s| < TWO63

  datatype Page = Page(offset: nat, data: seq<Byte>)

  type PageNode = Node<Page, ()>

  function Min(a: int, b: int): int {
    if a < b then a else b
  }

  /** offset & DSO__DATA_CACHE_MASK (src/dso.h:20-21). */
  function PageStart(offset: nat): (s: nat)
    ensures s <= offset < s + PAGE && s % PAGE == 0
  {
    offset - offset % PAGE
  }

  /** What pread returns for one page at `start`. */
  function Pread(file: seq<Byte>, start: nat): seq<Byte> {
    if start >= |file| then [] else file[start..Min(start + PAGE, |file|)]
  }

  ghost predicate PageOf(file: seq<Byte>, p: Page) {
    p.offset % PAGE == 0 && p.offset < |file| && p.data == Pread(file, p.offset)
  }

  predicate Covers(p: Page, offset: nat) {
    p.offset <= offset < p.offset + PAGE
  }

  ghost predicate Cached(s: seq<PageNode>, offset: nat) {
    exists i :: 0 <= i < |s| && Covers(s[i].entry, offset)
  }

  ghost function Before0(a: PageNode, b: PageNode): bool {
    a.entry.offset < b.entry.offset
  }

  /** Every page is aligned and equal to the file, and the pages ascend, so they are disjoint. */
  ghost predicate Pages(file: seq<Byte>, s: seq<PageNode>) {
    (forall i :: 0 <= i < |s| ==> PageOf(file, s[i].entry)) && Ordered(s, Before0)
  }

  lemma PagesDisjoint(file: seq<Byte>, s: seq<PageNode>, i: nat, j: nat, offset: nat)
    requires Pages(file, s) && i < |s| && j < |s| && Covers(s[i].entry, offset) && Covers(s[j].entry, offset)
    ensures i == j
  {
    if i < j {
      assert Before0(s[i], s[j]);
      AlignedApart(s[i].entry.offset, s[j].entry.offset);
      assert false;
    } else if j < i {
      assert Before0(s[j], s[i]);
      AlignedApart(s[j].entry.offset, s[i].entry.offset);
      assert false;
    }
  }

  /** Each page starts at a multiple of 4096 and holds the file's bytes from there on, up to 4096 of them. */
  lemma PagesAre(file: seq<Byte>, s: seq<PageNode>)
    requires Pages(file, s)
    ensures forall i :: 0 <= i < |s| ==>
      var p := s[i].entry;
      && p.offset % 4096 == 0 && p.offset < |file| && |p.data| == Min(4096, |file| - p.offset)
      && forall k :: 0 <= k < |p.data| ==> p.data[k] == file[p.offset + k]
    ensures forall i, j :: 0 <= i < j < |s| ==> s[i].entry.offset + 4096 <= s[j].entry.offset
  {
    forall i, j | 0 <= i < j < |s| ensures s[i].entry.offset + 4096 <= s[j].entry.offset {
      assert Before0(s[i], s[j]);
      AlignedApart(s[i].entry.offset, s[j].entry.offset);
    }
  }

  lemma AlignedApart(a: nat, b: nat)
    requires a % PAGE == 0 && b % PAGE == 0 && a < b
    ensures a + PAGE <= b
  {
    var i, j := a / PAGE, b / PAGE;
    assert a == PAGE * i && b == PAGE * j;
  }

  /** The aligned page that covers an offset is the one at its page start. */
  lemma CoverStart(a: nat, offset: nat)
    requires a % PAGE == 0 && a <= offset < a + PAGE
    ensures a == PageStart(offset)
  {
    var i, j := a / PAGE, offset / PAGE;
    assert a == PAGE * i && offset == PAGE * j + offset % PAGE;
    assert i == j;
  }

  ghost predicate RightOf(offset: nat, n: PageNode) {
    offset >= n.entry.offset + PAGE
  }

  ghost predicate LeftOf(offset: nat, n: PageNode) {
    offset < n.entry.offset
  }

  ghost function Rights(offset: nat): PageNode -> bool {
    (n: PageNode) => RightOf(offset, n)
  }

  ghost function Lefts(offset: nat): PageNode -> bool {
    (n: PageNode) => LeftOf(offset, n)
  }

  lemma PagesSides(file: seq<Byte>, s: seq<PageNode>, offset: nat)
    requires Pages(file, s)
    ensures Prefix(s, Rights(offset)) && Suffix(s, Lefts(offset))
  {
    forall i, j | 0 <= i < j < |s| && RightOf(offset, s[j]) ensures RightOf(offset, s[i]) {
      assert Before0(s[i], s[j]);
    }
    forall i, j | 0 <= i < j < |s| && LeftOf(offset, s[i]) ensures LeftOf(offset, s[j]) {
      assert Before0(s[i], s[j]);
    }
  }

  class DsoData {
    const file: File
    const cache: Root<Page, ()>
    var fileSize: nat
    ghost var freed: set<PageNode>
    ghost var loaded: set<PageNode>

    constructor (file: File)
      ensures this.file == file && Valid() && Clean() && Accounted()
      ensures fresh(cache) && cache.Seq() == [] && cache.nodes == {}
    {
      this.file := file;
      this.cache := new Root(Plain());
      fileSize, freed, loaded := 0, {}, {};
    }

    ghost predicate Valid()
      reads this`fileSize, cache, cache.nodes
    {
      forall k: Seal :: Inv(k)
    }

    /** The invariant proper; `Valid` keeps it under a quantifier, so that it is unfolded only on demand. */
    ghost predicate Inv(k: Seal)
      reads this`fileSize, cache, cache.nodes
    {
      (fileSize == 0 || fileSize == |file|) && cache.Valid() && Pages(file, cache.Seq())
    }

    /** No page in the tree has been released. */
    ghost predicate Clean()
      reads this, cache
    {
      freed !! cache.nodes
    }

    /** Every page ever allocated is in the tree or has been released. */
    ghost predicate Accounted()
      reads this, cache
    {
      loaded == cache.nodes + freed
    }

    /** dso_cache__find (src/dso.c:261-284). */
    method Find(offset: nat) returns (n: Node?<Page, ()>)
      requires Valid()
      ensures Valid()
      ensures n != null ==> n in cache.nodes && Covers(n.entry, offset) && PageOf(file, n.entry)
      ensures n == null <==> !Cached(cache.Seq(), offset)
    {
      assert Inv(Seal);
      ghost var goRight, goLeft := Rights(offset), Lefts(offset);
      PagesSides(file, cache.Seq(), offset);
      ghost var c, t := Top, cache.tree;
      See(cache, c, t);
      n := cache.rb_node;
      while n != null
        invariant Valid() && Inv(Seal) && cache.tree == Plug(c, t) && Ref(n) == Ptr(t)
        invariant Between(c, goRight, goLeft) && Prefix(cache.Seq(), goRight) && Suffix(cache.Seq(), goLeft)
        decreases t
      {
        See(cache, c, t);
        Member(c, t);
        assert PageOf(file, n.entry);
        var end := (n.entry.offset + PAGE) % TWO64;
        if offset < n.entry.offset {
          GoLeft(c, t, goRight, goLeft);
          c, t := In(Left, t.n, t.red, t.right, c), t.left;
          n := n.left;
        } else if offset >= end {
          GoRight(c, t, goRight, goLeft);
          c, t := In(Right, t.n, t.red, t.left, c), t.right;
          n := n.right;
        } else {
          return;
        }
      }
      Bottom(c, goRight, goLeft);
    }

    /** The descent of dso_cache__insert (src/dso.c:296-309): a page covering `offset`, or where to link one. */
    method FindSlot(offset: nat)
      returns (hit: Node?<Page, ()>, parent: Node?<Page, ()>, left: bool, ghost c: Ctx<PageNode>)
      requires Valid()
      ensures Valid()
      ensures hit != null ==> hit in cache.nodes && Covers(hit.entry, offset) && PageOf(file, hit.entry)
      ensures hit == null <==> !Cached(cache.Seq(), offset)
      ensures hit == null ==> cache.tree == Plug(c, Nil) && Ref(parent) == Parent(c) && (c.In? ==> left == c.side.Left?)
      ensures hit == null ==> Between(c, Rights(offset), Lefts(offset)) && cache.Seq() == Before(c) + After(c)
    {
      assert Inv(Seal);
      ghost var goRight, goLeft := Rights(offset), Lefts(offset);
      PagesSides(file, cache.Seq(), offset);
      ghost var t := cache.tree;
      c := Top;
      See(cache, c, t);
      var p := cache.rb_node;
      parent, left := null, false;
      while p != null
        invariant Valid() && Inv(Seal) && cache.tree == Plug(c, t) && Ref(p) == Ptr(t)
        invariant Ref(parent) == Parent(c) && (c.In? ==> left == c.side.Left?)
        invariant Between(c, goRight, goLeft) && Prefix(cache.Seq(), goRight) && Suffix(cache.Seq(), goLeft)
        decreases t
      {
        See(cache, c, t);
        Member(c, t);
        assert PageOf(file, p.entry);
        parent := p;
        var end := (p.entry.offset + PAGE) % TWO64;
        if offset < p.entry.offset {
          GoLeft(c, t, goRight, goLeft);
          c, t := In(Left, t.n, t.red, t.right, c), t.left;
          p, left := p.left, true;
        } else if offset >= end {
          GoRight(c, t, goRight, goLeft);
          c, t := In(Right, t.n, t.red, t.left, c), t.right;
          p, left := p.right, false;
        } else {
          return p, parent, left, c;
        }
      }
      Bottom(c, goRight, goLeft);
      hit := null;
    }

    /** dso_cache__insert (src/dso.c:286-318): the page already there, or null after linking `page`. */
    method Insert(page: PageNode) returns (hit: Node?<Page, ()>)
      requires Valid() && page !in cache.nodes && PageOf(file, page.entry)
      modifies cache, page, cache.nodes
      ensures Valid()
      ensures hit != null ==> cache.Seq() == old(cache.Seq()) && cache.nodes == old(cache.nodes)
      ensures hit != null ==> hit in cache.nodes && Covers(hit.entry, page.entry.offset) && PageOf(file, hit.entry)
      ensures hit == null ==> Linked1(old(cache.Seq()), page, cache.Seq()) && cache.nodes == old(cache.nodes) + {page}
      ensures hit == null <==> !old(Cached(cache.Seq(), page.entry.offset))
    {
      var parent, left;
      ghost var c;
      hit, parent, left, c := FindSlot(page.entry.offset);
      if hit == null {
        assert Inv(Seal);
        PagesInsert(file, Before(c), page, After(c));
        LinkInsert(cache, page, parent, left, c);
      }
    }

    /**
     dso_cache__memcpy (src/dso.c:320-329), with its unsigned subtraction; the bound on
     `offset` is what keeps it from wrapping.
     */
    method Memcpy(n: PageNode, offset: nat, data: array<Byte>, at: nat, size: nat) returns (ret: nat)
      requires PageOf(file, n.entry) && Covers(n.entry, offset) && offset <= |file| && at + size <= data.Length
        && size < TWO63
      modifies data
      ensures ret == Chunk(|file|, offset, size) && offset + ret <= |file| && PageStart(offset) < |file|
      ensures data[..] == Splice(old(data[..]), at, file[offset..offset + ret])
    {
      CoverStart(n.entry.offset, offset);
      var cacheOffset := (offset - n.entry.offset) % TWO64;
      var cacheSize := Min((|n.entry.data| - cacheOffset) % TWO64, size);
      ret := cacheSize;
      ghost var was := data[..];
      forall i | 0 <= i < cacheSize {
        data[at + i] := n.entry.data[cacheOffset + i];
      }
      ghost var now := Splice(was, at, file[offset..offset + ret]);
      forall k | 0 <= k < data.Length ensures data[k] == now[k] {
        if at <= k < at + ret { assert data[k] == n.entry.data[cacheOffset + (k - at)]; }
      }
    }

    /** Insert a freshly read page; if one was there already, release ours and use that one (src/dso.c:369-374). */
    method Settle(page: PageNode, offset: nat) returns (used: PageNode)
      requires Valid() && page !in cache.nodes && PageOf(file, page.entry) && Covers(page.entry, offset)
        && page !in freed
      modifies this`freed, cache, page, cache.nodes
      ensures Valid() && cache.nodes <= old(cache.nodes) + {page}
      ensures used in cache.nodes && PageOf(file, used.entry) && Covers(used.entry, offset)
      ensures Cached(cache.Seq(), offset) && (Clean() <==> old(Clean()))
      ensures cache.nodes + freed == old(cache.nodes) + old(freed) + {page}
    {
      var hit := Insert(page);
      assert Inv(Seal);
      if hit != null {
        AlignedSame(hit.entry.offset, page.entry.offset);
        freed := freed + {page};
        used := hit;
        InSeq(cache, hit, offset);
      } else {
        LinkedCached(old(cache.Seq()), page, cache.Seq(), offset);
        used := page;
      }
    }

    /**
     dso_cache__read (src/dso.c:331-383).  The page just linked (or found linked) is released
     when the copy yields nothing: exactly when its bytes end at `offset` or none are wanted.
     */
    method ReadMiss(offset: nat, data: array<Byte>, at: nat, size: nat) returns (ret: nat)
      requires Valid() && offset <= |file| && at + size <= data.Length && size < TWO63
      modifies this`freed, this`loaded, cache, cache.nodes, data
      ensures Valid() && fresh(cache.nodes - old(cache.nodes))
      ensures old(Accounted()) ==> Accounted()
      ensures ret == Chunk(|file|, offset, size)
      ensures data[..] == Splice(old(data[..]), at, file[offset..offset + ret])
      ensures PageStart(offset) < |file| ==> Cached(cache.Seq(), offset)
      ensures Clean() <==> old(Clean()) && !(PageStart(offset) < |file| && Chunk(|file|, offset, size) == 0)
    {
      var cacheOffset := PageStart(offset);
      var bytes := Pread(file, cacheOffset);
      var page := new Node(Page(cacheOffset, bytes), ());
      loaded := loaded + {page};
      ret := |bytes|;
      if ret > 0 {
        page := Settle(page, offset);
        ret := Memcpy(page, offset, data, at, size);
      }
      if ret <= 0 {
        freed := freed + {page};
      }
    }

    /** The two branches of dso_cache_read (src/dso.c:390-394). */
    method Fetch(offset: nat, data: array<Byte>, at: nat, size: nat) returns (ret: nat)
      requires Valid() && offset <= |file| && at + size <= data.Length && size < TWO63
      modifies this`freed, this`loaded, cache, cache.nodes, data
      ensures Valid() && fresh(cache.nodes - old(cache.nodes))
      ensures old(Accounted()) ==> Accounted()
      ensures ret == Chunk(|file|, offset, size) && offset + ret <= |file|
      ensures data[..] == Splice(old(data[..]), at, file[offset..offset + ret])
      ensures PageStart(offset) < |file| ==> Cached(cache.Seq(), offset)
      ensures Clean() <==> old(Clean()) && !old(Boundary(cache.Seq(), |file|, offset, size))
    {
      ChunkEnds(|file|, offset, size);
      BoundaryIs(cache.Seq(), |file|, offset, size);
      var page := Find(offset);
      if page != null {
        ret := Memcpy(page, offset, data, at, size);
      } else {
        ret := ReadMiss(offset, data, at, size);
      }
    }

    /** dso_cache_read (src/dso.c:385-395). */
    method CacheRead(offset: nat, data: array<Byte>, at: nat, size: nat) returns (ret: nat)
      requires Valid() && offset <= |file| && at + size <= data.Length && size < TWO63
      modifies this`freed, this`loaded, cache, cache.nodes, data
      ensures Valid() && fresh(cache.nodes - old(cache.nodes))
      ensures old(Accounted()) ==> Accounted()
      ensures ret <= size && offset + ret <= |file| && (ret == 0 <==> size == 0 || offset == |file|)
      ensures data[..] == Splice(old(data[..]), at, file[offset..offset + ret])
      ensures 0 < ret < size ==> !Boundary(cache.Seq(), |file|, offset + ret, size - ret)
      ensures Clean() <==> old(Clean()) && !old(Boundary(cache.Seq(), |file|, offset, size))
    {
      ChunkEnds(|file|, offset, size);
      ret := Fetch(offset, data, at, size);
      if ret > 0 {
        assert Inv(Seal);
        NextChunk(file, cache.Seq(), offset, size);
      }
    }

    /**
     cached_read (src/dso.c:402-428): the bytes of the file, as many as there are.  A page
     still in the tree is released exactly for a boundary request.
     */
    method CachedRead(offset: nat, data: array<Byte>, size: nat) returns (r: nat)
      requires Valid() && offset <= |file| && size <= data.Length && size < TWO63
      modifies this`freed, this`loaded, cache, cache.nodes, data
      ensures Valid() && fresh(cache.nodes - old(cache.nodes))
      ensures old(Accounted()) ==> Accounted()
      ensures r == Min(size, |file| - offset)
      ensures Filled(data[..], old(data[..]), file, offset, offset + r)
      ensures Clean() <==> old(Clean()) && !old(Boundary(cache.Seq(), |file|, offset, size))
    {
      r := 0;
      var off, left := offset, size;
      ghost var init := data[..];
      FilledNone(data[..], file, offset);
      BoundaryIs(cache.Seq(), |file|, offset, size);
      while true
        invariant Valid() && fresh(cache.nodes - old(cache.nodes)) && (old(Accounted()) ==> Accounted())
        invariant off == offset + r <= |file| && left == size - r
        invariant Filled(data[..], init, file, offset, off)
        invariant r == 0 ==> cache.Seq() == old(cache.Seq()) && Clean() == old(Clean())
        invariant r > 0 ==>
          0 < size && offset < |file| && !Boundary(cache.Seq(), |file|, off, left) && Clean() == old(Clean())
        decreases left
      {
        var ret := ReadOn(off, data, r, left, offset, init);
        if ret == 0 {
          break;
        }
        r, off, left := r + ret, off + ret, left - ret;
        if left == 0 {
          break;
        }
      }
    }

    /** data_read_offset with data_file_size (src/dso.c:430-480); -1 stands for every failure. */
    method DataReadOffset(offset: nat, data: array<Byte>, size: nat) returns (r: int)
      requires Valid() && offset < TWO64 && size <= data.Length && size < TWO63
      modifies this`freed, this`loaded, this`fileSize, cache, cache.nodes, data
      ensures Valid() && fresh(cache.nodes - old(cache.nodes))
      ensures old(Accounted()) ==> Accounted()
      ensures offset > |file| || offset + size >= TWO64 ==>
        r == -1 && data[..] == old(data[..]) && cache.Seq() == old(cache.Seq()) && freed == old(freed)
      ensures offset <= |file| && offset + size < TWO64 ==>
                && r == Min(size, |file| - offset)
                && Filled(data[..], old(data[..]), file, offset, offset + r)
                && (Clean() <==> old(Clean()) && !old(Boundary(cache.Seq(), |file|, offset, size)))
    {
      if fileSize == 0 {
        assert Inv(Seal);
        fileSize := |file|;
      }
      assert fileSize == |file| by { assert Inv(Seal); }
      if offset > fileSize {
        return -1;
      }
      if (offset + size) % TWO64 < offset {
        return -1;
      }
      r := CachedRead(offset, data, size);
    }

    /** One iteration of cached_read: a chunk after the `r` bytes read so far. */
    method ReadOn(off: nat, data: array<Byte>, r: nat, left: nat, ghost offset: nat, ghost init: seq<Byte>)
      returns (ret: nat)
      requires Valid() && offset + r == off <= |file| && r + left <= data.Length == |init| && left < TWO63
      requires Filled(data[..], init, file, offset, off)
      modifies this`freed, this`loaded, cache, cache.nodes, data
      ensures Valid() && fresh(cache.nodes - old(cache.nodes))
      ensures old(Accounted()) ==> Accounted()
      ensures ret <= left && off + ret <= |file| && (ret == 0 <==> left == 0 || off == |file|)
      ensures Filled(data[..], init, file, offset, off + ret)
      ensures 0 < ret < left ==> !Boundary(cache.Seq(), |file|, off + ret, left - ret)
      ensures Clean() <==> old(Clean()) && !old(Boundary(cache.Seq(), |file|, off, left))
    {
      ret := CacheRead(off, data, r, left);
      Stitch(file, init, old(data[..]), data[..], offset, r, ret);
    }
  }

  ghost predicate Answers(file: seq<Byte>, requests: seq<(nat, nat)>, results: seq<seq<Byte>>) {
    && |results| == |requests|
    && forall i :: 0 <= i < |results| && requests[i].0 <= |file| ==>
         results[i] == file[requests[i].0..requests[i].0 + Min(requests[i].1, |file| - requests[i].0)]
  }

  /**
   Every run of reads (offset, size) inside the file: each is answered as if from the file
   itself, no page in the tree is ever released, and every other page that was read is.
   */
  method ReadAll(dso: DsoData, requests: seq<(nat, nat)>) returns (results: seq<seq<Byte>>)
    requires dso.Valid() && dso.Clean() && dso.Accounted()
    requires forall i :: 0 <= i < |requests| ==> 0 < requests[i].1 < TWO63 && requests[i].0 < |dso.file|
    modifies dso`freed, dso`loaded, dso`fileSize, dso.cache, dso.cache.nodes
    ensures dso.Valid() && dso.Clean() && dso.Accounted() && Answers(dso.file, requests, results)
  {
    results := [];
    for i := 0 to |requests|
      invariant dso.Valid() && dso.Clean() && dso.Accounted() && fresh(dso.cache.nodes - old(dso.cache.nodes))
      invariant Answers(dso.file, requests[..i], results)
    {
      var bytes := ReadOne(dso, requests[i].0, requests[i].1);
      results := results + [bytes];
    }
    assert requests[..|requests|] == requests;
  }

  method ReadOne(dso: DsoData, offset: nat, size: nat) returns (bytes: seq<Byte>)
    requires dso.Valid() && dso.Clean() && dso.Accounted() && 0 < size < TWO63 && offset < |dso.file|
    modifies dso`freed, dso`loaded, dso`fileSize, dso.cache, dso.cache.nodes
    ensures dso.Valid() && dso.Clean() && dso.Accounted() && fresh(dso.cache.nodes - old(dso.cache.nodes))
    ensures bytes == dso.file[offset..offset + Min(size, |dso.file| - offset)]
  {
    var data := new Byte[size](i => 0);
    ghost var zero := data[..];
    BoundaryIs(dso.cache.Seq(), |dso.file|, offset, size);
    var r := dso.DataReadOffset(offset, data, size);
    FilledIs(data[..], zero, dso.file, offset, offset + r);
    bytes := data[..r];
  }

  /** `now` is `init` with the file's bytes from `offset` to `off` at its start; folded until it is needed. */
  ghost predicate Filled(now: seq<Byte>, init: seq<Byte>, file: seq<Byte>, offset: nat, off: nat) {
    forall k: Seal :: Fills(k, now, init, file, offset, off)
  }

  ghost predicate Fills(k: Seal, now: seq<Byte>, init: seq<Byte>, file: seq<Byte>, offset: nat, off: nat) {
    offset <= off <= |file| && off - offset <= |init| && now == Splice(init, 0, file[offset..off])
  }

  lemma FilledIs(now: seq<Byte>, init: seq<Byte>, file: seq<Byte>, offset: nat, off: nat)
    requires offset <= off <= |file| && off - offset <= |init|
    ensures Filled(now, init, file, offset, off) <==> now == Splice(init, 0, file[offset..off])
  {
    assert Fills(Seal, now, init, file, offset, off) <==> now == Splice(init, 0, file[offset..off]);
  }

  lemma FilledNone(now: seq<Byte>, file: seq<Byte>, offset: nat)
    requires offset <= |file|
    ensures Filled(now, now, file, offset, offset)
  {
    FilledIs(now, now, file, offset, offset);
  }

  /**
   The boundary exists: reading 8 bytes at the end of a file of 5000 bytes passes the
   sanity checks of data_read_offset, gives 0 bytes, and leaves a released page in the tree.
   */
  method BoundaryRead(file: File) returns (dso: DsoData, r: int)
    requires |file| == 5000
    ensures fresh(dso) && dso.file == file && dso.Valid() && r == 0 && !dso.Clean()
  {
    dso := new DsoData(file);
    var data := new Byte[8](i => 0);
    assert PageStart(5000) == 4096;
    BoundaryIs(dso.cache.Seq(), |file|, 5000, 8);
    r := dso.DataReadOffset(5000, data, 8);
  }

  /** One more chunk after `r` bytes. */
  lemma Stitch(file: seq<Byte>, init: seq<Byte>, was: seq<Byte>, now: seq<Byte>, offset: nat, r: nat, n: nat)
    requires offset + r + n <= |file| && r + n <= |init| == |was|
    requires Filled(was, init, file, offset, offset + r) && now == Splice(was, r, file[offset + r..offset + r + n])
    ensures Filled(now, init, file, offset, offset + r + n)
  {
    FilledIs(was, init, file, offset, offset + r);
    FilledIs(now, init, file, offset, offset + r + n);
  }

  /**
   A request that finds nothing to copy although its page exists and is not cached:
   nothing is wanted, or the offset is the end of a file that ends inside a page.
   */
  ghost predicate Boundary(s: seq<PageNode>, total: nat, offset: nat, size: nat) {
    forall k: Seal :: AtBoundary(k, s, total, offset, size)
  }

  lemma BoundaryIs(s: seq<PageNode>, total: nat, offset: nat, size: nat)
    ensures Boundary(s, total, offset, size) <==>
              !Cached(s, offset) && PageStart(offset) < total && (size == 0 || offset == total)
  {
    assert AtBoundary(Seal, s, total, offset, size) ==> Boundary(s, total, offset, size);
  }

  ghost predicate AtBoundary(k: Seal, s: seq<PageNode>, total: nat, offset: nat, size: nat) {
    !Cached(s, offset) && PageStart(offset) < total && (size == 0 || offset == total)
  }

  lemma ChunkEnds(total: nat, offset: nat, size: nat)
    requires offset <= total
    ensures var n := Chunk(total, offset, size);
      n <= size && offset + n <= total && (n == 0 <==> size == 0 || offset == total)
  {
  }

  /** Offsets of one page are cached together. */
  lemma CachedTogether(file: seq<Byte>, s: seq<PageNode>, a: nat, b: nat)
    requires Pages(file, s) && Cached(s, a) && PageStart(a) == PageStart(b)
    ensures Cached(s, b)
  {
    var i :| 0 <= i < |s| && Covers(s[i].entry, a);
    assert PageOf(file, s[i].entry);
    CoverStart(s[i].entry.offset, a);
    assert Covers(s[i].entry, b);
  }

  /** A chunk that reaches the end of a file inside a page stays in its page. */
  lemma ChunkPage(total: nat, offset: nat, size: nat)
    requires offset <= total && Chunk(total, offset, size) > 0
    ensures var n := Chunk(total, offset, size);
      offset + n == total && PageStart(offset + n) < total ==> PageStart(offset) == PageStart(offset + n)
  {
    var n := Chunk(total, offset, size);
    if offset + n == total && PageStart(offset + n) < total { SamePage(offset, offset + n); }
  }

  /** After a chunk, the next request is not at a boundary: at the end of the file its page is the one just read. */
  lemma NextChunk(file: seq<Byte>, s: seq<PageNode>, offset: nat, size: nat)
    requires Pages(file, s) && offset <= |file| && Chunk(|file|, offset, size) > 0 && Cached(s, offset)
    ensures var n := Chunk(|file|, offset, size);
      n <= size && offset + n <= |file| && (n < size ==> !Boundary(s, |file|, offset + n, size - n))
  {
    var n := Chunk(|file|, offset, size);
    ChunkEnds(|file|, offset, size);
    ChunkPage(|file|, offset, size);
    if n < size { BoundaryIs(s, |file|, offset + n, size - n); }
    if PageStart(offset) == PageStart(offset + n) { CachedTogether(file, s, offset, offset + n); }
  }

  lemma SamePage(a: nat, b: nat)
    requires a <= b <= PageStart(a) + PAGE && PageStart(b) < b
    ensures PageStart(a) == PageStart(b)
  {
    if b < PageStart(a) + PAGE { CoverStart(PageStart(a), b); } else { CoverStart(b, b); }
  }

  lemma AlignedSame(a: nat, b: nat)
    requires a % PAGE == 0 && b % PAGE == 0 && a <= b < a + PAGE
    ensures a == b
  {
    CoverStart(a, b);
    CoverStart(b, b);
  }

  lemma InSeq(root: Root<Page, ()>, n: PageNode, offset: nat)
    requires root.Shaped() && n in root.nodes && Covers(n.entry, offset)
    ensures Cached(root.Seq(), offset)
  {
    Located(Top, root.tree, n);
    Member(Locate(Top, root.tree, n).0, Locate(Top, root.tree, n).1);
  }

  /** `b` written over `s` at position `at`. */
  function Splice(s: seq<Byte>, at: nat, b: seq<Byte>): seq<Byte>
    requires at + |b| <= |s|
  {
    s[..at] + b + s[at + |b|..]
  }

  /** How much of a request one page serves. */
  function Chunk(total: nat, offset: nat, size: nat): nat
    requires offset <= total
  {
    if PageStart(offset) >= total then 0 else Min(size, Min(PageStart(offset) + PAGE, total) - offset)
  }

  lemma LinkedCached(s: seq<PageNode>, n: PageNode, t: seq<PageNode>, offset: nat)
    requires Linked1(s, n, t) && Covers(n.entry, offset)
    ensures Cached(t, offset)
  {
    var i :| 0 <= i <= |s| && t == s[..i] + [n] + s[i..];
    assert t[i] == n;
  }

  /** `t` is `s` with `n` inserted somewhere. */
  ghost predicate Linked1<X>(s: seq<X>, n: X, t: seq<X>) {
    exists i :: 0 <= i <= |s| && t == s[..i] + [n] + s[i..]
  }

  lemma Linked1At<X>(a: seq<X>, n: X, b: seq<X>)
    ensures Linked1(a + b, n, a + [n] + b)
  {
    assert (a + b)[..|a|] == a && (a + b)[|a|..] == b;
  }

  lemma PagesInsert(file: seq<Byte>, a: seq<PageNode>, n: PageNode, b: seq<PageNode>)
    requires Pages(file, a + b) && PageOf(file, n.entry)
    requires All(a, Rights(n.entry.offset)) && All(b, Lefts(n.entry.offset))
    ensures Pages(file, a + [n] + b) && Linked1(a + b, n, a + [n] + b)
  {
    var s, t := a + b, a + [n] + b;
    Linked1At(a, n, b);
    forall i | 0 <= i < |a| ensures Before0(a[i], n) { assert RightOf(n.entry.offset, a[i]); }
    forall i | 0 <= i < |b| ensures Before0(n, b[i]) { assert LeftOf(n.entry.offset, b[i]); }
    OrderedInsert(a, n, b, Before0);
    forall i | 0 <= i < |t| ensures PageOf(file, t[i].entry) {
      if i < |a| { assert t[i] == s[i]; } else if i > |a| { assert t[i] == s[i - 1]; }
    }
  }
}

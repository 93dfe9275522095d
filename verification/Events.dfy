/**
 Loading the mappings of a process and walking them (src/event.c:21-40, 65-124, 162-184).
 The lines of /proc/<pid>/maps arrive parsed: `matched` is what sscanf returned.
 */
module Events {
  import opened Words
  import opened RbTrees
  import opened RbHeap
  import opened RbLinks
  import opened Intervals
  import opened Maps

  /** The four characters of the permission column. */
  type Perms = s: string | |s| == 4 witness "r-xp"

  datatype Line = Line(matched: nat, start: U64, end: U64, perms: Perms, pgoff: U64, maj: nat, min: nat, ino: U64,
                       execname: string)

  /** struct mmap2_event; `len` first holds the end address. */
  datatype Event = Event(start: U64, len: U64, pgoff: U64, maj: nat, min: nat, ino: U64, prot: nat, flags: nat,
                         filename: string)

  const PROT_READ := 1
  const PROT_WRITE := 2
  const PROT_EXEC := 4
  const MAP_SHARED := 1
  const MAP_PRIVATE := 2

  predicate Executable(l: Line) {
    l.matched >= 7 && l.perms[2] == 'x'
  }

  /** The range a line stands for. */
  function MappingOf(l: Line): Mapping {
    Mapping(Range(l.start, l.end), l.pgoff,
            (if l.perms[0] == 'r' then PROT_READ else 0) + (if l.perms[1] == 'w' then PROT_WRITE else 0) + PROT_EXEC,
            if l.perms[3] == 's' then MAP_SHARED else MAP_PRIVATE,
            l.maj, l.min, l.ino, if l.execname == "" then "//anon" else l.execname)
  }

  /** The range is that of the line, column by column. */
  ghost predicate StandsFor(m: Mapping, l: Line) {
    && m.range.start == l.start && m.range.end == l.end && m.pgoff == l.pgoff
    && (m.prot % 2 == 1 <==> l.perms[0] == 'r') && (m.prot / 2 % 2 == 1 <==> l.perms[1] == 'w')
    && (m.prot / 4 == 1 <==> l.perms[2] == 'x') && m.prot < 8
    && (l.perms[3] == 's' ==> m.flags == 1) && (l.perms[3] != 's' ==> m.flags == 2)
    && m.maj == l.maj && m.min == l.min && m.ino == l.ino
    && (l.execname != "" ==> m.name == l.execname) && (l.execname == "" ==> m.name == "//anon")
  }

  /** That determines the range. */
  lemma StandsForOne(m: Mapping, n: Mapping, l: Line)
    requires StandsFor(m, l) && StandsFor(n, l)
    ensures m == n
  {
  }

  lemma LineStands(l: Line)
    requires Executable(l)
    ensures StandsFor(MappingOf(l), l) && l.matched >= 7 && l.perms[2] == 'x'
  {
  }

  /** The ranges of the executable lines, in line order. */
  function Kept(lines: seq<Line>): seq<Mapping> {
    if lines == [] then []
    else
      var l := lines[|lines| - 1];
      Kept(lines[..|lines| - 1]) + if Executable(l) then [MappingOf(l)] else []
  }

  ghost function Entries(s: seq<MapNode>): seq<Mapping> {
    seq(|s|, i requires 0 <= i < |s| => s[i].entry)
  }

  /** The tree order after inserting `added` one after the other. */
  ghost function PlaceAll(s: seq<MapNode>, added: seq<MapNode>): seq<MapNode> {
    if added == [] then s else Placed(PlaceAll(s, added[..|added| - 1]), added[|added| - 1], At())
  }

  /** map__init (src/map.c:9-27). */
  function MapInit(e: Event): Mapping {
    Mapping(Range(e.start, Add64(e.start, e.len)), e.pgoff, e.prot, e.flags, e.maj, e.min, e.ino, e.filename)
  }

  /** bpf_unwind_ctx__process_mmap (src/event.c:21-40) on the maps of the thread it finds. */
  method ProcessMmap(maps: AddressSpace, e: Event) returns (node: MapNode)
    requires maps.Valid()
    modifies maps`head, maps.entries, maps.entries.nodes
    ensures maps.Valid() && fresh(node) && node.entry == MapInit(e)
      && maps.entries.nodes == old(maps.entries.nodes) + {node}
    ensures maps.entries.Seq() == Placed(old(maps.entries.Seq()), node, At()) && maps.head == old(maps.head) + [node]
  {
    node := new Node(MapInit(e), ());
    maps.Insert(node);
  }

  /** What is made of one line (src/event.c:74-121): the event is overwritten; `ok` if it is to be processed. */
  method Parse(l: Line, event: Event) returns (e: Event, ok: bool)
    ensures ok <==> l.matched >= 7 && l.perms[2] == 'x'
    ensures ok ==> StandsFor(MapInit(e), l)
  {
    e, ok := event, false;
    if l.matched < 7 {
      return;
    }
    e := e.(start := l.start, len := l.end, pgoff := l.pgoff, maj := l.maj, min := l.min, ino := l.ino);
    e := e.(prot := 0, flags := 0);
    if l.perms[0] == 'r' { e := e.(prot := e.prot + PROT_READ); }
    if l.perms[1] == 'w' { e := e.(prot := e.prot + PROT_WRITE); }
    if l.perms[2] == 'x' { e := e.(prot := e.prot + PROT_EXEC); }
    if l.perms[3] == 's' { e := e.(flags := e.flags + MAP_SHARED); } else { e := e.(flags := e.flags + MAP_PRIVATE); }
    if l.perms[2] != 'x' {
      return;
    }
    e := e.(filename := if l.execname == "" then "//anon" else l.execname);
    e := e.(len := Sub64(e.len, e.start));
    ok := true;
  }

  /** One line on an address space (src/event.c:74-123). */
  method Scan(maps: AddressSpace, l: Line, event: Event) returns (e: Event, ghost more: seq<MapNode>)
    requires maps.Valid()
    modifies maps`head, maps.entries, maps.entries.nodes
    ensures maps.Valid() && fresh(maps.entries.nodes - old(maps.entries.nodes))
    ensures Entries(more) == (if Executable(l) then [MappingOf(l)] else []) && |more| <= 1
    ensures |more| == 1 <==> l.matched >= 7 && l.perms[2] == 'x'
    ensures |more| == 1 ==> StandsFor(more[0].entry, l)
    ensures maps.head == old(maps.head) + more && maps.entries.Seq() == PlaceAll(old(maps.entries.Seq()), more)
  {
    var ok;
    e, ok := Parse(l, event);
    more := [];
    if ok {
      var node := ProcessMmap(maps, e);
      more := [node];
      LineStands(l);
      StandsForOne(node.entry, MappingOf(l), l);
      assert more[..0] == [];
    }
  }

  /** What loading `lines` into a tree order `s0` and a list `h0` gives; folded until it is needed. */
  ghost predicate Loaded(lines: seq<Line>, s0: seq<MapNode>, h0: seq<MapNode>, added: seq<MapNode>, s: seq<MapNode>,
                         h: seq<MapNode>) {
    forall k: Seal :: IsLoaded(k, lines, s0, h0, added, s, h)
  }

  ghost predicate IsLoaded(k: Seal, lines: seq<Line>, s0: seq<MapNode>, h0: seq<MapNode>, added: seq<MapNode>,
                           s: seq<MapNode>, h: seq<MapNode>) {
    Entries(added) == Kept(lines) && h == h0 + added && s == PlaceAll(s0, added)
  }

  lemma LoadedNothing(s0: seq<MapNode>, h0: seq<MapNode>)
    ensures Loaded([], s0, h0, [], s0, h0)
  {
    assert h0 + [] == h0;
  }

  /** The loop of bpf_unwind_ctx_prepare_mmap over all lines (src/event.c:65-124). */
  method PrepareMmap(maps: AddressSpace, lines: seq<Line>) returns (ghost added: seq<MapNode>)
    requires maps.Valid()
    modifies maps`head, maps.entries, maps.entries.nodes
    ensures maps.Valid() && fresh(maps.entries.nodes - old(maps.entries.nodes))
    ensures Loaded(lines, old(maps.entries.Seq()), old(maps.head), added, maps.entries.Seq(), maps.head)
  {
    var event := Event(0, 0, 0, 0, 0, 0, 0, 0, "");
    added := [];
    ghost var s0, h0 := maps.entries.Seq(), maps.head;
    LoadedNothing(s0, h0);
    for i := 0 to |lines|
      invariant maps.Valid() && fresh(maps.entries.nodes - old(maps.entries.nodes))
      invariant Loaded(lines[..i], s0, h0, added, maps.entries.Seq(), maps.head)
    {
      ghost var more, s, h;
      s, h := maps.entries.Seq(), maps.head;
      event, more := Scan(maps, lines[i], event);
      LoadedMore(lines, i, s0, h0, added, s, h, more);
      added := added + more;
    }
    assert lines[..|lines|] == lines;
  }

  lemma {:induction false} LoadedMore(lines: seq<Line>, i: nat, s0: seq<MapNode>, h0: seq<MapNode>, added: seq<MapNode>,
                                      s: seq<MapNode>, h: seq<MapNode>, more: seq<MapNode>)
    requires i < |lines| && Loaded(lines[..i], s0, h0, added, s, h)
    requires |more| <= 1 && Entries(more) == if Executable(lines[i]) then [MappingOf(lines[i])] else []
    ensures Loaded(lines[..i + 1], s0, h0, added + more, PlaceAll(s, more), h + more)
  {
    KeptMore(lines, i);
    LoadedStep(lines[..i], lines[..i + 1], s0, h0, added, s, h, more);
  }

  lemma {:induction false} LoadedStep(part: seq<Line>, whole: seq<Line>, s0: seq<MapNode>, h0: seq<MapNode>,
                                      added: seq<MapNode>, s: seq<MapNode>, h: seq<MapNode>, more: seq<MapNode>)
    requires Loaded(part, s0, h0, added, s, h) && |more| <= 1 && Kept(whole) == Kept(part) + Entries(more)
    ensures Loaded(whole, s0, h0, added + more, PlaceAll(s, more), h + more)
  {
    assert IsLoaded(Seal, part, s0, h0, added, s, h);
    JoinedEntries(added, more);
    JoinedPlaces(s0, added, more);
    assert h + more == h0 + (added + more);
    LoadedIs(whole, s0, h0, added + more, PlaceAll(s, more), h + more);
  }

  lemma LoadedIs(lines: seq<Line>, s0: seq<MapNode>, h0: seq<MapNode>, added: seq<MapNode>, s: seq<MapNode>,
                 h: seq<MapNode>)
    requires Entries(added) == Kept(lines) && h == h0 + added && s == PlaceAll(s0, added)
    ensures Loaded(lines, s0, h0, added, s, h)
  {
  }

  lemma KeptMore(lines: seq<Line>, i: nat)
    requires i < |lines|
    ensures Kept(lines[..i + 1]) == Kept(lines[..i]) + if Executable(lines[i]) then [MappingOf(lines[i])] else []
  {
    assert lines[..i + 1][..i] == lines[..i];
  }

  lemma JoinedEntries(a: seq<MapNode>, b: seq<MapNode>)
    ensures Entries(a + b) == Entries(a) + Entries(b)
  {
  }

  lemma JoinedPlaces(s: seq<MapNode>, a: seq<MapNode>, b: seq<MapNode>)
    requires |b| <= 1
    ensures PlaceAll(PlaceAll(s, a), b) == PlaceAll(s, a + b)
  {
    if b == [] {
      assert a + b == a;
    } else {
      assert (a + b)[..|a|] == a && b[..0] == [];
    }
  }

  // ---------------------------------------------------------------- what is loaded can be found

  /** Ascending and non-overlapping. */
  ghost predicate Ascending(lines: seq<Line>) {
    && (forall i :: 0 <= i < |lines| ==> lines[i].start <= lines[i].end)
    && (forall i, j :: 0 <= i < j < |lines| ==> lines[i].end <= lines[j].start)
  }

  ghost predicate AscendingRanges(ms: seq<Mapping>) {
    && (forall i :: 0 <= i < |ms| ==> ms[i].range.start <= ms[i].range.end)
    && (forall i, j :: 0 <= i < j < |ms| ==> ms[i].range.end <= ms[j].range.start)
  }

  /** Some executable line covers `ip`. */
  ghost predicate Covering(lines: seq<Line>, k: int, ip: U64) {
    0 <= k < |lines| && lines[k].matched >= 7 && lines[k].perms[2] == 'x' && lines[k].start <= ip < lines[k].end
  }

  ghost predicate From(lines: seq<Line>, k: int, m: Mapping) {
    0 <= k < |lines| && Executable(lines[k]) && m == MappingOf(lines[k])
  }

  /** Each range kept comes from an executable line. */
  lemma {:induction false} KeptFrom(lines: seq<Line>, i: nat) returns (k: nat)
    requires i < |Kept(lines)|
    ensures From(lines, k, Kept(lines)[i])
    decreases |lines|
  {
    var n := |lines| - 1;
    if i < |Kept(lines[..n])| {
      k := KeptFrom(lines[..n], i);
    } else {
      k := n;
    }
  }

  /** Each executable line is kept. */
  lemma {:induction false} KeptAt(lines: seq<Line>, k: nat) returns (i: nat)
    requires k < |lines| && Executable(lines[k])
    ensures i < |Kept(lines)| && Kept(lines)[i] == MappingOf(lines[k])
    decreases |lines|
  {
    var n := |lines| - 1;
    if k < n {
      i := KeptAt(lines[..n], k);
    } else {
      i := |Kept(lines[..n])|;
    }
  }

  lemma {:induction false} KeptAscends(lines: seq<Line>)
    requires Ascending(lines)
    ensures AscendingRanges(Kept(lines))
  {
    if lines != [] {
      var n := |lines| - 1;
      KeptAscends(lines[..n]);
      var a := Kept(lines[..n]);
      forall i | 0 <= i < |a| ensures a[i].range.end <= lines[n].start {
        var k := KeptFrom(lines[..n], i);
      }
    }
  }

  /** Ascending ranges go into an empty tree in the order of insertion. */
  lemma {:induction false} PlaceAllAscending(added: seq<MapNode>)
    requires AscendingRanges(Entries(added))
    ensures PlaceAll([], added) == added
    decreases |added|
  {
    if added != [] {
      var n := |added| - 1;
      var a := added[..n];
      forall i | 0 <= i < |a| ensures Entries(a)[i] == Entries(added)[i] {}
      PlaceAllAscending(a);
      forall i | 0 <= i < |a| ensures At()(a[i]).start <= At()(added[n]).start {
        assert Entries(added)[i].range.end <= Entries(added)[n].range.start;
      }
      PlacedLast(a, added[n], At());
      assert added == a + [added[n]];
    }
  }

  lemma AscendingAt(added: seq<MapNode>)
    requires AscendingRanges(Entries(added))
    ensures StartsAscend(added, At()) && EndsAscend(added, At())
  {
    forall i, j | 0 <= i < j < |added|
      ensures At()(added[i]).start <= At()(added[j]).start && At()(added[i]).end <= At()(added[j]).end
    {
      assert Entries(added)[i].range.end <= Entries(added)[j].range.start;
      assert Entries(added)[j].range.start <= Entries(added)[j].range.end;
      assert Entries(added)[i].range.start <= Entries(added)[i].range.end;
    }
  }

  /**
   Ascending, non-overlapping lines loaded into an empty address space: tree order, list
   order and line order agree.
   */
  lemma LoadedOrder(lines: seq<Line>, added: seq<MapNode>)
    requires Ascending(lines) && Entries(added) == Kept(lines)
    ensures PlaceAll([], added) == added
  {
    KeptAscends(lines);
    PlaceAllAscending(added);
  }

  /** The search in such a tree is complete. */
  lemma LoadedSearch(lines: seq<Line>, added: seq<MapNode>, t: Tree<MapNode>, ip: U64)
    requires Ascending(lines) && Entries(added) == Kept(lines) && Inorder(t) == PlaceAll([], added)
    ensures Inorder(t) == added && (FindIn(t, At(), ip).Some? <==> Held(added, At(), ip))
  {
    LoadedOrder(lines, added);
    KeptAscends(lines);
    AscendingAt(added);
    AscendingUnshadowed(added, At(), ip);
    FindComplete(t, At(), ip);
  }

  /** Every executable line covering `ip` makes the search succeed, and it finds that line's range. */
  lemma LineFound(lines: seq<Line>, added: seq<MapNode>, t: Tree<MapNode>, ip: U64, k: nat)
    requires Ascending(lines) && Entries(added) == Kept(lines) && Inorder(t) == PlaceAll([], added)
      && Covering(lines, k, ip)
    ensures FindIn(t, At(), ip).Some? && FindIn(t, At(), ip).value.entry == MappingOf(lines[k])
  {
    LoadedSearch(lines, added, t, ip);
    var i := KeptAt(lines, k);
    assert Entries(added)[i] == added[i].entry;
    assert Contains(At()(added[i]), ip);
    var j := FoundLine(lines, added, t, ip);
  }

  /** What is found is an executable line covering `ip`. */
  lemma FoundLine(lines: seq<Line>, added: seq<MapNode>, t: Tree<MapNode>, ip: U64) returns (k: nat)
    requires Entries(added) == Kept(lines) && Inorder(t) == added && FindIn(t, At(), ip).Some?
    ensures Covering(lines, k, ip) && FindIn(t, At(), ip).value.entry == MappingOf(lines[k])
  {
    FindSound(t, At(), ip);
    InorderNodes(t);
    var n := FindIn(t, At(), ip).value;
    var i :| 0 <= i < |added| && added[i] == n;
    assert Entries(added)[i] == n.entry;
    k := KeptFrom(lines, i);
  }

  /** For every address maps__find gives the executable line that covers it, or nothing if there is none. */
  lemma LoadedFind(lines: seq<Line>, added: seq<MapNode>, t: Tree<MapNode>, ip: U64)
    requires Ascending(lines) && Entries(added) == Kept(lines) && Inorder(t) == PlaceAll([], added)
    ensures FindIn(t, At(), ip).Some? <==> exists k :: Covering(lines, k, ip)
    ensures forall k :: Covering(lines, k, ip) ==>
      FindIn(t, At(), ip).Some? && StandsFor(FindIn(t, At(), ip).value.entry, lines[k])
  {
    LoadedSearch(lines, added, t, ip);
    if FindIn(t, At(), ip).Some? { var k := FoundLine(lines, added, t, ip); }
    forall k | Covering(lines, k, ip)
      ensures FindIn(t, At(), ip).Some? && StandsFor(FindIn(t, At(), ip).value.entry, lines[k])
    {
      LineFound(lines, added, t, ip, k);
      LineStands(lines[k]);
    }
  }

  // ---------------------------------------------------------------- the walk

  /** struct dl_phdr_info as the walk fills it in. */
  datatype PhdrInfo = PhdrInfo(start: U64, end: U64, name: string)

  function InfoOf(m: Mapping): PhdrInfo {
    PhdrInfo(m.range.start, m.range.end, m.name)
  }

  ghost function Infos(s: seq<MapNode>): seq<PhdrInfo> {
    seq(|s|, i requires 0 <= i < |s| => InfoOf(s[i].entry))
  }

  /** No call so far asked to stop; a callback may depend on everything it has seen. */
  ghost predicate Going(callback: seq<PhdrInfo> -> int, calls: seq<PhdrInfo>) {
    forall k :: 0 < k <= |calls| ==> callback(calls[..k]) >= 0
  }

  /** bpf_dl_iterate_phdr (src/event.c:162-184). */
  method IteratePhdr(maps: AddressSpace, callback: seq<PhdrInfo> -> int) returns (ret: int, calls: seq<PhdrInfo>)
    ensures calls <= Infos(maps.head) && (ret == 0 || ret == -1)
    ensures forall i :: 0 <= i < |calls| ==>
      var m := maps.head[i].entry;
      calls[i].start == m.range.start && calls[i].end == m.range.end && calls[i].name == m.name
    ensures ret == 0 <==> Going(callback, Infos(maps.head))
    ensures ret == 0 ==> calls == Infos(maps.head)
    ensures ret == -1 ==> calls != [] && callback(calls) < 0 && Going(callback, calls[..|calls| - 1])
  {
    calls := [];
    for i := 0 to |maps.head|
      invariant calls == Infos(maps.head)[..i] && Going(callback, calls)
    {
      var pos := maps.head[i];
      var info := PhdrInfo(pos.entry.range.start, pos.entry.range.end, pos.entry.name);
      ghost var was := calls;
      calls := calls + [info];
      assert calls == Infos(maps.head)[..i + 1];
      assert calls[..i] == was && calls[..i + 1] == calls;
      ret := callback(calls);
      if ret < 0 {
        assert Infos(maps.head)[..i + 1] == calls;
        return -1, calls;
      }
      forall k | 0 < k <= |calls| ensures callback(calls[..k]) >= 0 {
        if k <= i { assert calls[..k] == was[..k]; }
      }
    }
    assert Infos(maps.head)[..|maps.head|] == Infos(maps.head);
    ret := 0;
  }
}

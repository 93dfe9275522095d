/**
 The registry and the loader together (src/event.c:21-40, 133-144, src/unwind_libunwind.c:187-198):
 the mappings of a process are inserted through whichever of its threads is presented, and
 every thread of the process sees them.
 */
module Session {
  import opened Words
  import opened RbTrees
  import opened RbHeap
  import opened RbLinks
  import opened Intervals
  import opened Maps
  import opened Events
  import opened Registry
  import opened Machine

  /** The objects of an address space. */
  ghost function Foot(m: AddressSpace?): set<object>
    reads if m == null then {} else {m.entries}
  {
    if m == null then {} else {m, m.entries} + m.entries.nodes
  }

  /** `m` is the address space of the group, or null if its leader is not registered; folded until it is needed. */
  ghost predicate SpaceOf(table: Table, tgid: Pid, m: AddressSpace?)
    reads table, if m == null then {} else {m, m.entries} + m.entries.nodes
    reads if m == null then {} else {m.entries}
  {
    forall k: Seal :: IsSpaceOf(k, table, tgid, m)
  }

  ghost predicate IsSpaceOf(k: Seal, table: Table, tgid: Pid, m: AddressSpace?)
    reads table, if m == null then {} else {m, m.entries} + m.entries.nodes
    reads if m == null then {} else {m.entries}
  {
    if m == null then tgid !in table.w.index
    else
      && tgid in table.w.index && tgid in table.w.info && table.w.info[tgid].maps == Some(m) && m.Valid()
      && Outside(table.w.repr, m)
  }

  ghost function OrderOf(m: AddressSpace?): seq<MapNode>
    reads if m == null then {} else {m.entries}
  {
    if m == null then [] else m.entries.Seq()
  }

  ghost function ListOf(m: AddressSpace?): seq<MapNode>
    reads if m == null then {} else {m}
  {
    if m == null then [] else m.head
  }

  /** machine__findnew_thread for the sake of its address space (src/event.c:29). */
  method SpaceFor(table: Table, tgid: Pid, tid: Pid, ghost known: AddressSpace?) returns (m: AddressSpace)
    requires table.Valid({}) && tgid == table.w.group(tid) && SpaceOf(table, tgid, known)
    modifies table, table.w.repr
    ensures table.Valid({}) && Extends(old(table.w), table.w) && fresh(table.w.repr - old(table.w.repr))
    ensures tid in table.w.index && SpaceOf(table, tgid, m)
    ensures if known != null then m == known else fresh(m) && fresh(m.entries)
    ensures m.entries.Seq() == old(OrderOf(known)) && m.head == old(ListOf(known))
      && (known == null ==> m.entries.nodes == {})
    ensures known != null ==> m.entries.nodes == old(m.entries.nodes)
  {
    assert IsSpaceOf(Seal, table, tgid, known);
    var th, depth := table.FindNewThread(tgid, tid);
    GroupKnown(table, tgid, tid);
    assert Extension(Seal, old(table.w), table.w);
    m := th.entry.maps;
    if known == null { assert Untouched(Seal, table.w.repr, m); }
    assert IsSpaceOf(Seal, table, tgid, m);
  }

  /** What the registry says of a registered thread: its group's leader is registered with the same address space. */
  lemma GroupKnown(table: Table, tgid: Pid, tid: Pid)
    requires table.Valid({}) && tid in table.w.index && tgid == table.w.group(tid)
    ensures tgid in table.w.index && tgid in table.w.info && table.w.index[tid].entry.maps != null
    ensures table.w.info[tgid].maps == Some(table.w.index[tid].entry.maps)
  {
    table.Open({});
    Known(table.w, {}, tid);
    assert Records(Seal, table.w.index, table.w.info);
  }

  /** bpf_unwind_ctx__process_mmap (src/event.c:21-40), through the registry. */
  method Process(table: Table, tgid: Pid, tid: Pid, e: Event, ghost known: AddressSpace?)
    returns (m: AddressSpace, node: MapNode)
    requires table.Valid({}) && tgid == table.w.group(tid) && SpaceOf(table, tgid, known)
    modifies table, table.w.repr, Foot(known)
    ensures table.Valid({}) && Extends(old(table.w), table.w) && fresh(table.w.repr - old(table.w.repr))
    ensures tid in table.w.index && SpaceOf(table, tgid, m) && node.entry == MapInit(e)
    ensures if known != null then m == known else fresh(m)
    ensures fresh(Foot(m) - old(Foot(known)))
    ensures m.entries.Seq() == Placed(old(OrderOf(known)), node, Maps.At()) && m.head == old(ListOf(known)) + [node]
  {
    m := SpaceFor(table, tgid, tid, known);
    node := Insert(table, tgid, m, e);
  }

  /** Inserting into a group's address space leaves the registry alone. */
  method Insert(table: Table, ghost tgid: Pid, m: AddressSpace, e: Event) returns (node: MapNode)
    requires table.Valid({}) && SpaceOf(table, tgid, m)
    modifies m`head, m.entries, m.entries.nodes
    ensures table.Valid({}) && SpaceOf(table, tgid, m) && table.w == old(table.w) && node.entry == MapInit(e)
    ensures fresh(node) && m.entries.nodes == old(m.entries.nodes) + {node}
    ensures m.entries.Seq() == Placed(old(m.entries.Seq()), node, Maps.At()) && m.head == old(m.head) + [node]
  {
    assert IsSpaceOf(Seal, table, tgid, m);
    EntriesInside(table);
    node := ProcessMmap(m, e);
    assert IsSpaceOf(Seal, table, tgid, m);
  }

  /** The thread objects are among the objects of the table. */
  lemma EntriesInside(table: Table)
    requires table.Valid({})
    ensures forall t :: t in table.w.index ==> table.w.index[t].entry in table.w.repr
  {
    table.Open({});
    assert Consistent(Seal, table.w, {});
  }

  /** One line (src/event.c:74-123), through the registry. */
  method MapLine(table: Table, tgid: Pid, tid: Pid, l: Line, event: Event, ghost known: AddressSpace?)
    returns (e: Event, ghost m: AddressSpace?, ghost more: seq<MapNode>)
    requires table.Valid({}) && tgid == table.w.group(tid) && SpaceOf(table, tgid, known)
    modifies table, table.w.repr, Foot(known)
    ensures table.Valid({}) && Extends(old(table.w), table.w) && fresh(table.w.repr - old(table.w.repr))
    ensures SpaceOf(table, tgid, m) && (known != null ==> m == known) && fresh(Foot(m) - old(Foot(known)))
    ensures |more| <= 1 && Entries(more) == if Executable(l) then [MappingOf(l)] else []
    ensures OrderOf(m) == PlaceAll(old(OrderOf(known)), more) && ListOf(m) == old(ListOf(known)) + more
    ensures more != [] ==> m != null && tid in table.w.index
  {
    m, more := known, [];
    var ok;
    e, ok := Parse(l, event);
    if ok {
      var node;
      ghost var next;
      next, node := Process(table, tgid, tid, e, known);
      LineStands(l);
      StandsForOne(MapInit(e), MappingOf(l), l);
      m, more := next, [node];
      assert more[..0] == [];
    } else {
      table.Open({});
      ExtendsSelf(table.w, {});
    }
  }

  lemma StillRegistered(w: World, x: World, tid: Pid)
    requires Extends(w, x)
    ensures tid in w.index ==> tid in x.index
  {
    assert Extension(Seal, w, x);
  }

  /** What has been allocated since, in two steps. */
  lemma Since(a: set<object>, b: set<object>, c: set<object>)
    ensures c - a <= (c - b) + (b - a)
  {
  }

  /**
   bpf_unwind_ctx__thread_map (src/event.c:133-144): all executable lines end up in the
   address space of the group, in line order in its list; without one, nothing is created.
   */
  method ThreadMap(table: Table, tgid: Pid, tid: Pid, lines: seq<Line>, ghost known: AddressSpace?)
    returns (ghost m: AddressSpace?, ghost added: seq<MapNode>)
    requires table.Valid({}) && tgid == table.w.group(tid) && SpaceOf(table, tgid, known)
    modifies table, table.w.repr, Foot(known)
    ensures table.Valid({}) && Extends(old(table.w), table.w) && SpaceOf(table, tgid, m)
      && fresh(table.w.repr - old(table.w.repr))
    ensures known != null ==> m == known
    ensures Loaded(lines, old(OrderOf(known)), old(ListOf(known)), added, OrderOf(m), ListOf(m))
    ensures Kept(lines) != [] ==> m != null && tid in table.w.index
  {
    m, added := known, [];
    var event := Event(0, 0, 0, 0, 0, 0, 0, 0, "");
    ghost var s0, h0 := OrderOf(known), ListOf(known);
    table.Open({});
    ExtendsSelf(table.w, {});
    LoadedNothing(s0, h0);
    for i := 0 to |lines|
      invariant table.Valid({}) && Extends(old(table.w), table.w) && fresh(table.w.repr - old(table.w.repr))
      invariant SpaceOf(table, tgid, m) && (known != null ==> m == known) && fresh(Foot(m) - old(Foot(known)))
      invariant Loaded(lines[..i], s0, h0, added, OrderOf(m), ListOf(m))
      invariant added != [] ==> m != null && tid in table.w.index
    {
      ghost var more, s, h, x, foot := [], OrderOf(m), ListOf(m), table.w, Foot(m);
      event, m, more := MapLine(table, tgid, tid, lines[i], event, m);
      ExtendsTwice(old(table.w), x, table.w);
      StillRegistered(x, table.w, tid);
      Since(old(Foot(known)), foot, Foot(m));
      Since(old(table.w.repr), x.repr, table.w.repr);
      LoadedMore(lines, i, s0, h0, added, s, h, more);
      added := added + more;
    }
    assert lines[..|lines|] == lines;
    assert IsLoaded(Seal, lines, s0, h0, added, OrderOf(m), ListOf(m));
  }

  /** find_map (src/unwind_libunwind.c:187-198) for any thread of the group. */
  method FindMap(table: Table, tgid: Pid, tid: Pid, ip: U64, ghost known: AddressSpace?)
    returns (n: Node?<Mapping, ()>, ghost t: Tree<MapNode>)
    requires table.Valid({}) && tgid == table.w.group(tid) && SpaceOf(table, tgid, known)
    modifies table, table.w.repr
    ensures table.Valid({}) && Extends(old(table.w), table.w)
    ensures Inorder(t) == old(OrderOf(known)) && Ref(n) == FindIn(t, Maps.At(), ip)
  {
    var m := SpaceFor(table, tgid, tid, known);
    assert IsSpaceOf(Seal, table, tgid, m);
    t := m.entries.tree;
    n := m.Find(ip);
  }

  /**
   Mapping a process that is not registered yet through one thread, then looking an address
   up through any thread of it: found is exactly the executable line that covers it.
   */
  method MapThenFind(table: Table, tgid: Pid, tid: Pid, other: Pid, lines: seq<Line>, ip: U64)
    returns (n: Node?<Mapping, ()>)
    requires table.Valid({}) && tgid == table.w.group(tid) == table.w.group(other) && tgid !in table.w.index
      && Ascending(lines)
    modifies table, table.w.repr
    ensures table.Valid({})
    ensures n != null <==> exists k :: Covering(lines, k, ip)
    ensures forall k :: Covering(lines, k, ip) ==> n != null && StandsFor(n.entry, lines[k])
  {
    assert IsSpaceOf(Seal, table, tgid, null);
    ghost var m, added, t;
    m, added := ThreadMap(table, tgid, tid, lines, null);
    assert IsLoaded(Seal, lines, [], [], added, OrderOf(m), ListOf(m));
    n, t := FindMap(table, tgid, other, ip, m);
    LoadedFind(lines, added, t, ip);
  }
}

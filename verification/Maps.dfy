/**
 The address ranges of a process (src/map.c, src/map.h, src/event.c:65-124, 162-184): a
 tree ordered by start address and a list in the order of insertion.
 */
module Maps {
  import opened Words
  import opened RbTrees
  import opened RbLinks
  import opened RbHeap
  import opened RbTree
  import opened RbIterate
  import opened RbSearch
  import opened RbDrain
  import opened Intervals

  datatype Mapping = Mapping(range: Range, pgoff: U64, prot: nat, flags: nat, maj: nat, min: nat, ino: U64,
                             name: string)

  type MapNode = Node<Mapping, ()>

  /** map_ip (src/map.h:41-44): from an address to an offset in the file. */
  function MapIp(m: Mapping, ip: U64): U64 {
    Add64(Sub64(ip, m.range.start), m.pgoff)
  }

  /** unmap_ip (src/map.h:46-49): back. */
  function UnmapIp(m: Mapping, ip: U64): U64 {
    Sub64(Add64(ip, m.range.start), m.pgoff)
  }

  ghost function RangeOf(n: MapNode): Range {
    n.entry.range
  }

  ghost function At(): MapNode -> Range {
    (n: MapNode) => RangeOf(n)
  }

  ghost predicate StartsUpTo(ip: U64, n: MapNode) {
    n.entry.range.start <= ip
  }

  ghost predicate StartsAfter(ip: U64, n: MapNode) {
    ip < n.entry.range.start
  }

  ghost function Rights(ip: U64): MapNode -> bool {
    (n: MapNode) => StartsUpTo(ip, n)
  }

  ghost function Lefts(ip: U64): MapNode -> bool {
    (n: MapNode) => StartsAfter(ip, n)
  }

  lemma StartSides(s: seq<MapNode>, ip: U64)
    requires StartsAscend(s, At())
    ensures Prefix(s, Rights(ip)) && Suffix(s, Lefts(ip))
  {
    forall i, j | 0 <= i < j < |s| ensures RangeOf(s[i]).start <= RangeOf(s[j]).start {
      assert At()(s[i]).start <= At()(s[j]).start;
    }
  }

  /** A tree order and a list of the same ranges; the quantifier keeps the definition folded. */
  ghost predicate Agree(s: seq<MapNode>, head: seq<MapNode>) {
    forall k: Seal :: Agrees(k, s, head)
  }

  ghost predicate Agrees(k: Seal, s: seq<MapNode>, head: seq<MapNode>) {
    StartsAscend(s, At()) && multiset(head) == multiset(s)
  }

  class AddressSpace {
    const entries: Root<Mapping, ()>
    var head: seq<MapNode>

    constructor ()
      ensures Blank() && fresh(entries)
    {
      entries := new Root(Plain());
      head := [];
    }

    /** The tree is ordered by start, and the list holds the same nodes. */
    ghost predicate Valid()
      reads this, entries, entries.nodes
    {
      entries.Valid() && Agree(entries.Seq(), head)
    }

    /** As maps__init leaves it (src/map.c:75-81). */
    ghost predicate Blank()
      reads this, entries, entries.nodes
    {
      Valid() && entries.Seq() == [] && entries.nodes == {} && head == []
    }

    /** maps__find (src/map.c:143-166). */
    method Find(ip: U64) returns (n: Node?<Mapping, ()>)
      requires Valid()
      ensures Ref(n) == FindIn(entries.tree, At(), ip)
      ensures n != null ==> n in entries.nodes && Contains(n.entry.range, ip)
      ensures n != null <==> Exposed(entries.tree, At(), ip)
      ensures !Shadowed(entries.Seq(), At(), ip) ==> (n == null <==> !Held(entries.Seq(), At(), ip))
    {
      ghost var c, t := Top, entries.tree;
      assert Agrees(Seal, entries.Seq(), head);
      See(entries, c, t);
      n := entries.rb_node;
      FindSound(t, At(), ip);
      ShapedDistinct(entries);
      FindExact(t, At(), ip);
      if !Shadowed(entries.Seq(), At(), ip) { FindComplete(t, At(), ip); }
      while n != null
        invariant Valid() && entries.tree == Plug(c, t) && Ref(n) == Ptr(t)
        invariant FindIn(entries.tree, At(), ip) == FindIn(t, At(), ip)
        decreases t
      {
        See(entries, c, t);
        if ip < n.entry.range.start {
          c, t := In(Left, t.n, t.red, t.right, c), t.left;
          n := n.left;
        } else if ip >= n.entry.range.end {
          c, t := In(Right, t.n, t.red, t.left, c), t.right;
          n := n.right;
        } else {
          return;
        }
      }
    }

    /** The descent of __maps__insert (src/map.c:176-183). */
    method FindSlot(ip: U64) returns (parent: Node?<Mapping, ()>, left: bool, ghost c: Ctx<MapNode>)
      requires Valid()
      ensures Valid() && entries.tree == Plug(c, Nil) && Ref(parent) == Parent(c) && (c.In? ==> left == c.side.Left?)
      ensures Between(c, Rights(ip), Lefts(ip)) && entries.Seq() == Before(c) + After(c)
    {
      assert Agrees(Seal, entries.Seq(), head);
      StartSides(entries.Seq(), ip);
      ghost var t := entries.tree;
      c := Top;
      See(entries, c, t);
      var p := entries.rb_node;
      parent, left := null, false;
      while p != null
        invariant Valid() && entries.tree == Plug(c, t) && Ref(p) == Ptr(t)
        invariant Ref(parent) == Parent(c) && (c.In? ==> left == c.side.Left?)
        invariant Between(c, Rights(ip), Lefts(ip)) && Prefix(entries.Seq(), Rights(ip))
          && Suffix(entries.Seq(), Lefts(ip))
        decreases t
      {
        See(entries, c, t);
        parent := p;
        if ip < p.entry.range.start {
          GoLeft(c, t, Rights(ip), Lefts(ip));
          c, t := In(Left, t.n, t.red, t.right, c), t.left;
          p, left := p.left, true;
        } else {
          GoRight(c, t, Rights(ip), Lefts(ip));
          c, t := In(Right, t.n, t.red, t.left, c), t.right;
          p, left := p.right, false;
        }
      }
      Bottom(c, Rights(ip), Lefts(ip));
    }

    /** __maps__insert (src/map.c:169-189): any range is accepted, also one that overlaps or repeats another. */
    method Insert(node: MapNode)
      requires Valid() && node !in entries.nodes
      modifies this`head, entries, node, entries.nodes
      ensures Valid() && entries.nodes == old(entries.nodes) + {node}
      ensures entries.Seq() == Placed(old(entries.Seq()), node, At()) && head == old(head) + [node]
    {
      var parent, left;
      ghost var c;
      parent, left, c := FindSlot(node.entry.range.start);
      PlacedAt(Before(c), node, After(c), head);
      LinkInsert(entries, node, parent, left, c);
      head := head + [node];
    }

    /**
     __maps__purge (src/map.c:83-95): `puts` are the ranges whose tree reference is
     dropped, in that order.
     */
    method Purge() returns (puts: seq<MapNode>)
      requires Valid()
      modifies entries, entries.nodes
      ensures entries.Valid() && entries.Seq() == [] && entries.nodes == {}
      ensures puts == old(entries.Seq()) && AllEmpty(old(entries.nodes))
    {
      puts := [];
      var next := First(entries);
      ghost var gone := {};
      while next != null
        invariant entries.Valid() && Parted(old(entries.nodes), entries.nodes, gone) && AllEmpty(gone)
        invariant AtFirst(entries.Seq(), next) && Split(old(entries.Seq()), puts, entries.Seq())
        decreases |entries.nodes|
      {
        var pos: MapNode := next;
        ghost var was, left := entries.Seq(), entries.nodes;
        next := Step(pos);
        Shift(old(entries.Seq()), puts, pos, was, entries.Seq());
        PartedStep(old(entries.nodes), left, gone, pos);
        puts := puts + [pos];
        AddEmpty(gone, pos);
        gone := gone + {pos};
      }
      assert entries.tree == Nil;
    }

    /** One round of the purge. */
    method Step(pos: MapNode) returns (next: Node?<Mapping, ()>)
      requires entries.Valid() && AtFirst(entries.Seq(), pos)
      modifies entries, entries.nodes
      ensures entries.Valid() && pos in old(entries.nodes) && entries.nodes == old(entries.nodes) - {pos} && pos.Empty()
      ensures old(entries.Seq()) == [pos] + entries.Seq() && AtFirst(entries.Seq(), next)
    {
      ShapedDistinct(entries);
      InorderNodes(entries.tree);
      ghost var t := entries.tree;
      next := Next(entries, pos);
      EraseInit(entries, pos);
      FirstRemoved(t, pos, next, entries.Seq());
    }
  }

  ghost predicate AllEmpty(s: set<MapNode>)
    reads s
  {
    forall n :: n in s ==> n.Empty()
  }

  /** `all` are the nodes still there and those gone. */
  ghost predicate Parted(all: set<MapNode>, left: set<MapNode>, gone: set<MapNode>) {
    left + gone == all && left !! gone
  }

  lemma PartedStep(all: set<MapNode>, left: set<MapNode>, gone: set<MapNode>, n: MapNode)
    requires Parted(all, left, gone) && n in left
    ensures Parted(all, left - {n}, gone + {n})
  {
  }

  lemma AddEmpty(s: set<MapNode>, n: MapNode)
    requires AllEmpty(s) && n.Empty()
    ensures AllEmpty(s + {n})
  {
  }

  lemma PlacedAt(a: seq<MapNode>, n: MapNode, b: seq<MapNode>, head: seq<MapNode>)
    requires All(a, Rights(n.entry.range.start)) && All(b, Lefts(n.entry.range.start)) && Agree(a + b, head)
    ensures a + [n] + b == Placed(a + b, n, At()) && Agree(a + [n] + b, head + [n])
  {
    assert Agrees(Seal, a + b, head);
    forall i | 0 <= i < |a| ensures At()(a[i]).start <= At()(n).start { assert Rights(n.entry.range.start)(a[i]); }
    forall i | 0 <= i < |b| ensures At()(n).start < At()(b[i]).start { assert Lefts(n.entry.range.start)(b[i]); }
    PlacedBetween(a, n, b, At());
    PlacedAscends(a + b, n, At());
    PlacedContents(a + b, n, At());
  }
}

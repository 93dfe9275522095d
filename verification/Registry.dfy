/**
 The threads of the traced processes (src/machine.c:43-104, 187-280, src/thread.c:14-25,
 65-80): 256 buckets, each a tree ordered by tid with a one-entry cache, and address
 spaces shared by the threads of a process.
 */
module Registry {
  import opened Seqs
  import opened Words
  import opened RbTrees
  import opened RbLinks
  import opened RbHeap
  import opened RbTree
  import opened RbIterate
  import opened RbSearch
  import opened RbDrain
  import Maps

  const BUCKETS: nat := 256

  type Pid = x: int | -0x8000_0000 <= x < 0x8000_0000

  /** machine__threads (src/machine.c:55-60): the cast keeps -1 in range. */
  function Hash(tid: Pid): (h: nat)
    ensures h < BUCKETS
  {
    (tid % TWO32) % BUCKETS
  }

  /** For a negative tid, too, that is the remainder of floor division by 256. */
  lemma HashIs(tid: Pid)
    ensures 0 <= Hash(tid) < 256 && Hash(tid) == tid % 256 && Hash(-1) == 255
  {
    var q := tid / 256;
    assert tid == q * 256 + tid % 256;
    assert tid % TWO32 == tid || tid % TWO32 == tid + TWO32;
    assert tid + TWO32 == (q + 0x100_0000) * 256 + tid % 256;
  }

  class Thread {
    const tid: Pid
    var tgid: Pid
    var maps: Maps.AddressSpace?
    var refcnt: nat

    /** thread__new (src/thread.c:14-25). */
    constructor (tgid: Pid, tid: Pid)
      ensures this.tid == tid && this.tgid == tgid && maps == null && refcnt == 1
    {
      this.tid, this.tgid, maps, refcnt := tid, tgid, null, 1;
    }
  }

  type ThreadNode = Node<Thread, ()>

  ghost function TidLess(a: ThreadNode, b: ThreadNode): bool {
    a.entry.tid < b.entry.tid
  }

  ghost predicate TidBelow(tid: Pid, n: ThreadNode) {
    n.entry.tid < tid
  }

  ghost predicate TidAbove(tid: Pid, n: ThreadNode) {
    tid < n.entry.tid
  }

  ghost function Rights(tid: Pid): ThreadNode -> bool {
    (n: ThreadNode) => TidBelow(tid, n)
  }

  ghost function Lefts(tid: Pid): ThreadNode -> bool {
    (n: ThreadNode) => TidAbove(tid, n)
  }

  /** The tids ascend and belong to the bucket. */
  ghost predicate Tids(s: seq<ThreadNode>, slot: nat) {
    forall k: Seal :: TidOrder(k, s, slot)
  }

  ghost predicate TidOrder(k: Seal, s: seq<ThreadNode>, slot: nat) {
    Ordered(s, TidLess) && forall i :: 0 <= i < |s| ==> Hash(s[i].entry.tid) == slot
  }

  ghost predicate Present(s: set<ThreadNode>, tid: Pid) {
    exists n :: n in s && n.entry.tid == tid
  }

  lemma TidSides(s: seq<ThreadNode>, tid: Pid)
    requires Ordered(s, TidLess)
    ensures Prefix(s, Rights(tid)) && Suffix(s, Lefts(tid))
  {
    forall i, j | 0 <= i < j < |s| ensures s[i].entry.tid < s[j].entry.tid { assert TidLess(s[i], s[j]); }
  }

  lemma {:induction false} NotPresent(t: Tree<ThreadNode>, tid: Pid)
    requires Either(Inorder(t), Rights(tid), Lefts(tid))
    ensures !Present(Nodes(t), tid)
  {
    InorderNodes(t);
    var s := Inorder(t);
    forall n | n in Nodes(t) ensures n.entry.tid != tid {
      var i :| 0 <= i < |s| && s[i] == n;
      assert Rights(tid)(s[i]) || Lefts(tid)(s[i]);
    }
  }

  lemma TidsInsert(a: seq<ThreadNode>, n: ThreadNode, b: seq<ThreadNode>, slot: nat)
    requires Tids(a + b, slot) && Hash(n.entry.tid) == slot
    requires All(a, Rights(n.entry.tid)) && All(b, Lefts(n.entry.tid))
    ensures Tids(a + [n] + b, slot)
  {
    var s, t, tid := a + b, a + [n] + b, n.entry.tid;
    assert TidOrder(Seal, s, slot);
    forall i | 0 <= i < |a| ensures TidLess(a[i], n) { assert Rights(tid)(a[i]); }
    forall i | 0 <= i < |b| ensures TidLess(n, b[i]) { assert Lefts(tid)(b[i]); }
    OrderedInsert(a, n, b, TidLess);
    forall i | 0 <= i < |t| ensures Hash(t[i].entry.tid) == slot {
      if i < |a| { assert t[i] == s[i]; } else if i > |a| { assert t[i] == s[i - 1]; }
    }
  }

  /** `nr` counts the nodes that are not pending. */
  ghost predicate Tally(nr: nat, nodes: set<ThreadNode>, pending: set<ThreadNode>) {
    forall k: Seal :: Counts(k, nr, nodes, pending)
  }

  ghost predicate Counts(k: Seal, nr: nat, nodes: set<ThreadNode>, pending: set<ThreadNode>) {
    nr == |nodes - pending|
  }

  lemma TallyLink(nr: nat, nodes: set<ThreadNode>, pending: set<ThreadNode>, node: ThreadNode)
    requires node !in nodes
    ensures Tally(nr, nodes, pending) <==> Tally(nr, nodes + {node}, pending + {node})
    ensures Tally(nr, nodes, pending) <==> Tally(nr, nodes, pending + {node})
  {
    assert (nodes + {node}) - (pending + {node}) == nodes - pending == nodes - (pending + {node});
    assert Counts(Seal, nr, nodes, pending) <==> Counts(Seal, nr, nodes + {node}, pending + {node});
    assert Counts(Seal, nr, nodes, pending) <==> Counts(Seal, nr, nodes, pending + {node});
  }

  lemma TallyCount(nr: nat, nodes: set<ThreadNode>, pending: set<ThreadNode>, node: ThreadNode)
    requires node in nodes && node !in pending && Tally(nr, nodes, pending + {node})
    ensures Tally(nr + 1, nodes, pending)
  {
    assert Counts(Seal, nr, nodes, pending + {node});
    assert nodes - pending == (nodes - (pending + {node})) + {node};
  }

  lemma TallyRemove(nr: nat, nodes: set<ThreadNode>, node: ThreadNode)
    requires node in nodes && Tally(nr, nodes, {})
    ensures nr > 0 && Tally(nr - 1, nodes - {node}, {})
  {
    assert Counts(Seal, nr, nodes, {});
    assert (nodes - {node}) - {} == nodes - {node} && nodes - {} == nodes;
  }

  // ---------------------------------------------------------------- reference counts

  /** The threads' counts are the given ones, and none is zero; folded until it is needed. */
  ghost predicate Tallied(nodes: set<ThreadNode>, refs: map<Pid, nat>)
    reads (set n | n in nodes :: n.entry)`refcnt
  {
    forall k: Seal :: AreTallied(k, nodes, refs)
  }

  ghost predicate AreTallied(k: Seal, nodes: set<ThreadNode>, refs: map<Pid, nat>)
    reads (set n | n in nodes :: n.entry)`refcnt
  {
    forall n :: n in nodes ==> n.entry.tid in refs && n.entry.refcnt == refs[n.entry.tid] > 0
  }

  lemma TalliedSub(nodes: set<ThreadNode>, part: set<ThreadNode>, refs: map<Pid, nat>)
    requires Tallied(nodes, refs) && part <= nodes
    ensures Tallied(part, refs)
  {
    assert AreTallied(Seal, nodes, refs);
  }

  /** The threads of `s` that somebody besides the tree holds, in order. */
  ghost function Survivors(s: seq<ThreadNode>, refs: map<Pid, nat>): seq<ThreadNode> {
    if s == [] then []
    else (if s[0].entry.tid in refs && refs[s[0].entry.tid] > 1 then [s[0]] else []) + Survivors(s[1..], refs)
  }

  /** The threads of `s` that nobody else holds, in order. */
  ghost function Orphans(s: seq<ThreadNode>, refs: map<Pid, nat>): seq<ThreadNode> {
    if s == [] then []
    else (if s[0].entry.tid in refs && refs[s[0].entry.tid] > 1 then [] else [s[0]]) + Orphans(s[1..], refs)
  }

  /** Every thread is one or the other. */
  lemma {:induction false} SurvivorsOrOrphans(s: seq<ThreadNode>, refs: map<Pid, nat>)
    ensures multiset(Survivors(s, refs)) + multiset(Orphans(s, refs)) == multiset(s)
    ensures forall n :: n in Survivors(s, refs) <==> n in s && n.entry.tid in refs && refs[n.entry.tid] > 1
  {
    if s != [] {
      SurvivorsOrOrphans(s[1..], refs);
      assert s == [s[0]] + s[1..];
    }
  }

  /** Once all handles are returned, every thread is deleted and none is left on a dead list. */
  lemma {:induction false} NoSurvivors(s: seq<ThreadNode>, refs: map<Pid, nat>)
    requires forall p :: p in refs ==> refs[p] <= 1
    ensures Survivors(s, refs) == [] && Orphans(s, refs) == s
  {
    if s != [] {
      NoSurvivors(s[1..], refs);
      assert s == [s[0]] + s[1..];
    }
  }

  lemma SplitFirst(t: ThreadNode, s: seq<ThreadNode>, refs: map<Pid, nat>, more: bool)
    requires t.entry.tid in refs && more == (refs[t.entry.tid] > 1)
    ensures Survivors([t] + s, refs) == (if more then [t] else []) + Survivors(s, refs)
    ensures Orphans([t] + s, refs) == (if more then [] else [t]) + Orphans(s, refs)
  {
    assert ([t] + s)[1..] == s;
  }

  /** No thread is on a dead list and in the tree. */
  ghost predicate OffTree(dead: seq<ThreadNode>, nodes: set<ThreadNode>) {
    forall k: Seal :: AreOff(k, dead, nodes)
  }

  ghost predicate AreOff(k: Seal, dead: seq<ThreadNode>, nodes: set<ThreadNode>) {
    forall n :: n in dead ==> n !in nodes
  }

  lemma OffTreeLink(dead: seq<ThreadNode>, nodes: set<ThreadNode>, n: ThreadNode)
    requires OffTree(dead, nodes) && n !in dead
    ensures OffTree(dead, nodes + {n})
  {
    assert AreOff(Seal, dead, nodes);
  }

  lemma OffTreeRemove(dead: seq<ThreadNode>, nodes: set<ThreadNode>, n: ThreadNode)
    requires OffTree(dead, nodes) && n in nodes
    ensures OffTree(dead, nodes - {n}) && OffTree(dead + [n], nodes - {n}) && n !in dead
  {
    assert AreOff(Seal, dead, nodes);
  }

  /** Cache, counter and dead list agree with the nodes of the tree. */
  ghost predicate Books(last: Node?<Thread, ()>, nr: nat, dead: seq<ThreadNode>, nodes: set<ThreadNode>,
                        pending: set<ThreadNode>) {
    (last != null ==> last in nodes) && Tally(nr, nodes, pending) && OffTree(dead, nodes)
  }

  lemma BooksRemove(last: Node?<Thread, ()>, nr: nat, dead: seq<ThreadNode>, nodes: set<ThreadNode>, th: ThreadNode)
    requires Books(last, nr, dead, nodes, {}) && th in nodes
    ensures nr > 0 && th !in dead && OffTree(dead, nodes - {th})
    ensures Books(if last == th then null else last, nr - 1, dead + [th], nodes - {th}, {})
  {
    TallyRemove(nr, nodes, th);
    OffTreeRemove(dead, nodes, th);
  }

  /** One bucket; `slot` is its place in the table. */
  class Threads {
    ghost const slot: nat
    const entries: Root<Thread, ()>
    var nr: nat
    var lastMatch: Node?<Thread, ()>
    var dead: seq<ThreadNode>
    /** The threads passed to thread__delete. */
    ghost var freed: seq<ThreadNode>

    constructor (ghost slot: nat)
      ensures this.slot == slot && Ok({}) && fresh(entries) && entries.nodes == {} && lastMatch == null && dead == []
        && freed == []
    {
      this.slot := slot;
      entries := new Root(Plain());
      nr, lastMatch, dead, freed := 0, null, [], [];
      assert Counts(Seal, 0, {}, {});
    }

    /** `pending` are threads that are linked but not yet counted. */
    ghost predicate Ok(pending: set<ThreadNode>)
      reads this, entries, entries.nodes
    {
      forall k: Seal :: Sound(k, pending)
    }

    ghost predicate Sound(k: Seal, pending: set<ThreadNode>)
      reads this, entries, entries.nodes
    {
      entries.Valid() && Tids(entries.Seq(), slot) && Books(lastMatch, nr, dead, entries.nodes, pending)
    }

    /** The lookup of ____machine__findnew_thread (src/machine.c:201-225): the cache, then the tree. */
    method Find(tid: Pid, ghost pending: set<ThreadNode>)
      returns (n: Node?<Thread, ()>, parent: Node?<Thread, ()>, left: bool, ghost c: Ctx<ThreadNode>)
      requires Ok(pending)
      modifies this`lastMatch
      ensures Ok(pending) && lastMatch == n
      ensures n != null ==> n in entries.nodes && n.entry.tid == tid
      ensures n == null <==> !Present(entries.nodes, tid)
      ensures n == null ==> entries.tree == Plug(c, Nil) && Ref(parent) == Parent(c) && (c.In? ==> left == c.side.Left?)
      ensures n == null ==> entries.Seq() == Before(c) + After(c) && Between(c, Rights(tid), Lefts(tid))
    {
      assert Sound(Seal, pending);
      parent, left, c := null, false, Top;
      n := lastMatch;
      if n != null {
        if n.entry.tid == tid {
          return;
        }
        lastMatch := null;
      }
      assert TidOrder(Seal, entries.Seq(), slot);
      n, parent, left, c := Descend(tid);
      if n != null {
        lastMatch := n;
      }
      assert Sound(Seal, pending);
    }

    /** The tree part of the lookup (src/machine.c:211-225). */
    method Descend(tid: Pid)
      returns (n: Node?<Thread, ()>, parent: Node?<Thread, ()>, left: bool, ghost c: Ctx<ThreadNode>)
      requires entries.Valid() && Ordered(entries.Seq(), TidLess)
      ensures entries.Valid()
      ensures n != null ==> n in entries.nodes && n.entry.tid == tid
      ensures n == null <==> !Present(entries.nodes, tid)
      ensures n == null ==> entries.tree == Plug(c, Nil) && Ref(parent) == Parent(c) && (c.In? ==> left == c.side.Left?)
      ensures n == null ==> entries.Seq() == Before(c) + After(c) && Between(c, Rights(tid), Lefts(tid))
    {
      TidSides(entries.Seq(), tid);
      ghost var t := entries.tree;
      c := Top;
      See(entries, c, t);
      n, parent, left := entries.rb_node, null, false;
      while n != null
        invariant entries.Valid() && entries.tree == Plug(c, t) && Ref(n) == Ptr(t)
        invariant Ref(parent) == Parent(c) && (c.In? ==> left == c.side.Left?)
        invariant Between(c, Rights(tid), Lefts(tid)) && Prefix(entries.Seq(), Rights(tid))
          && Suffix(entries.Seq(), Lefts(tid))
        decreases t
      {
        See(entries, c, t);
        Member(c, t);
        parent := n;
        if n.entry.tid == tid {
          return;
        }
        if tid < n.entry.tid {
          GoLeft(c, t, Rights(tid), Lefts(tid));
          c, t := In(Left, t.n, t.red, t.right, c), t.left;
          n, left := n.left, true;
        } else {
          GoRight(c, t, Rights(tid), Lefts(tid));
          c, t := In(Right, t.n, t.red, t.left, c), t.right;
          n, left := n.right, false;
        }
      }
      Bottom(c, Rights(tid), Lefts(tid));
      NotPresent(entries.tree, tid);
    }

    /** The tree part of linking a thread. */
    method LinkEntry(node: ThreadNode, parent: Node?<Thread, ()>, left: bool, ghost c: Ctx<ThreadNode>)
      requires entries.Valid() && Tids(entries.Seq(), slot) && Hash(node.entry.tid) == slot && node !in entries.nodes
      requires entries.tree == Plug(c, Nil) && Ref(parent) == Parent(c) && (c.In? ==> left == c.side.Left?)
      requires entries.Seq() == Before(c) + After(c) && Between(c, Rights(node.entry.tid), Lefts(node.entry.tid))
      modifies entries, node, entries.nodes
      ensures entries.Valid() && Tids(entries.Seq(), slot) && entries.nodes == old(entries.nodes) + {node}
    {
      TidsInsert(Before(c), node, After(c), slot);
      LinkInsert(entries, node, parent, left, c);
    }

    /** Linking a new thread (src/machine.c:233-234); it is counted later. */
    method Link(node: ThreadNode, parent: Node?<Thread, ()>, left: bool, ghost c: Ctx<ThreadNode>,
                ghost pending: set<ThreadNode>)
      requires Ok(pending) && Hash(node.entry.tid) == slot && node !in entries.nodes && node !in dead
      requires entries.tree == Plug(c, Nil) && Ref(parent) == Parent(c) && (c.In? ==> left == c.side.Left?)
      requires entries.Seq() == Before(c) + After(c) && Between(c, Rights(node.entry.tid), Lefts(node.entry.tid))
      modifies entries, node, entries.nodes
      ensures Ok(pending + {node}) && entries.nodes == old(entries.nodes) + {node}
    {
      assert Sound(Seal, pending);
      TallyLink(nr, entries.nodes, pending, node);
      OffTreeLink(dead, entries.nodes, node);
      LinkEntry(node, parent, left, c);
      assert Sound(Seal, pending + {node});
    }

    /** The end of a creation (src/machine.c:255-256). */
    method Count(node: ThreadNode, ghost pending: set<ThreadNode>)
      requires Ok(pending + {node}) && node in entries.nodes && node !in pending
      modifies this`lastMatch, this`nr
      ensures Ok(pending) && lastMatch == node
    {
      assert Sound(Seal, pending + {node});
      TallyCount(nr, entries.nodes, pending, node);
      lastMatch := node;
      nr := nr + 1;
      assert Sound(Seal, pending);
    }
  
    /** A pending thread of another bucket makes no difference. */
    lemma Widen(pending: set<ThreadNode>, node: ThreadNode)
      requires Ok(pending) && node !in entries.nodes
      ensures Ok(pending + {node})
    {
      assert Sound(Seal, pending);
      TallyLink(nr, entries.nodes, pending, node);
      assert Sound(Seal, pending + {node});
    }
  
    lemma Narrow(pending: set<ThreadNode>, node: ThreadNode)
      requires Ok(pending + {node}) && node !in entries.nodes
      ensures Ok(pending)
    {
      assert Sound(Seal, pending + {node});
      TallyLink(nr, entries.nodes, pending, node);
      assert Sound(Seal, pending);
    }
  
    lemma Counted()
      requires Ok({})
      ensures nr == |entries.Seq()| && (lastMatch != null ==> lastMatch in entries.nodes)
      ensures entries.Valid() && Tids(entries.Seq(), slot)
      ensures forall i, j :: 0 <= i < j < |entries.Seq()| ==> entries.Seq()[i].entry.tid < entries.Seq()[j].entry.tid
      ensures forall n :: n in entries.Seq() ==> n.entry.tid % 256 == slot
    {
      assert Sound(Seal, {});
      assert TidOrder(Seal, entries.Seq(), slot);
      forall i, j | 0 <= i < j < |entries.Seq()| ensures entries.Seq()[i].entry.tid < entries.Seq()[j].entry.tid {
        assert TidLess(entries.Seq()[i], entries.Seq()[j]);
      }
      forall n | n in entries.Seq() ensures n.entry.tid % 256 == slot { HashIs(n.entry.tid); }
      ShapedDistinct(entries);
      InorderSize(entries.tree);
      assert Counts(Seal, nr, entries.nodes, {}) && entries.nodes - {} == entries.nodes;
    }
  
    /** The erasure in __machine__remove_thread (src/machine.c:73-74). */
    method Unlink(th: ThreadNode)
      requires entries.Valid() && Tids(entries.Seq(), slot) && th in entries.nodes
      modifies entries, entries.nodes
      ensures entries.Valid() && Tids(entries.Seq(), slot)
      ensures entries.nodes == old(entries.nodes) - {th} && Removed(old(entries.Seq()), th, entries.Seq())
    {
      ghost var s := entries.Seq();
      EraseInit(entries, th);
      TidsRemove(s, th, entries.Seq(), slot);
    }

    /** __machine__remove_thread (src/machine.c:62-83), before the tree's reference is dropped. */
    method Bury(th: ThreadNode)
      requires Ok({}) && th in entries.nodes
      modifies this, entries, entries.nodes
      ensures Ok({}) && entries.nodes == old(entries.nodes) - {th} && Removed(old(entries.Seq()), th, entries.Seq())
      ensures dead == old(dead) + [th] && th !in old(dead)
        && lastMatch == (if old(lastMatch) == th then null else old(lastMatch))
      ensures freed == old(freed) && OffTree(old(dead), entries.nodes)
    {
      assert Sound(Seal, {});
      BooksRemove(lastMatch, nr, dead, entries.nodes, th);
      if lastMatch == th {
        lastMatch := null;
      }
      Unlink(th);
      nr := nr - 1;
      dead := dead + [th];
      assert Sound(Seal, {});
    }

    /** thread__put (src/thread.c:50-63) on a thread in no tree: at zero it leaves the dead list and is deleted. */
    method Put(th: ThreadNode)
      requires th !in entries.nodes && th.entry.refcnt > 0
      modifies this`dead, this`freed, th.entry`refcnt
      ensures th.entry.refcnt == old(th.entry.refcnt) - 1
      ensures th.entry.refcnt > 0 ==> dead == old(dead) && freed == old(freed)
      ensures th.entry.refcnt == 0 ==> dead == Drop(old(dead), th) && freed == old(freed) + [th]
    {
      th.entry.refcnt := th.entry.refcnt - 1;
      if th.entry.refcnt == 0 {
        dead := Drop(dead, th);
        freed := freed + [th];
      }
    }

    /** __machine__remove_thread (src/machine.c:62-85): the thread stays on the dead list iff somebody holds it. */
    method Remove(th: ThreadNode)
      requires Ok({}) && th in entries.nodes && th.entry.refcnt > 0
      modifies this, entries, entries.nodes, th.entry`refcnt
      ensures Ok({}) && entries.nodes == old(entries.nodes) - {th} && Removed(old(entries.Seq()), th, entries.Seq())
      ensures lastMatch == (if old(lastMatch) == th then null else old(lastMatch))
        && th.entry.refcnt == old(th.entry.refcnt) - 1
      ensures dead == old(dead) + (if th.entry.refcnt > 0 then [th] else [])
      ensures freed == old(freed) + (if th.entry.refcnt > 0 then [] else [th])
    {
      Bury(th);
      assert Sound(Seal, {});
      DropLast(old(dead), th);
      Put(th);
      assert Sound(Seal, {});
    }

    /** One round of the loop (src/machine.c:96-101). */
    method RemoveFirst(t: ThreadNode) returns (nd: Node?<Thread, ()>)
      requires Ok({}) && AtFirst(entries.Seq(), t) && t.entry.refcnt > 0
      modifies this, entries, entries.nodes, t.entry`refcnt
      ensures Ok({}) && t in old(entries.nodes) && entries.nodes == old(entries.nodes) - {t}
      ensures old(entries.Seq()) == [t] + entries.Seq() && AtFirst(entries.Seq(), nd)
      ensures t.entry.refcnt == old(t.entry.refcnt) - 1
      ensures dead == old(dead) + (if t.entry.refcnt > 0 then [t] else [])
      ensures freed == old(freed) + (if t.entry.refcnt > 0 then [] else [t])
    {
      assert Sound(Seal, {});
      ShapedDistinct(entries);
      InorderNodes(entries.tree);
      ghost var was := entries.tree;
      nd := Next(entries, t);
      Remove(t);
      FirstRemoved(was, t, nd, entries.Seq());
    }

    /**
     The loop of machine__delete_threads over one bucket (src/machine.c:95-101): the threads
     somebody still holds end up on the dead list, all others are deleted, in tid order.
     */
    method Drain(ghost refs: map<Pid, nat>)
      requires Ok({}) && Tallied(entries.nodes, refs)
      modifies this, entries, entries.nodes, (set n | n in entries.nodes :: n.entry)`refcnt
      ensures Ok({}) && entries.nodes == {} && nr == 0 && lastMatch == null
      ensures dead == old(dead) + Survivors(old(entries.Seq()), refs)
      ensures freed == old(freed) + Orphans(old(entries.Seq()), refs)
    {
      ghost var d, f := dead, freed;
      assert entries.Valid() by { assert Sound(Seal, {}); }
      var nd := First(entries);
      while nd != null
        invariant Ok({}) && entries.nodes <= old(entries.nodes) && AtFirst(entries.Seq(), nd)
          && Tallied(entries.nodes, refs)
        invariant Split(old(dead) + Survivors(old(entries.Seq()), refs), dead, Survivors(entries.Seq(), refs))
        invariant Split(old(freed) + Orphans(old(entries.Seq()), refs), freed, Orphans(entries.Seq(), refs))
        decreases |entries.nodes|
      {
        var t: ThreadNode := nd;
        nd := DrainFirst(t, refs);
      }
      Emptied();
    }

    method DrainFirst(t: ThreadNode, ghost refs: map<Pid, nat>) returns (nd: Node?<Thread, ()>)
      requires Ok({}) && AtFirst(entries.Seq(), t) && Tallied(entries.nodes, refs)
      modifies this, entries, entries.nodes, (set n | n in entries.nodes :: n.entry)`refcnt
      ensures Ok({}) && t in old(entries.nodes) && entries.nodes == old(entries.nodes) - {t}
        && AtFirst(entries.Seq(), nd)
      ensures Tallied(entries.nodes, refs)
      ensures dead + Survivors(entries.Seq(), refs) == old(dead) + Survivors(old(entries.Seq()), refs)
      ensures freed + Orphans(entries.Seq(), refs) == old(freed) + Orphans(old(entries.Seq()), refs)
    {
      ghost var s, nodes := entries.Seq(), entries.nodes;
      FirstIn(t);
      EntriesDiffer(t);
      TalliedSub(nodes, nodes - {t}, refs);
      assert AreTallied(Seal, nodes, refs);
      ghost var more := t.entry.refcnt > 1;
      nd := RemoveFirst(t);
      SplitFirst(t, entries.Seq(), refs, more);
      assert dead == old(dead) + (if more then [t] else []) && freed == old(freed) + (if more then [] else [t]);
    }

    /** The first thread is in the tree. */
    lemma FirstIn(t: ThreadNode)
      requires Ok({}) && AtFirst(entries.Seq(), t)
      ensures t in entries.nodes
    {
      assert Sound(Seal, {});
      InorderNodes(entries.tree);
    }

    /** Different nodes of a bucket belong to different threads. */
    lemma EntriesDiffer(t: ThreadNode)
      requires Ok({}) && t in entries.nodes
      ensures forall n :: n in entries.nodes && n != t ==> n.entry != t.entry
    {
      assert Sound(Seal, {});
      assert TidOrder(Seal, entries.Seq(), slot);
      InorderNodes(entries.tree);
      var s := entries.Seq();
      var i :| 0 <= i < |s| && s[i] == t;
      forall n | n in entries.nodes && n != t ensures n.entry != t.entry {
        var j :| 0 <= j < |s| && s[j] == n;
        if i < j { assert TidLess(s[i], s[j]); } else { assert TidLess(s[j], s[i]); }
      }
    }

    /** All threads of the bucket hash to it. */
    lemma HashAll()
      requires Ok({})
      ensures forall n :: n in entries.nodes ==> Hash(n.entry.tid) == slot
    {
      assert Sound(Seal, {});
      assert TidOrder(Seal, entries.Seq(), slot);
      InorderNodes(entries.tree);
    }

    lemma Emptied()
      requires Ok({}) && AtFirst(entries.Seq(), null)
      ensures entries.nodes == {} && nr == 0 && lastMatch == null && entries.Seq() == []
    {
      assert Sound(Seal, {});
      InorderNodes(entries.tree);
      assert entries.nodes == {};
      assert Counts(Seal, nr, entries.nodes, {});
    }
  }

  lemma TidsRemove(s: seq<ThreadNode>, n: ThreadNode, t: seq<ThreadNode>, slot: nat)
    requires Tids(s, slot) && Removed(s, n, t)
    ensures Tids(t, slot)
  {
    assert TidOrder(Seal, s, slot);
    OrderedRemove(s, n, t, TidLess);
    var i :| 0 <= i < |s| && s[i] == n && t == s[..i] + s[i + 1..];
    forall j | 0 <= j < |t| ensures Hash(t[j].entry.tid) == slot { assert t[j] == s[if j < i then j else j + 1]; }
  }
}

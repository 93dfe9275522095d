/**
 The machine: the table of buckets, and the creation of threads with their leaders
 (src/machine.c:187-280, src/thread.c:65-80), for runs in which every tid is always
 presented with the same tgid.
 */
module Machine {
  import opened RbTrees
  import opened RbLinks
  import opened RbHeap
  import opened RbSearch
  import opened Registry
  import Maps

  /** What is known of a registered thread; no address space yet while its creation is under way. */
  datatype Info = Info(tgid: Pid, maps: Option<Maps.AddressSpace>)

  /** `group` assigns to every tid its tgid; leaders lead themselves. */
  ghost predicate Grouping(group: Pid -> Pid) {
    forall p: Pid :: group(group(p)) == group(p)
  }

  /** Every registered thread's leader is registered, and they share their address space with the group alone. */
  ghost predicate Shared(info: map<Pid, Info>, group: Pid -> Pid) {
    && (forall t :: t in info ==> info[t].tgid == group(t))
    && (forall t :: t in info && info[t].maps.Some? ==> group(t) in info && info[group(t)].maps == info[t].maps)
    && (forall t, u :: t in info && u in info && info[t].maps.Some? && info[t].maps == info[u].maps ==>
       group(t) == group(u))
  }

  /** The nodes of bucket `i` are the registered threads that hash to it. */
  ghost predicate Matches(index: map<Pid, ThreadNode>, i: nat, nodes: set<ThreadNode>) {
    && (forall t :: t in index && Hash(t) == i ==> index[t] in nodes && index[t].entry.tid == t)
    && (forall n :: n in nodes ==> Hash(n.entry.tid) == i && n.entry.tid in index && index[n.entry.tid] == n)
  }

  /** All nodes of all buckets are the registered threads, each in the bucket it hashes to. */
  ghost predicate Spread(index: map<Pid, ThreadNode>, nodes: map<nat, set<ThreadNode>>) {
    (forall i: nat :: i in nodes <==> i < BUCKETS) && forall i: nat :: i in nodes ==> Matches(index, i, nodes[i])
  }

  lemma SpreadApart(index: map<Pid, ThreadNode>, nodes: map<nat, set<ThreadNode>>, i: nat, j: nat)
    requires Spread(index, nodes) && i < BUCKETS && j < BUCKETS && i != j
    ensures nodes[i] !! nodes[j]
  {
    assert Matches(index, i, nodes[i]) && Matches(index, j, nodes[j]);
  }

  lemma SpreadAdd(index: map<Pid, ThreadNode>, nodes: map<nat, set<ThreadNode>>, th: ThreadNode)
    requires Spread(index, nodes) && th.entry.tid !in index
    ensures var h := Hash(th.entry.tid); Spread(index[th.entry.tid := th], nodes[h := nodes[h] + {th}])
    ensures forall i :: 0 <= i < BUCKETS ==> th !in nodes[i]
  {
    var tid, h := th.entry.tid, Hash(th.entry.tid);
    var index', nodes' := index[tid := th], nodes[h := nodes[h] + {th}];
    forall i | 0 <= i < BUCKETS ensures Matches(index', i, nodes'[i]) && th !in nodes[i] {
      assert Matches(index, i, nodes[i]);
    }
  }

  /** The threads whose creation is under way have no address space yet. */
  ghost predicate Under(index: map<Pid, ThreadNode>, info: map<Pid, Info>, pending: set<ThreadNode>) {
    && info.Keys == index.Keys
    && (forall t :: t in index ==> index[t].entry.tid == t && (info[t].maps.None? <==> index[t] in pending))
    && (forall n :: n in pending ==> n.entry.tid in index && index[n.entry.tid] == n)
  }

  /** Everything about a table that does not concern the heap; folded until it is needed. */
  ghost predicate Good(w: World, pending: set<ThreadNode>) {
    forall k: Seal :: Consistent(k, w, pending)
  }

  ghost predicate Consistent(k: Seal, w: World, pending: set<ThreadNode>) {
    && Grouping(w.group) && Spread(w.index, w.sets) && Under(w.index, w.info, pending) && Shared(w.info, w.group)
    && forall t :: t in w.index ==> w.index[t].entry in w.repr
  }

  ghost function InfoOf(t: Thread): Info
    reads t`tgid, t`maps
  {
    Info(t.tgid, if t.maps == null then None else Some(t.maps))
  }

  /** `info` is what the thread objects say. */
  ghost predicate Recorded(index: map<Pid, ThreadNode>, info: map<Pid, Info>)
    reads (set t | t in index :: index[t].entry)`tgid, (set t | t in index :: index[t].entry)`maps
  {
    forall k: Seal :: Records(k, index, info)
  }

  ghost predicate Records(k: Seal, index: map<Pid, ThreadNode>, info: map<Pid, Info>)
    reads (set t | t in index :: index[t].entry)`tgid, (set t | t in index :: index[t].entry)`maps
  {
    forall t :: t in index ==> t in info && InfoOf(index[t].entry) == info[t]
  }

  lemma RecordAdd(index: map<Pid, ThreadNode>, info: map<Pid, Info>, tid: Pid, th: ThreadNode)
    requires Recorded(index, info)
    ensures Recorded(index[tid := th], info[tid := InfoOf(th.entry)])
  {
    assert Records(Seal, index, info);
  }

  /**
   What the objects of a table stand for: the plain map from tids to threads, the buckets'
   contents, what is known of each thread, and the objects in use.
   */
  datatype World = World(group: Pid -> Pid, index: map<Pid, ThreadNode>, sets: map<nat, set<ThreadNode>>,
                         info: map<Pid, Info>, repr: set<object>)

  ghost predicate Fixed(threads: seq<Threads>) {
    && |threads| == BUCKETS
    && (forall i :: 0 <= i < BUCKETS ==> threads[i].slot == i)
    && (forall i, j :: 0 <= i < j < BUCKETS ==> threads[i].entries != threads[j].entries)
  }

  class Table {
    const threads: seq<Threads>
    ghost var w: World
    /** The reference counts, by tid. */
    ghost var refs: map<Pid, nat>

    /** machine__init (src/machine.c:137-142) and machine__threads_init (src/machine.c:43-53). */
    constructor (ghost group: Pid -> Pid)
      requires Grouping(group)
      ensures Valid({}) && w.group == group && w.index == map[] && fresh(w.repr) && |threads| == 256
    {
      var bs: seq<Threads> := [];
      ghost var objects: set<object> := {};
      ghost var sets: map<nat, set<ThreadNode>> := map[];
      for i := 0 to BUCKETS
        invariant |bs| == i && fresh(objects)
        invariant forall j :: 0 <= j < i ==> EmptyBucket(bs[j], j) && bs[j] in objects && bs[j].entries in objects
        invariant forall j: nat :: (j in sets <==> j < i) && (j in sets ==> sets[j] == {})
        invariant forall j, k :: 0 <= j < k < i ==> bs[j].entries != bs[k].entries
      {
        var b := new Threads(i);
        bs := bs + [b];
        objects := objects + {b, b.entries};
        sets := sets[i := {}];
      }
      threads := bs;
      w := World(group, map[], sets, map[], objects);
      refs := map[];
      new;
      forall i | 0 <= i < BUCKETS ensures Bucket(threads[i], {}) { assert EmptyBucket(bs[i], i); }
    }

    /** machine__threads (src/machine.c:55-60). */
    function Of(tid: Pid): Threads
      requires |threads| == BUCKETS
    {
      threads[Hash(tid)]
    }

    /** Each bucket is sound. */
    ghost predicate Buckets(pending: set<ThreadNode>)
      reads this`w, w.repr
    {
      |threads| == BUCKETS && forall k: Seal :: AllSound(k, pending)
    }

    ghost predicate AllSound(k: Seal, pending: set<ThreadNode>)
      reads this`w, w.repr
    {
      Fixed(threads) && forall i :: 0 <= i < BUCKETS ==> Bucket(threads[i], pending)
    }

    ghost predicate Bucket(b: Threads, pending: set<ThreadNode>)
      reads this`w, w.repr
    {
      && b in w.repr && b.entries in w.repr && b.entries.nodes <= w.repr && b.Ok(pending)
      && b.slot in w.sets && w.sets[b.slot] == b.entries.nodes && Inside(b.dead, w.repr)
    }

    /** `pending` are the threads whose creation is under way. */
    ghost predicate Valid(pending: set<ThreadNode>)
      reads this, w.repr, set t | t in w.index :: w.index[t].entry
    {
      Buckets(pending) && Account(w, refs, pending)
    }

    lemma Open(pending: set<ThreadNode>)
      requires Valid(pending)
      ensures Recorded(w.index, w.info) && Good(w, pending) && Tallies(w.index, refs)
    {
      assert Accounts(Seal, w, refs, pending);
    }

    /** thread__get (src/thread.c:40-48). */
    method Hold(th: ThreadNode, ghost pending: set<ThreadNode>)
      requires Valid(pending) && At(w, th)
      modifies this`refs, th.entry`refcnt
      ensures Valid(pending) && th.entry.tid in old(refs)
        && refs == old(refs)[th.entry.tid := old(refs)[th.entry.tid] + 1]
    {
      Open(pending);
      GoodKeyed(w, pending);
      assert TalliesAll(Seal, w.index, refs) && AreTallied(Seal, Registered(w.index), refs);
      Recount(th, th.entry.refcnt + 1, pending);
    }

    /** thread__put (src/thread.c:50-63) of a reference that is not the last. */
    method Release(th: ThreadNode, ghost pending: set<ThreadNode>)
      requires Valid(pending) && At(w, th) && th.entry.tid in refs && refs[th.entry.tid] > 1
      modifies this`refs, th.entry`refcnt
      ensures Valid(pending) && refs == old(refs)[th.entry.tid := old(refs)[th.entry.tid] - 1]
    {
      Open(pending);
      GoodKeyed(w, pending);
      assert TalliesAll(Seal, w.index, refs) && AreTallied(Seal, Registered(w.index), refs);
      Recount(th, th.entry.refcnt - 1, pending);
    }

    /** The leader's handle is returned (src/thread.c:75). */
    method PutLeader(leader: ThreadNode, ghost tgid: Pid, ghost tid: Pid, ghost a: map<Pid, nat>,
                     ghost pending: set<ThreadNode>)
      requires Valid(pending) && At(w, leader) && leader.entry.tid == tgid != tid
      requires Charges(a, refs, tgid, tgid) && (tgid in a ==> a[tgid] > 0)
      modifies this`refs, leader.entry`refcnt
      ensures Valid(pending) && Leads(a, refs, tgid, tid)
    {
      LeadFollow(a, refs, tgid, tid);
      Release(leader, pending);
    }

    /** The caller's reference to a new thread (src/machine.c:254). */
    method HoldNew(th: ThreadNode, ghost tgid: Pid, ghost a: map<Pid, nat>, ghost pending: set<ThreadNode>)
      requires Valid(pending) && At(w, th) && th.entry.tid !in a
        && Leads(a[th.entry.tid := 1], refs, tgid, th.entry.tid)
      modifies this`refs, th.entry`refcnt
      ensures Valid(pending) && Charges(a, refs, tgid, th.entry.tid)
    {
      ChargeMake(a, refs, tgid, th.entry.tid);
      Hold(th, pending);
    }

    /** A new count for one thread leaves everything else alone. */
    method Recount(th: ThreadNode, n: nat, ghost pending: set<ThreadNode>)
      requires Valid(pending) && At(w, th) && Keyed(w.index) && n > 0
      modifies this`refs, th.entry`refcnt
      ensures Valid(pending) && refs == old(refs)[th.entry.tid := n]
    {
      Open(pending);
      assert AllSound(Seal, pending) && TalliesAll(Seal, w.index, refs);
      SetCount(th, n, w.index, refs);
      refs := refs[th.entry.tid := n];
      forall i | 0 <= i < BUCKETS ensures Bucket(threads[i], pending) { assert old(Bucket(threads[i], pending)); }
      assert TalliesAll(Seal, w.index, refs);
      assert Accounts(Seal, w, refs, pending);
    }

    /** A registered thread whose creation has ended has an address space. */
    lemma SpaceKnown(tid: Pid, pending: set<ThreadNode>)
      requires Valid(pending) && tid in w.index && Idle(w, tid, pending)
      ensures tid in w.info && w.index[tid].entry.maps != null && w.info[tid].maps == Some(w.index[tid].entry.maps)
      ensures w.index[tid].entry.tid == tid && w.index[tid].entry in w.repr
    {
      Open(pending);
      Known(w, pending, tid);
      assert Records(Seal, w.index, w.info);
    }

    /** A registered thread has a count. */
    lemma Referenced(tid: Pid, pending: set<ThreadNode>)
      requires Valid(pending)
      ensures refs.Keys == w.index.Keys && (tid in w.index ==> tid in refs && refs[tid] > 0)
    {
      Open(pending);
      assert TalliesAll(Seal, w.index, refs) && AreTallied(Seal, Registered(w.index), refs);
      GoodKeyed(w, pending);
      if tid in w.index { assert w.index[tid] in Registered(w.index); }
    }

    /** Linking a new thread into its bucket does not touch the threads themselves. */
    method LinkBucket(b: Threads, th: ThreadNode, parent: Node?<Thread, ()>, left: bool, ghost c: Ctx<ThreadNode>,
                      ghost pending: set<ThreadNode>,
                      ghost x: World, ghost r: map<Pid, nat>, ghost p: set<ThreadNode>)
      requires b.Ok(pending) && b.slot == Hash(th.entry.tid) && th !in b.entries.nodes && th !in b.dead
      requires Hole(th.entry.tid, b, parent, left, c) && Account(x, r, p)
      modifies b.entries, b.entries.nodes, th
      ensures b.Ok(pending + {th}) && b.entries.nodes == old(b.entries.nodes) + {th} && Account(x, r, p)
    {
      b.Link(th, parent, left, c, pending);
    }

    /** Linking a new thread into its bucket. */
    method LinkAt(th: ThreadNode, parent: Node?<Thread, ()>, left: bool, ghost c: Ctx<ThreadNode>,
                  ghost pending: set<ThreadNode>)
      requires Buckets(pending) && Good(w, pending) && th.entry.tid !in w.index && th !in w.repr
      requires Hole(th.entry.tid, Of(th.entry.tid), parent, left, c)
      requires Account(Begun(w, th), refs[th.entry.tid := 1], pending + {th})
      modifies this, Of(th.entry.tid).entries, Of(th.entry.tid).entries.nodes, th
      ensures Valid(pending + {th}) && w == Begun(old(w), th) && refs == old(refs)[th.entry.tid := 1]
    {
      ghost var h := Hash(th.entry.tid);
      assert AllSound(Seal, pending);
      assert Bucket(threads[h], pending);
      Unlinked(w, pending, th, h);
      LinkBucket(threads[Hash(th.entry.tid)], th, parent, left, c, pending, Begun(w, th), refs[th.entry.tid := 1],
                 pending + {th});
      w, refs := Begun(w, th), refs[th.entry.tid := 1];
      forall i | 0 <= i < BUCKETS ensures Bucket(threads[i], pending + {th}) {
        if i != h {
          Unlinked(old(w), pending, th, i);
          BucketsApart(old(w), pending, i, h);
          assert old(Bucket(threads[i], pending));
          threads[i].Widen(pending, th);
        }
      }
    }

    /** The lookup in the bucket of `tid`, as if in the plain map `index`. */
    method FindAt(tid: Pid, ghost pending: set<ThreadNode>)
      returns (n: Node?<Thread, ()>, parent: Node?<Thread, ()>, left: bool, ghost c: Ctx<ThreadNode>)
      requires Buckets(pending) && Good(w, pending)
      modifies Of(tid)`lastMatch
      ensures Buckets(pending)
      ensures Ref(n) == (if tid in w.index then Some(w.index[tid]) else None) && Of(tid).lastMatch == n
      ensures n == null ==> Hole(tid, Of(tid), parent, left, c)
    {
      ghost var h := Hash(tid);
      assert AllSound(Seal, pending) && Bucket(threads[h], pending);
      Looked(w, pending, tid);
      n, parent, left, c := threads[Hash(tid)].Find(tid, pending);
      forall i | 0 <= i < BUCKETS ensures Bucket(threads[i], pending) {
        if i != h { assert old(Bucket(threads[i], pending)); }
      }
    }

    /** The end of a creation: the cache and the counter of the bucket. */
    method CountAt(th: ThreadNode, ghost pending: set<ThreadNode>)
      requires Buckets(pending + {th}) && Good(w, pending) && th.entry.tid in w.index && w.index[th.entry.tid] == th
        && th !in pending
      modifies Of(th.entry.tid)`lastMatch, Of(th.entry.tid)`nr
      ensures Buckets(pending) && Of(th.entry.tid).lastMatch == th
    {
      ghost var h := Hash(th.entry.tid);
      assert AllSound(Seal, pending + {th}) && Bucket(threads[h], pending + {th});
      Looked(w, pending, th.entry.tid);
      threads[Hash(th.entry.tid)].Count(th, pending);
      forall i | 0 <= i < BUCKETS ensures Bucket(threads[i], pending) {
        if i != h {
          assert old(Bucket(threads[i], pending + {th}));
          BucketsApart(w, pending, i, h);
          threads[i].Narrow(pending, th);
        }
      }
    }

    /** Creation up to the link (src/machine.c:230-234). */
    method Create(tgid: Pid, tid: Pid, parent: Node?<Thread, ()>, left: bool, ghost c: Ctx<ThreadNode>,
                  ghost pending: set<ThreadNode>)
      returns (th: ThreadNode)
      requires Valid(pending) && tid !in w.index && tgid == w.group(tid) && Hole(tid, Of(tid), parent, left, c)
      modifies this, Of(tid).entries, Of(tid).entries.nodes
      ensures Valid(pending + {th}) && fresh(th) && fresh(th.entry) && th !in pending && th.entry.tid == tid
        && At(w, th)
      ensures Extends(old(w), w) && fresh(w.repr - old(w.repr)) && Registers(old(w), w, {tid})
      ensures Idle(old(w), tgid, pending) && tgid != tid ==> Idle(w, tgid, pending)
      ensures refs == old(refs)[tid := 1]
    {
      var thread := new Thread(tgid, tid);
      th := new Node(thread, ());
      BegunAll(w, refs, pending, th, tgid);
      Open(pending);
      LinkAt(th, parent, left, c, pending);
    }

    /** Giving a thread its address space leaves the buckets alone. */
    method Equip(th: ThreadNode, m: Maps.AddressSpace, ghost pending: set<ThreadNode>)
      requires Buckets(pending + {th}) && Recorded(w.index, w.info) && Keyed(w.index) && At(w, th)
      requires th.entry.tid in w.info && w.info[th.entry.tid].tgid == w.group(th.entry.tid)
      modifies this`w, th.entry`maps
      ensures Buckets(pending + {th}) && Recorded(w.index, w.info) && w == Ended(old(w), th, m) && th.entry.maps == m
    {
      assert AllSound(Seal, pending + {th});
      SetMaps(th, m, w.index, w.info);
      w := Ended(w, th, m);
      forall i | 0 <= i < BUCKETS ensures Bucket(threads[i], pending + {th}) {
        assert old(Bucket(threads[i], pending + {th}));
      }
    }

    /** The end of thread__init_maps and of the creation (src/thread.c:70-74, src/machine.c:254-256). */
    method Finish(th: ThreadNode, m: Maps.AddressSpace, ghost pending: set<ThreadNode>)
      requires Valid(pending + {th}) && th !in pending && Joins(w, th, m)
      modifies this`w, th.entry`maps, Of(th.entry.tid)`lastMatch, Of(th.entry.tid)`nr
      ensures Valid(pending) && w == Ended(old(w), th, m) && Of(th.entry.tid).lastMatch == th && th.entry.maps == m
    {
      Open(pending + {th});
      EndedGood(w, pending, th, m);
      Equip(th, m, pending);
      CountAt(th, pending);
    }

    /**
     __machine__findnew_thread with ____machine__findnew_thread (src/machine.c:187-267).  A
     registered thread has the tgid it is asked for, so machine__update_thread_tgid returns
     at once.
     */
    method FindNew(tgid: Pid, tid: Pid, ghost pending: set<ThreadNode>) returns (th: ThreadNode, ghost depth: nat)
      requires Valid(pending) && tgid == w.group(tid) && Idle(w, tid, pending) && Idle(w, tgid, pending)
      modifies this, w.repr
      ensures Valid(pending) && Extends(old(w), w) && fresh(w.repr - old(w.repr))
      ensures Registers(old(w), w, {tid, tgid}) && tid in w.index && tgid in w.index
      ensures th == w.index[tid] && Of(tid).lastMatch == th && Idle(w, tid, pending)
      ensures tgid !in old(w.index) ==>
        th.entry.maps != null && fresh(th.entry.maps) && fresh(th.entry.maps.entries) && Unused(w.repr, th.entry.maps)
      ensures Charges(old(refs), refs, tgid, tid)
      ensures depth <= if tid == tgid then 1 else 2
      decreases if tid == tgid then 0 else 1, 3
    {
      InUse(tid, pending);
      Open(pending);
      var n, parent, left;
      ghost var c;
      n, parent, left, c := FindAt(tid, pending);
      depth := 1;
      if n != null {
        Known(w, pending, tid);
        Referenced(tid, pending);
        ChargeFound(refs, tgid, tid);
        RegistersSelf(w, {tid, tgid});
        th := n;
        Hold(th, pending);
        return;
      }
      th, depth := Make(tgid, tid, parent, left, c, pending);
    }

    /** The creation (src/machine.c:230-256). */
    method Make(tgid: Pid, tid: Pid, parent: Node?<Thread, ()>, left: bool, ghost c: Ctx<ThreadNode>,
                ghost pending: set<ThreadNode>)
      returns (th: ThreadNode, ghost depth: nat)
      requires Valid(pending) && tid !in w.index && tgid == w.group(tid) && Idle(w, tgid, pending)
      requires Hole(tid, Of(tid), parent, left, c)
      modifies this, w.repr
      ensures Valid(pending) && Extends(old(w), w) && fresh(w.repr - old(w.repr))
      ensures Registers(old(w), w, {tid, tgid}) && tgid in w.index && At(w, th) && th.entry.tid == tid && th !in pending
      ensures Of(tid).lastMatch == th && depth <= if tid == tgid then 1 else 2
      ensures tgid !in old(w.index) ==>
        th.entry.maps != null && fresh(th.entry.maps) && fresh(th.entry.maps.entries) && Unused(w.repr, th.entry.maps)
      ensures Charges(old(refs), refs, tgid, tid)
      decreases if tid == tgid then 0 else 1, 2
    {
      InUse(tid, pending);
      Referenced(tid, pending);
      var m;
      th, m, depth := Start(tgid, tid, parent, left, c, pending);
      Conclude(th, m, tgid, old(w), old(refs), pending);
    }

    /** The thread gets its address space, is counted and handed out (src/machine.c:251-256). */
    method Conclude(th: ThreadNode, m: Maps.AddressSpace, ghost tgid: Pid, ghost w0: World, ghost a: map<Pid, nat>,
                    ghost pending: set<ThreadNode>)
      requires Valid(pending + {th}) && th !in pending && Joins(w, th, m) && At(w, th)
      requires Extends(w0, w) && th.entry.tid !in w0.index && Registers(w0, w, {th.entry.tid, tgid}) && tgid in w.index
      requires th.entry.tid !in a && Leads(a[th.entry.tid := 1], refs, tgid, th.entry.tid)
      modifies this`w, this`refs, th.entry`maps, th.entry`refcnt
      modifies Of(th.entry.tid)`lastMatch, Of(th.entry.tid)`nr
      ensures Valid(pending) && Extends(w0, w) && Registers(w0, w, {th.entry.tid, tgid}) && tgid in w.index && At(w, th)
      ensures w.repr == old(w.repr) && Of(th.entry.tid).lastMatch == th && th.entry.maps == m
      ensures Charges(a, refs, tgid, th.entry.tid)
    {
      ghost var x := w;
      Finish(th, m, pending);
      EndedExtends(w0, x, th, m);
      RegistersEnded(w0, x, th, m, {th.entry.tid, tgid});
      HoldNew(th, tgid, a, pending);
    }

    /** The creation up to the point where the thread's address space is known (src/machine.c:230-244). */
    method Start(tgid: Pid, tid: Pid, parent: Node?<Thread, ()>, left: bool, ghost c: Ctx<ThreadNode>,
                 ghost pending: set<ThreadNode>)
      returns (th: ThreadNode, m: Maps.AddressSpace, ghost depth: nat)
      requires Valid(pending) && tid !in w.index && tgid == w.group(tid) && Idle(w, tgid, pending)
      requires Hole(tid, Of(tid), parent, left, c)
      modifies this, w.repr
      ensures Valid(pending + {th}) && Extends(old(w), w) && fresh(w.repr - old(w.repr)) && fresh(th.entry)
      ensures Registers(old(w), w, {tid, tgid}) && tgid in w.index && At(w, th) && th.entry.tid == tid && th !in pending
      ensures Joins(w, th, m) && depth <= if tid == tgid then 1 else 2
      ensures tgid !in old(w.index) ==> fresh(m) && fresh(m.entries) && Unused(w.repr, m)
      ensures Leads(old(refs)[tid := 1], refs, tgid, tid)
      decreases if tid == tgid then 0 else 1, 1
    {
      InUse(tid, pending);
      th := Create(tgid, tid, parent, left, c, pending);
      ghost var y := w;
      assert AreNew(Seal, old(w), y, {tid});
      m, depth := InitMaps(th, tgid, pending);
      ExtendsTwice(old(w), y, w);
      RegistersTwice(old(w), y, w, {tid}, {tgid});
      assert {tid} + {tgid} == {tid, tgid};
    }

    /** thread__init_maps (src/thread.c:65-80): the address space for a thread that is linked already. */
    method InitMaps(th: ThreadNode, tgid: Pid, ghost pending: set<ThreadNode>)
      returns (m: Maps.AddressSpace, ghost depth: nat)
      requires Valid(pending + {th}) && th !in pending && At(w, th) && tgid == w.group(th.entry.tid)
        && (tgid != th.entry.tid ==> Idle(w, tgid, pending))
      modifies this, w.repr
      ensures Valid(pending + {th}) && Extends(old(w), w) && fresh(w.repr - old(w.repr)) && At(w, th) && Joins(w, th, m)
      ensures Registers(old(w), w, {tgid}) && tgid in w.index
      ensures depth <= if th.entry.tid == tgid then 1 else 2
      ensures th.entry.tid == tgid || tgid !in old(w.index) ==> fresh(m) && fresh(m.entries) && Unused(w.repr, m)
      ensures Leads(old(refs), refs, tgid, th.entry.tid)
      decreases if th.entry.tid == tgid then 0 else 1, 0
    {
      Open(pending + {th});
      GroupOf(w, pending + {th}, th);
      if tgid == th.entry.tid {
        m := new Maps.AddressSpace();
        depth := 1;
        ExtendsSelf(w, pending + {th});
        LeadSelf(refs, tgid);
        RegistersSelf(w, {tgid});
      } else {
        m, depth := Follow(th, tgid, pending);
      }
    }

    /** The part for a thread that is not its own leader (src/thread.c:72-76): the leader's handle is returned. */
    method Follow(th: ThreadNode, tgid: Pid, ghost pending: set<ThreadNode>)
      returns (m: Maps.AddressSpace, ghost depth: nat)
      requires Valid(pending + {th}) && th !in pending && At(w, th) && tgid == w.group(th.entry.tid)
        && tgid != th.entry.tid
      requires Idle(w, tgid, pending + {th}) && w.group(tgid) == tgid
      modifies this, w.repr
      ensures Valid(pending + {th}) && Extends(old(w), w) && fresh(w.repr - old(w.repr)) && At(w, th) && Joins(w, th, m)
      ensures Registers(old(w), w, {tgid}) && tgid in w.index && depth <= 2
      ensures tgid !in old(w.index) ==> fresh(m) && fresh(m.entries) && Unused(w.repr, m)
      ensures Leads(old(refs), refs, tgid, th.entry.tid)
      decreases 0, 4
    {
      Referenced(tgid, pending + {th});
      var leader, d := FindNew(tgid, tgid, pending + {th});
      AtExtends(old(w), w, th);
      assert {tgid, tgid} == {tgid};
      SpaceKnown(tgid, pending + {th});
      m := leader.entry.maps;
      depth := d + 1;
      PutLeader(leader, tgid, th.entry.tid, old(refs), pending + {th});
    }

    /** machine__findnew_thread (src/machine.c:269-280). */
    method FindNewThread(tgid: Pid, tid: Pid) returns (th: ThreadNode, ghost depth: nat)
      requires Valid({}) && tgid == w.group(tid)
      modifies this, w.repr
      ensures Valid({}) && Extends(old(w), w) && fresh(w.repr - old(w.repr))
      ensures w.index.Keys == old(w.index.Keys) + {tid, tgid}
      ensures th == w.index[tid] && Of(tid).lastMatch == th && depth <= 2
      ensures tgid !in old(w.index) ==>
        th.entry.maps != null && fresh(th.entry.maps) && fresh(th.entry.maps.entries) && Unused(w.repr, th.entry.maps)
      ensures Charges(old(refs), refs, tgid, tid)
    {
      th, depth := FindNew(tgid, tid, {});
      assert AreNew(Seal, old(w), w, {tid, tgid});
    }

    /** What holds between operations, in terms of the objects themselves. */
    ghost predicate Agrees(x: World)
      reads this, w.repr, set t | t in x.index :: x.index[t].entry
    {
      && (forall t :: t in x.index ==> Settled(x, x.index[t].entry))
      && (forall t, u :: t in x.index && u in x.index ==>
         (x.index[t].entry.maps == x.index[u].entry.maps <==> x.group(t) == x.group(u)))
    }

    lemma Agreed()
      requires Valid({})
      ensures Agrees(w)
    {
      Open({});
      assert Consistent(Seal, w, {}) && Records(Seal, w.index, w.info);
      forall t | t in w.index
        ensures Settled(w, w.index[t].entry) && w.info[t] == InfoOf(w.index[t].entry) && w.info[t].maps.Some?
      {
        Known(w, {}, t);
        assert w.info[w.group(t)] == InfoOf(w.index[w.group(t)].entry);
      }
      forall t, u | t in w.index && u in w.index
        ensures w.index[t].entry.maps == w.index[u].entry.maps <==> w.group(t) == w.group(u)
      {
        Known(w, {}, t);
        Known(w, {}, u);
      }
    }

    /** The counter of a bucket is the size of its tree, and the cache holds a linked thread or none. */
    lemma BucketCounts(i: nat)
      requires Buckets({}) && i < BUCKETS
      ensures threads[i] in w.repr && threads[i].nr == |threads[i].entries.Seq()|
      ensures threads[i].lastMatch == null || threads[i].lastMatch in threads[i].entries.nodes
      ensures threads[i].entries.Valid() && Tids(threads[i].entries.Seq(), i)
      ensures var s := threads[i].entries.Seq();
        && (forall j, k :: 0 <= j < k < |s| ==> s[j].entry.tid < s[k].entry.tid)
        && (forall n :: n in s ==> n.entry.tid % 256 == i)
    {
      assert AllSound(Seal, {});
      assert Bucket(threads[i], {});
      threads[i].Counted();
    }

    /** Emptying one bucket leaves the others as they are. */
    method DrainAt(i: nat)
      requires Buckets({}) && i < BUCKETS && Apart(w.sets) && Tallied(threads[i].entries.nodes, refs)
      modifies this`w, threads[i], threads[i].entries, threads[i].entries.nodes
      modifies (set n | n in threads[i].entries.nodes :: n.entry)`refcnt
      ensures Buckets({}) && i in old(w).sets && w == old(w).(sets := old(w).sets[i := {}]) && Apart(w.sets)
      ensures Cleared(threads[i], old(PastOf(threads[i])), refs)
      ensures forall j :: 0 <= j < BUCKETS && j != i && old(Tallied(threads[j].entries.nodes, refs)) ==>
        Tallied(threads[j].entries.nodes, refs)
    {
      assert AllSound(Seal, {}) && Bucket(threads[i], {});
      forall j | 0 <= j < BUCKETS && j != i ensures ThreadsApart(threads[i].entries.nodes, threads[j].entries.nodes) {
        assert Bucket(threads[j], {});
        BucketThreads(threads[i], threads[j]);
      }
      SurvivorsInside(threads[i], refs, w.repr);
      threads[i].Drain(refs);
      w := w.(sets := w.sets[i := {}]);
      forall j | 0 <= j < BUCKETS ensures Bucket(threads[j], {}) {
        if j != i {
          assert old(Bucket(threads[j], {}));
          assert old(w).sets[j] !! old(w).sets[i];
        }
      }
      forall j | 0 <= j < BUCKETS && j != i && old(Tallied(threads[j].entries.nodes, refs))
        ensures Tallied(threads[j].entries.nodes, refs)
      {
        assert old(Bucket(threads[j], {})) && old(w).sets[j] !! old(w).sets[i];
        assert old(ThreadsApart(threads[i].entries.nodes, threads[j].entries.nodes));
      }
    }

    /**
     machine__delete_threads (src/machine.c:87-104): the threads that somebody still holds end
     up on the dead list of their bucket, all others are deleted, in tid order.
     */
    method DeleteThreads()
      requires Valid({})
      modifies this, w.repr
      ensures Valid({}) && w.index == map[] && w.group == old(w.group)
      ensures forall i :: 0 <= i < BUCKETS ==> Cleared(threads[i], old(PastOf(threads[i])), old(refs))
    {
      Open({});
      GoodApart(w, {});
      BucketTallies();
      ghost var before := Pasts();
      assert Progressed(Seal, 0, before);
      for i := 0 to BUCKETS
        invariant Buckets({}) && Apart(w.sets) && w.repr == old(w.repr) && w.group == old(w.group) && Grouping(w.group)
        invariant refs == old(refs) && |before| == BUCKETS && Progress(i, before)
      {
        DrainStep(i, before);
      }
      assert Progressed(Seal, BUCKETS, before);
      Forget();
    }

    ghost function Pasts(): (p: seq<Past>)
      requires |threads| == BUCKETS
      reads *
      ensures |p| == BUCKETS && forall i :: 0 <= i < BUCKETS ==> p[i] == PastOf(threads[i])
    {
      seq(BUCKETS, i requires 0 <= i < BUCKETS reads * => PastOf(threads[i]))
    }

    /** The first `i` buckets are cleared, and the others are as before. */
    ghost predicate Progress(i: nat, before: seq<Past>)
      reads *
    {
      forall k: Seal :: Progressed(k, i, before)
    }

    ghost predicate Progressed(k: Seal, i: nat, before: seq<Past>)
      reads *
    {
      && |threads| == BUCKETS == |before|
      && (forall j :: 0 <= j < i <= BUCKETS ==> Cleared(threads[j], before[j], refs))
      && (forall j :: 0 <= i <= j < BUCKETS ==> ToClear(threads[j], before[j]))
    }

    ghost predicate ToClear(b: Threads, p: Past)
      reads *
    {
      PastOf(b) == p && Tallied(b.entries.nodes, refs) && Owned(b)
    }

    method DrainStep(i: nat, ghost before: seq<Past>)
      requires Buckets({}) && Apart(w.sets) && i < BUCKETS == |before| && Progress(i, before)
      modifies this`w, w.repr
      ensures Buckets({}) && Apart(w.sets) && w == old(w).(sets := w.sets) && Progress(i + 1, before)
      ensures refs == old(refs)
    {
      assert AllSound(Seal, {}) && Progressed(Seal, i, before);
      assert Bucket(threads[i], {});
      DrainAt(i);
      assert Progressed(Seal, i + 1, before);
    }

    /** With all buckets empty no thread is registered. */
    ghost method Forget()
      requires Buckets({}) && Apart(w.sets) && Grouping(w.group)
        && (forall i :: 0 <= i < BUCKETS ==> threads[i].entries.nodes == {})
      modifies this
      ensures Valid({}) && w == old(w).(index := map[], info := map[]) && refs == map[]
    {
      assert AllSound(Seal, {});
      w := w.(index := map[], info := map[]);
      refs := map[];
      forall i | 0 <= i < BUCKETS ensures Bucket(threads[i], {}) && w.sets[i] == {} {
        assert old(Bucket(threads[i], {}));
      }
      assert Consistent(Seal, w, {});
      assert Records(Seal, w.index, w.info);
      assert TalliesAll(Seal, w.index, refs);
      assert Accounts(Seal, w, refs, {});
    }

    /** The threads of a bucket are among the objects in use. */
    ghost predicate Owned(b: Threads)
      reads this`w, b.entries
    {
      forall n :: n in b.entries.nodes ==> n.entry in w.repr
    }

    lemma BucketTallies()
      requires Valid({})
      ensures forall i :: 0 <= i < BUCKETS ==> Tallied(threads[i].entries.nodes, refs) && Owned(threads[i])
    {
      Open({});
      assert AllSound(Seal, {}) && Consistent(Seal, w, {}) && TalliesAll(Seal, w.index, refs);
      forall i | 0 <= i < BUCKETS ensures Tallied(threads[i].entries.nodes, refs) && Owned(threads[i]) {
        assert Bucket(threads[i], {}) && Matches(w.index, i, w.sets[i]);
        TalliedSub(Registered(w.index), threads[i].entries.nodes, refs);
      }
    }

    /** The objects of a bucket are among those in use. */
    lemma InUse(tid: Pid, pending: set<ThreadNode>)
      requires Buckets(pending)
      ensures Of(tid) in w.repr && Of(tid).entries in w.repr && Of(tid).entries.nodes <= w.repr
    {
      assert AllSound(Seal, pending);
      assert Bucket(threads[Hash(tid)], pending);
    }
  }

  ghost predicate Inside(dead: seq<ThreadNode>, repr: set<object>) {
    forall n :: n in dead ==> n in repr
  }

  ghost function Registered(index: map<Pid, ThreadNode>): set<ThreadNode> {
    set t | t in index :: index[t]
  }

  /** The counts after a creation of the leader, if it was missing: it keeps the tree's reference. */
  ghost function Led(refs: map<Pid, nat>, tgid: Pid, tid: Pid): map<Pid, nat> {
    if tid == tgid || tgid in refs then refs else refs[tgid := 1]
  }

  /** The counts after a request: one more for the thread, which starts with the tree's reference. */
  ghost function Charged(refs: map<Pid, nat>, tgid: Pid, tid: Pid): map<Pid, nat> {
    Led(refs, tgid, tid)[tid := if tid in refs then refs[tid] + 1 else 2]
  }

  /** `b` are the counts `Led` and `Charged` give for `a`; folded until it is needed. */
  ghost predicate Leads(a: map<Pid, nat>, b: map<Pid, nat>, tgid: Pid, tid: Pid) {
    forall k: Seal :: AreLed(k, a, b, tgid, tid)
  }

  ghost predicate AreLed(k: Seal, a: map<Pid, nat>, b: map<Pid, nat>, tgid: Pid, tid: Pid) {
    b == Led(a, tgid, tid)
  }

  ghost predicate Charges(a: map<Pid, nat>, b: map<Pid, nat>, tgid: Pid, tid: Pid) {
    forall k: Seal :: AreCharged(k, a, b, tgid, tid)
  }

  ghost predicate AreCharged(k: Seal, a: map<Pid, nat>, b: map<Pid, nat>, tgid: Pid, tid: Pid) {
    b == Charged(a, tgid, tid)
  }

  lemma LeadSelf(a: map<Pid, nat>, tid: Pid)
    ensures Leads(a, a, tid, tid)
  {
  }

  lemma ChargeFound(a: map<Pid, nat>, tgid: Pid, tid: Pid)
    requires tid in a && tgid in a
    ensures Charges(a, a[tid := a[tid] + 1], tgid, tid)
  {
  }

  /** A leader that is asked for and put again has the tree's reference, or what it had. */
  lemma LeadFollow(a: map<Pid, nat>, b: map<Pid, nat>, tgid: Pid, tid: Pid)
    requires Charges(a, b, tgid, tgid) && tgid != tid && (tgid in a ==> a[tgid] > 0)
    ensures tgid in b && b[tgid] > 1 && Leads(a, b[tgid := b[tgid] - 1], tgid, tid)
  {
    assert AreCharged(Seal, a, b, tgid, tgid);
    assert b[tgid := b[tgid] - 1] == Led(a, tgid, tid);
  }

  lemma ChargeMake(a: map<Pid, nat>, b: map<Pid, nat>, tgid: Pid, tid: Pid)
    requires tid !in a && Leads(a[tid := 1], b, tgid, tid)
    ensures tid in b && Charges(a, b[tid := b[tid] + 1], tgid, tid)
  {
    assert AreLed(Seal, a[tid := 1], b, tgid, tid);
    assert b[tid := b[tid] + 1] == Charged(a, tgid, tid);
  }

  /** Everything about the threads that does not concern the trees; folded until it is needed. */
  ghost predicate Account(w: World, refs: map<Pid, nat>, pending: set<ThreadNode>)
    reads set t | t in w.index :: w.index[t].entry
  {
    forall k: Seal :: Accounts(k, w, refs, pending)
  }

  ghost predicate Accounts(k: Seal, w: World, refs: map<Pid, nat>, pending: set<ThreadNode>)
    reads set t | t in w.index :: w.index[t].entry
  {
    Recorded(w.index, w.info) && Good(w, pending) && Tallies(w.index, refs)
  }

  /** The counts are those of the registered threads; folded until it is needed. */
  ghost predicate Tallies(index: map<Pid, ThreadNode>, refs: map<Pid, nat>)
    reads (set t | t in index :: index[t].entry)`refcnt
  {
    forall k: Seal :: TalliesAll(k, index, refs)
  }

  ghost predicate TalliesAll(k: Seal, index: map<Pid, ThreadNode>, refs: map<Pid, nat>)
    reads (set t | t in index :: index[t].entry)`refcnt
  {
    refs.Keys == index.Keys && Tallied(Registered(index), refs)
  }

  lemma TalliedNew(index: map<Pid, ThreadNode>, refs: map<Pid, nat>, th: ThreadNode)
    requires Tallies(index, refs) && th.entry.tid !in index && th.entry.refcnt == 1
    ensures Tallies(index[th.entry.tid := th], refs[th.entry.tid := 1])
  {
    assert TalliesAll(Seal, index, refs) && AreTallied(Seal, Registered(index), refs);
    var index', refs' := index[th.entry.tid := th], refs[th.entry.tid := 1];
    assert AreTallied(Seal, Registered(index'), refs');
    assert TalliesAll(Seal, index', refs');
  }

  /** What linking a new thread means for the account. */
  lemma BegunAll(w: World, refs: map<Pid, nat>, pending: set<ThreadNode>, th: ThreadNode, tgid: Pid)
    requires Account(w, refs, pending) && th.entry.tid !in w.index && th.entry.refcnt == 1
    requires InfoOf(th.entry) == Info(w.group(th.entry.tid), None)
    ensures Account(Begun(w, th), refs[th.entry.tid := 1], pending + {th}) && th !in pending && Extends(w, Begun(w, th))
    ensures At(Begun(w, th), th) && Registers(w, Begun(w, th), {th.entry.tid})
    ensures Idle(w, tgid, pending) && tgid != th.entry.tid ==> Idle(Begun(w, th), tgid, pending)
  {
    assert Accounts(Seal, w, refs, pending);
    BegunGood(w, pending, th);
    BegunExtends(w, pending, th);
    BegunIdle(w, pending, th, tgid);
    RecordAdd(w.index, w.info, th.entry.tid, th);
    TalliedNew(w.index, refs, th);
    assert Accounts(Seal, Begun(w, th), refs[th.entry.tid := 1], pending + {th});
  }

  /** Linking a thread does not put another one under creation. */
  lemma BegunIdle(w: World, pending: set<ThreadNode>, th: ThreadNode, tgid: Pid)
    requires Good(w, pending) && th.entry.tid !in w.index
    ensures At(Begun(w, th), th) && Registers(w, Begun(w, th), {th.entry.tid})
    ensures Idle(w, tgid, pending) && tgid != th.entry.tid ==> Idle(Begun(w, th), tgid, pending)
  {
  }

  lemma GoodKeyed(w: World, pending: set<ThreadNode>)
    requires Good(w, pending)
    ensures Keyed(w.index)
  {
    assert Consistent(Seal, w, pending);
  }

  lemma {:induction false} SurvivorsSub(s: seq<ThreadNode>, refs: map<Pid, nat>, repr: set<object>)
    requires Inside(s, repr)
    ensures Inside(Survivors(s, refs), repr)
  {
    if s != [] { SurvivorsSub(s[1..], refs, repr); }
  }

  lemma SurvivorsInside(b: Threads, refs: map<Pid, nat>, repr: set<object>)
    requires b.Ok({}) && b.entries.nodes <= repr
    ensures Inside(Survivors(b.entries.Seq(), refs), repr)
  {
    assert b.Sound(Seal, {});
    InorderNodes(b.entries.tree);
    SurvivorsSub(b.entries.Seq(), refs, repr);
  }

  /** No thread object belongs to nodes of both sets. */
  ghost predicate ThreadsApart(a: set<ThreadNode>, b: set<ThreadNode>) {
    forall m, n :: m in a && n in b ==> m.entry != n.entry
  }

  lemma BucketThreads(a: Threads, b: Threads)
    requires a.Ok({}) && b.Ok({}) && a.slot != b.slot
    ensures ThreadsApart(a.entries.nodes, b.entries.nodes)
  {
    a.HashAll();
    b.HashAll();
  }

  /** What a bucket held: its dead list, the deleted threads, and the threads of its tree in order. */
  datatype Past = Past(dead: seq<ThreadNode>, freed: seq<ThreadNode>, order: seq<ThreadNode>)

  ghost function PastOf(b: Threads): Past
    reads b, b.entries
  {
    Past(b.dead, b.freed, b.entries.Seq())
  }

  /** A bucket after teardown: the threads that are held are on the dead list, the others deleted. */
  ghost predicate Cleared(b: Threads, p: Past, refs: map<Pid, nat>)
    reads b, b.entries
  {
    && b.entries.nodes == {} && b.nr == 0 && b.lastMatch == null
    && b.dead == p.dead + Survivors(p.order, refs) && b.freed == p.freed + Orphans(p.order, refs)
  }

  ghost predicate Apart(sets: map<nat, set<ThreadNode>>) {
    (forall i: nat :: i in sets <==> i < BUCKETS) && forall i, j :: i in sets && j in sets && i != j ==>
      sets[i] !! sets[j]
  }

  lemma GoodApart(w: World, pending: set<ThreadNode>)
    requires Good(w, pending)
    ensures Apart(w.sets) && Grouping(w.group)
  {
    assert Consistent(Seal, w, pending);
    forall i, j | i in w.sets && j in w.sets && i != j ensures w.sets[i] !! w.sets[j] {
      BucketsApart(w, pending, i, j);
    }
  }

  ghost predicate Served(w: World, requests: seq<(Pid, Pid)>, ths: seq<ThreadNode>) {
    |ths| == |requests| && forall i :: 0 <= i < |ths| ==> requests[i].1 in w.index && w.index[requests[i].1] == ths[i]
  }

  lemma ServedMore(w: World, x: World, requests: seq<(Pid, Pid)>, k: nat, ths: seq<ThreadNode>, th: ThreadNode)
    requires k < |requests| && Served(w, requests[..k], ths) && Extends(w, x) && requests[k].1 in x.index
      && x.index[requests[k].1] == th
    ensures Served(x, requests[..k + 1], ths + [th])
  {
    assert Extension(Seal, w, x);
    forall i | 0 <= i <= k ensures var r := requests[..k + 1]; r[i].1 in x.index && x.index[r[i].1] == (ths + [th])[i] {
      if i < k { assert requests[..k][i] == requests[i]; }
    }
  }

  ghost predicate SameThread(requests: seq<(Pid, Pid)>, ths: seq<ThreadNode>) {
    |ths| == |requests| && forall i, j :: 0 <= i < |ths| && 0 <= j < |ths| ==>
      (ths[i] == ths[j] <==> requests[i].1 == requests[j].1)
  }

  lemma ServedSame(w: World, requests: seq<(Pid, Pid)>, ths: seq<ThreadNode>)
    requires Good(w, {}) && Served(w, requests, ths)
    ensures SameThread(requests, ths)
  {
    assert Consistent(Seal, w, {});
  }

  /**
   Every run of requests (tgid, tid) with a fixed grouping: the same tid always gives the
   same thread and different tids different ones, and all registered threads share their
   leader's address space and no other's.
   */
  method ServeAll(table: Table, requests: seq<(Pid, Pid)>) returns (ths: seq<ThreadNode>)
    requires table.Valid({})
    requires forall i :: 0 <= i < |requests| ==> requests[i].0 == table.w.group(requests[i].1)
    modifies table, table.w.repr
    ensures table.Valid({}) && Extends(old(table.w), table.w)
    ensures Served(table.w, requests, ths) && SameThread(requests, ths)
  {
    ths := [];
    table.Open({});
    ExtendsSelf(table.w, {});
    for k := 0 to |requests|
      invariant table.Valid({}) && Extends(old(table.w), table.w) && fresh(table.w.repr - old(table.w.repr))
      invariant Served(table.w, requests[..k], ths)
    {
      ghost var x := table.w;
      assert x.group == old(table.w.group);
      var th, depth := table.FindNewThread(requests[k].0, requests[k].1);
      ServedMore(x, table.w, requests, k, ths, th);
      ExtendsTwice(old(table.w), x, table.w);
      ths := ths + [th];
    }
    assert requests[..|requests|] == requests;
    table.Open({});
    ServedSame(table.w, requests, ths);
  }

  /** An address space that is still empty and has nothing in common with the table. */
  ghost predicate Unused(repr: set<object>, m: Maps.AddressSpace)
    reads m, m.entries, m.entries.nodes
  {
    forall k: Seal :: Untouched(k, repr, m)
  }

  ghost predicate Untouched(k: Seal, repr: set<object>, m: Maps.AddressSpace)
    reads m, m.entries, m.entries.nodes
  {
    m.Blank() && Outside(repr, m)
  }

  ghost predicate Outside(repr: set<object>, m: Maps.AddressSpace)
    reads m.entries
  {
    m !in repr && m.entries !in repr && m.entries.nodes !! repr
  }

  ghost predicate EmptyBucket(b: Threads, i: nat)
    reads b, b.entries, b.entries.nodes
  {
    b.slot == i && b.Ok({}) && b.entries.nodes == {} && b.dead == []
  }

  /** The thread's leader is registered and they share one address space. */
  ghost predicate Settled(w: World, t: Thread)
    reads set t | t in w.index :: w.index[t].entry
    reads t
  {
    t.maps != null && t.tgid == w.group(t.tid) && t.tgid in w.index && w.index[t.tgid].entry.maps == t.maps
  }

  /** `tid` is not under creation. */
  ghost predicate Idle(w: World, tid: Pid, pending: set<ThreadNode>) {
    tid in w.index ==> w.index[tid] !in pending
  }

  ghost predicate At(w: World, th: ThreadNode) {
    th.entry.tid in w.index && w.index[th.entry.tid] == th
  }

  /** Registered threads stay what they are. */
  ghost predicate Extends(w: World, x: World) {
    x.group == w.group && w.repr <= x.repr && forall k: Seal :: Extension(k, w, x)
  }

  ghost predicate Extension(k: Seal, w: World, x: World) {
    forall t :: t in w.index ==>
      t in x.index && x.index[t] == w.index[t] && t in w.info && t in x.info && x.info[t] == w.info[t]
  }

  /** Exactly the given tids may be new; folded until it is needed. */
  ghost predicate Registers(w: World, x: World, tids: set<Pid>) {
    forall k: Seal :: AreNew(k, w, x, tids)
  }

  ghost predicate AreNew(k: Seal, w: World, x: World, tids: set<Pid>) {
    x.index.Keys == w.index.Keys + tids
  }

  lemma RegistersSelf(w: World, tids: set<Pid>)
    requires forall t :: t in tids ==> t in w.index
    ensures Registers(w, w, tids)
  {
  }

  lemma RegistersTwice(w: World, x: World, y: World, a: set<Pid>, b: set<Pid>)
    requires Registers(w, x, a) && Registers(x, y, b)
    ensures Registers(w, y, a + b)
  {
    assert AreNew(Seal, w, x, a) && AreNew(Seal, x, y, b);
  }

  lemma RegistersEnded(w: World, x: World, th: ThreadNode, m: Maps.AddressSpace, tids: set<Pid>)
    requires Registers(w, x, tids)
    ensures Registers(w, Ended(x, th, m), tids)
  {
    assert AreNew(Seal, w, x, tids);
  }

  lemma ExtendsSelf(w: World, pending: set<ThreadNode>)
    requires Good(w, pending)
    ensures Extends(w, w)
  {
    assert Consistent(Seal, w, pending);
  }

  lemma ExtendsTwice(w: World, x: World, y: World)
    requires Extends(w, x) && Extends(x, y)
    ensures Extends(w, y)
  {
    assert Extension(Seal, w, x) && Extension(Seal, x, y);
  }

  lemma BegunExtends(w: World, pending: set<ThreadNode>, th: ThreadNode)
    requires Good(w, pending) && th.entry.tid !in w.index
    ensures Extends(w, Begun(w, th))
  {
    assert Consistent(Seal, w, pending);
  }

  lemma EndedExtends(w: World, x: World, th: ThreadNode, m: Maps.AddressSpace)
    requires Extends(w, x) && th.entry.tid !in w.index
    ensures Extends(w, Ended(x, th, m))
  {
    assert Extension(Seal, w, x);
  }

  lemma AtExtends(w: World, x: World, th: ThreadNode)
    requires Extends(w, x) && At(w, th)
    ensures At(x, th)
  {
    assert Extension(Seal, w, x);
  }

  lemma GroupOf(w: World, pending: set<ThreadNode>, th: ThreadNode)
    requires Good(w, pending)
    ensures w.group(w.group(th.entry.tid)) == w.group(th.entry.tid)
    ensures Idle(w, w.group(th.entry.tid), pending - {th}) && At(w, th) && w.group(th.entry.tid) != th.entry.tid ==>
      Idle(w, w.group(th.entry.tid), pending)
  {
    assert Consistent(Seal, w, pending);
  }

  /** What is known of a registered thread whose creation has ended. */
  lemma Known(w: World, pending: set<ThreadNode>, tid: Pid)
    requires Good(w, pending) && tid in w.index && w.index[tid] !in pending
    ensures tid in w.info && w.info[tid].tgid == w.group(tid) && w.info[tid].maps.Some? && w.index[tid].entry.tid == tid
    ensures w.index[tid].entry in w.repr
    ensures w.group(tid) in w.index && w.group(tid) in w.info && w.info[w.group(tid)].maps == w.info[tid].maps
    ensures w.index[w.group(tid)] !in pending && Extends(w, w)
  {
    assert Consistent(Seal, w, pending);
  }

  lemma BucketsApart(w: World, pending: set<ThreadNode>, i: nat, j: nat)
    requires Good(w, pending) && i < BUCKETS && j < BUCKETS && i != j
    ensures i in w.sets && j in w.sets && w.sets[i] !! w.sets[j]
  {
    assert Consistent(Seal, w, pending);
    SpreadApart(w.index, w.sets, i, j);
  }

  lemma Unlinked(w: World, pending: set<ThreadNode>, th: ThreadNode, i: nat)
    requires Good(w, pending) && i < BUCKETS && th.entry.tid !in w.index
    ensures i in w.sets && th !in w.sets[i]
  {
    assert Consistent(Seal, w, pending);
    SpreadAdd(w.index, w.sets, th);
  }

  /** A tid is registered if and only if its bucket has a thread with it. */
  lemma Looked(w: World, pending: set<ThreadNode>, tid: Pid)
    requires Good(w, pending)
    ensures var h := Hash(tid);
      && h in w.sets && (tid in w.index <==> Present(w.sets[h], tid))
      && (tid in w.index ==> w.index[tid] in w.sets[h] && w.index[tid].entry.tid == tid)
      && AllAre(w.sets[h], tid, if tid in w.index then Some(w.index[tid]) else None)
  {
    assert Consistent(Seal, w, pending);
    assert Matches(w.index, Hash(tid), w.sets[Hash(tid)]);
  }

  ghost predicate AllAre(s: set<ThreadNode>, tid: Pid, th: Option<ThreadNode>) {
    forall n :: n in s && n.entry.tid == tid ==> Some(n) == th
  }

  /** The address space a new thread gets: its leader's, or for a leader an unused one. */
  ghost predicate Joins(w: World, th: ThreadNode, m: Maps.AddressSpace) {
    var tid := th.entry.tid;
    if tid == w.group(tid) then forall t :: t in w.info ==> w.info[t].maps != Some(m)
    else w.group(tid) in w.info && w.info[w.group(tid)].maps == Some(m)
  }

  ghost function Ended(w: World, th: ThreadNode, m: Maps.AddressSpace): World {
    w.(info := w.info[th.entry.tid := Info(w.group(th.entry.tid), Some(m))])
  }

  lemma EndedGood(w: World, pending: set<ThreadNode>, th: ThreadNode, m: Maps.AddressSpace)
    requires Good(w, pending + {th}) && th !in pending && Joins(w, th, m)
    ensures Good(Ended(w, th, m), pending) && Keyed(w.index) && th.entry.tid in w.index && w.index[th.entry.tid] == th
    ensures th.entry.tid in w.info && w.info[th.entry.tid].tgid == w.group(th.entry.tid)
  {
    assert Consistent(Seal, w, pending + {th});
    assert Under(w.index, Ended(w, th, m).info, pending);
    EndedShared(w.info, w.group, th.entry.tid, m);
    assert Consistent(Seal, Ended(w, th, m), pending);
  }

  lemma EndedShared(info: map<Pid, Info>, group: Pid -> Pid, tid: Pid, m: Maps.AddressSpace)
    requires Grouping(group) && Shared(info, group) && tid in info && info[tid].maps.None?
    requires if tid == group(tid) then forall t :: t in info ==> info[t].maps != Some(m)
             else group(tid) in info && info[group(tid)].maps == Some(m)
    ensures Shared(info[tid := Info(group(tid), Some(m))], group)
  {
    assert group(group(tid)) == group(tid);
  }

  ghost predicate Keyed(index: map<Pid, ThreadNode>) {
    forall t :: t in index ==> index[t].entry.tid == t
  }

  method SetCount(th: ThreadNode, n: nat, ghost index: map<Pid, ThreadNode>, ghost refs: map<Pid, nat>)
    requires Tallied(Registered(index), refs) && Keyed(index) && th.entry.tid in index && index[th.entry.tid] == th
      && n > 0
    modifies th.entry`refcnt
    ensures th.entry.refcnt == n && Tallied(Registered(index), refs[th.entry.tid := n])
  {
    assert AreTallied(Seal, Registered(index), refs);
    th.entry.refcnt := n;
    assert AreTallied(Seal, Registered(index), refs[th.entry.tid := n]);
  }

  method SetMaps(th: ThreadNode, m: Maps.AddressSpace, ghost index: map<Pid, ThreadNode>, ghost info: map<Pid, Info>)
    requires Recorded(index, info) && Keyed(index) && th.entry.tid in index && index[th.entry.tid] == th
    modifies th.entry`maps
    ensures th.entry.maps == m && th.entry.tid in info
      && Recorded(index, info[th.entry.tid := Info(info[th.entry.tid].tgid, Some(m))])
  {
    ghost var tid := th.entry.tid;
    assert Records(Seal, index, info);
    th.entry.maps := m;
    ghost var info' := info[tid := Info(info[tid].tgid, Some(m))];
    forall t | t in index ensures t in info' && InfoOf(index[t].entry) == info'[t] {
      assert t in info && old(InfoOf(index[t].entry)) == info[t];
    }
    assert Records(Seal, index, info');
  }

  /** Where the lookup of an absent tid ends. */
  ghost predicate Hole(tid: Pid, b: Threads, parent: Node?<Thread, ()>, left: bool, c: Ctx<ThreadNode>)
    reads b.entries
  {
    && b.entries.tree == Plug(c, Nil) && Ref(parent) == Parent(c) && (c.In? ==> left == c.side.Left?)
    && b.entries.Seq() == Before(c) + After(c) && Between(c, Rights(tid), Lefts(tid))
  }

  /** A thread is linked and its creation begins. */
  ghost function Begun(w: World, th: ThreadNode): World {
    var tid, h := th.entry.tid, Hash(th.entry.tid);
    World(w.group, w.index[tid := th], w.sets[h := (if h in w.sets then w.sets[h] else {}) + {th}],
          w.info[tid := Info(w.group(tid), None)], w.repr + {th, th.entry})
  }

  lemma BegunGood(w: World, pending: set<ThreadNode>, th: ThreadNode)
    requires Good(w, pending) && th.entry.tid !in w.index
    ensures Good(Begun(w, th), pending + {th}) && th !in pending
  {
    assert Consistent(Seal, w, pending);
    SpreadAdd(w.index, w.sets, th);
    assert Consistent(Seal, Begun(w, th), pending + {th});
  }
}

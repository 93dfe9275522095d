/**
 Threads that share an address space (src/machine.c:144-185, src/thread.c:65-80): those of one
 group, with their leader.
 */
module Groups {
  import opened RbLinks
  import opened Counts

  /** Threads share an address space within their group only, and with their leader if they are linked. */
  ghost predicate Grouped(threads: map<Id, Thread>, index: map<Pid, Id>, group: Pid -> Pid) {
    forall k: Seal :: GroupedBody(k, threads, index, group)
  }

  ghost predicate GroupedBody(k: Seal, threads: map<Id, Thread>, index: map<Pid, Id>, group: Pid -> Pid) {
    && (forall t :: t in threads ==> threads[t].tgid == group(threads[t].tid))
    && (forall t, u :: t in threads && u in threads && threads[t].maps.Some? && threads[t].maps == threads[u].maps ==>
          threads[t].tgid == threads[u].tgid)
    && (forall t :: t in threads && threads[t].maps.Some? && threads[t].linked ==> LedBy(threads, index, threads[t]))
  }

  ghost predicate LedBy(threads: map<Id, Thread>, index: map<Pid, Id>, r: Thread) {
    r.tgid in index && index[r.tgid] in threads && threads[index[r.tgid]].maps == r.maps
  }

  /** The sharers of an address space are threads of one group, led by a linked thread of the same space. */
  lemma OneGroup(s: State, group: Pid -> Pid, t: Id, u: Id)
    requires Grouped(s.threads, s.index, group) && t in s.threads && u in s.threads
    requires s.threads[t].maps.Some? && s.threads[t].maps == s.threads[u].maps
    ensures group(s.threads[t].tid) == group(s.threads[u].tid)
    ensures s.threads[t].linked ==> LedBy(s.threads, s.index, s.threads[t])
  {
    assert GroupedBody(Seal, s.threads, s.index, group);
  }

  /** A thread's record changes, or it gets its address space. */
  lemma GroupedPut(threads: map<Id, Thread>, index: map<Pid, Id>, group: Pid -> Pid, t: Id, r: Thread)
    requires Grouped(threads, index, group) && t in threads && r.tgid == group(r.tid)
    requires r.tid == threads[t].tid && (threads[t].maps == r.maps || threads[t].maps.None?)
    requires forall u :: u in threads && u != t && r.maps.Some? && threads[u].maps == r.maps ==>
      threads[u].tgid == r.tgid
    requires r.maps.Some? && r.linked ==> LedBy(threads[t := r], index, r)
    ensures Grouped(threads[t := r], index, group)
  {
    assert GroupedBody(Seal, threads, index, group);
    var b := threads[t := r];
    forall u | u in b && b[u].maps.Some? && b[u].linked ensures LedBy(b, index, b[u]) {
      if u != t { assert LedBy(threads, index, threads[u]); }
    }
    assert GroupedBody(Seal, b, index, group);
  }

  lemma GroupedRefs(threads: map<Id, Thread>, index: map<Pid, Id>, group: Pid -> Pid, t: Id, n: nat)
    requires Grouped(threads, index, group) && t in threads
    ensures Grouped(threads[t := threads[t].(refs := n)], index, group)
  {
    assert GroupedBody(Seal, threads, index, group);
    assert threads[t].maps.Some? && threads[t].linked ==> LedBy(threads, index, threads[t]);
    GroupedPut(threads, index, group, t, threads[t].(refs := n));
  }

  lemma GroupedNew(s: State, group: Pid -> Pid, tgid: Pid, tid: Pid)
    requires Inv(s) && Grouped(s.threads, s.index, group) && tid !in s.index && tgid == group(tid)
    ensures Grouped(NewThread(s, tgid, tid).threads, NewThread(s, tgid, tid).index, group)
  {
    Unborn(s);
    var b, index := NewThread(s, tgid, tid).threads, NewThread(s, tgid, tid).index;
    assert GroupedBody(Seal, s.threads, s.index, group);
    forall u | u in b && b[u].maps.Some? && b[u].linked ensures LedBy(b, index, b[u]) {
      assert LedBy(s.threads, s.index, s.threads[u]);
    }
    assert GroupedBody(Seal, b, index, group);
  }

  lemma OwnTgid(s: State, t: Id, group: Pid -> Pid)
    requires Grouped(s.threads, s.index, group) && t in s.threads
    ensures s.threads[t].tgid == group(s.threads[t].tid)
  {
    assert GroupedBody(Seal, s.threads, s.index, group);
  }

  lemma GroupedLess(s: State, group: Pid -> Pid, t: Id)
    requires Inv(s) && Grouped(s.threads, s.index, group) && t in s.threads && !s.threads[t].linked
    ensures Grouped(s.threads - {t}, s.index, group)
  {
    var b := s.threads - {t};
    assert GroupedBody(Seal, s.threads, s.index, group) && IndexOkBody(Seal, s.index, s.threads);
    forall u | u in b && b[u].maps.Some? && b[u].linked ensures LedBy(b, s.index, b[u]) {
      assert LedBy(s.threads, s.index, s.threads[u]);
    }
    assert GroupedBody(Seal, b, s.index, group);
  }
}

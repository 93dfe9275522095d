/**
 What registering a thread changes (src/machine.c:144-280, src/thread.c:65-80): the conditions under
 which the tgid is brought up to date, and the relations between the states of its steps.
 */
module Growth {
  import opened RbTrees
  import opened RbLinks
  import opened Counts
  import opened Groups

  /** Every thread has an address space, but for those under creation. */
  ghost predicate Ready(threads: map<Id, Thread>, pending: set<Id>) {
    forall k: Seal :: ReadyBody(k, threads, pending)
  }

  ghost predicate ReadyBody(k: Seal, threads: map<Id, Thread>, pending: set<Id>) {
    && (forall t :: t in pending ==> t in threads)
    && (forall t :: t in threads && threads[t].maps.None? ==> t in pending)
  }

  lemma ReadyAt(threads: map<Id, Thread>, pending: set<Id>, t: Id)
    requires Ready(threads, pending) && t in threads && t !in pending
    ensures threads[t].maps.Some?
  {
    assert ReadyBody(Seal, threads, pending);
  }

  lemma ReadyPut(threads: map<Id, Thread>, pending: set<Id>, t: Id, r: Thread)
    requires Ready(threads, pending) && t in threads && (r.maps.Some? || threads[t].maps.None?)
    ensures Ready(threads[t := r], pending)
  {
    assert ReadyBody(Seal, threads, pending);
    assert ReadyBody(Seal, threads[t := r], pending);
  }

  /** The thread under creation has got its address space. */
  lemma ReadyDone(threads: map<Id, Thread>, pending: set<Id>, t: Id)
    requires Ready(threads, pending + {t}) && t in threads && threads[t].maps.Some?
    ensures Ready(threads, pending)
  {
    assert ReadyBody(Seal, threads, pending + {t});
    forall u | u in pending ensures u in threads { assert u in pending + {t}; }
    assert ReadyBody(Seal, threads, pending);
  }

  ghost predicate Idle(s: State, tid: Pid, pending: set<Id>) {
    tid in s.index ==> s.index[tid] !in pending
  }

  /** The thread `t` is linked and waits for its address space. */
  ghost predicate Opening(s: State, t: Id, pending: set<Id>) {
    Ready(s.threads, pending + {t}) && t !in pending && t in s.threads && s.threads[t].maps.None? && s.threads[t].linked
  }

  /**
   Threads are added, and none changes but in its count, those of `but` in their address space,
   and those with a tid of `who` in their tgid.
   */
  ghost predicate Grown(a: State, b: State, but: set<Id>, who: set<Pid>) {
    && b.maps == a.maps && b.dsos == a.dsos && b.list == a.list && b.lists == a.lists && b.dead == a.dead
    && forall k: Seal :: GrownBody(k, a.threads, a.index, b.threads, b.index, but, who)
  }

  ghost predicate GrownBody(k: Seal, a: map<Id, Thread>, ai: map<Pid, Id>, b: map<Id, Thread>, bi: map<Pid, Id>,
                            but: set<Id>, who: set<Pid>) {
    && (forall t :: t in a ==> t in b && b[t].tid == a[t].tid && b[t].linked == a[t].linked)
    && (forall t :: t in a && t !in but ==> b[t].maps == a[t].maps)
    && (forall t :: t in a && a[t].tid !in who ==> b[t].tgid == a[t].tgid)
    && (forall p :: p in ai ==> p in bi && bi[p] == ai[p])
  }

  /** Every address space keeps its maps. */
  ghost predicate RoomsKept(a: map<Id, Space>, b: map<Id, Space>) {
    forall k: Seal :: RoomsKeptBody(k, a, b)
  }

  ghost predicate RoomsKeptBody(k: Seal, a: map<Id, Space>, b: map<Id, Space>) {
    forall x :: x in a ==> x in b && b[x].entries == a[x].entries
  }

  /** Registration adds objects; nothing is freed. */
  ghost predicate Grows(a: State, b: State, but: set<Id>, who: set<Pid>) {
    Grown(a, b, but, who) && b.freed == a.freed && RoomsKept(a.spaces, b.spaces)
  }

  /** The thread `t` has moved to another address space; its old one, if it was the last user, is freed. */
  ghost predicate Regroups(a: State, b: State, t: Id, who: set<Pid>) {
    && t in a.threads && a.threads[t].maps.Some? && Grown(a, b, {t}, who)
    && (b.freed == a.freed || b.freed == a.freed + [ASpace(a.threads[t].maps.value)])
  }

  lemma GrowsSelf(a: State)
    ensures Grows(a, a, {}, {})
  {
    assert GrownBody(Seal, a.threads, a.index, a.threads, a.index, {}, {});
    assert RoomsKeptBody(Seal, a.spaces, a.spaces);
  }

  lemma GrownWiden(a: State, b: State, but: set<Id>, who: set<Pid>, more: set<Id>, others: set<Pid>)
    requires Grown(a, b, but, who) && who <= others && forall t :: t in but ==> t in more || t !in a.threads
    ensures Grown(a, b, more, others)
  {
    assert GrownBody(Seal, a.threads, a.index, b.threads, b.index, but, who);
    assert GrownBody(Seal, a.threads, a.index, b.threads, b.index, more, others);
  }

  lemma GrownTrans(a: State, b: State, c: State, but: set<Id>, who: set<Pid>)
    requires Grown(a, b, but, who) && Grown(b, c, but, who)
    ensures Grown(a, c, but, who)
  {
    assert GrownBody(Seal, a.threads, a.index, b.threads, b.index, but, who);
    assert GrownBody(Seal, b.threads, b.index, c.threads, c.index, but, who);
    assert GrownBody(Seal, a.threads, a.index, c.threads, c.index, but, who);
  }

  lemma RoomsTrans(a: map<Id, Space>, b: map<Id, Space>, c: map<Id, Space>)
    requires RoomsKept(a, b) && RoomsKept(b, c)
    ensures RoomsKept(a, c)
  {
    assert RoomsKeptBody(Seal, a, b) && RoomsKeptBody(Seal, b, c);
    assert RoomsKeptBody(Seal, a, c);
  }

  lemma GrownAt(a: State, b: State, but: set<Id>, who: set<Pid>, t: Id)
    requires Grown(a, b, but, who) && t in a.threads
    ensures t in b.threads && b.threads[t].tid == a.threads[t].tid && b.threads[t].linked == a.threads[t].linked
    ensures t !in but ==> b.threads[t].maps == a.threads[t].maps
    ensures a.threads[t].tid !in who ==> b.threads[t].tgid == a.threads[t].tgid
  {
    assert GrownBody(Seal, a.threads, a.index, b.threads, b.index, but, who);
  }

  lemma GrownIndex(a: State, b: State, but: set<Id>, who: set<Pid>, p: Pid)
    requires Grown(a, b, but, who) && p in a.index
    ensures p in b.index && b.index[p] == a.index[p]
  {
    assert GrownBody(Seal, a.threads, a.index, b.threads, b.index, but, who);
  }

  lemma RoomAt(a: map<Id, Space>, b: map<Id, Space>, x: Id)
    requires RoomsKept(a, b) && x in a
    ensures x in b && b[x].entries == a[x].entries
  {
    assert RoomsKeptBody(Seal, a, b);
  }

  /** One thread's count or tgid and the handles change. */
  lemma GrowsPut(a: State, t: Id, r: Thread, h: Held, who: set<Pid>)
    requires t in a.threads && r.tid == a.threads[t].tid && r.linked == a.threads[t].linked
    requires r.maps == a.threads[t].maps && (r.tgid == a.threads[t].tgid || r.tid in who)
    ensures Grows(a, a.(threads := a.threads[t := r], held := h), {}, who)
  {
    assert GrownBody(Seal, a.threads, a.index, a.threads[t := r], a.index, {}, who);
    assert RoomsKeptBody(Seal, a.spaces, a.spaces);
  }

  /** The tid is registered with another tgid, and is not the leader the request names. */
  ghost predicate Moves(s: State, tgid: Pid, tid: Pid) {
    tid in s.index && s.index[tid] in s.threads && s.threads[s.index[tid]].tgid != tgid && tgid != tid
  }

  /** The leader `tgid` is registered and shares the address space of `t`. */
  ghost predicate WithLeader(s: State, tgid: Pid, t: Id) {
    t in s.threads && tgid in s.index && s.index[tgid] in s.threads
      && s.threads[s.index[tgid]].maps == s.threads[t].maps
  }

  ghost predicate Full(s: State, t: Id) {
    && t in s.threads && s.threads[t].maps.Some? && s.threads[t].maps.value in s.spaces
    && s.spaces[s.threads[t].maps.value].entries != []
  }

  /** machine__update_thread_tgid returns without thread__put (src/machine.c:167-168). */
  ghost predicate Leaks(s: State, tgid: Pid, tid: Pid) {
    Moves(s, tgid, tid) && WithLeader(s, tgid, s.index[tid])
  }

  /** machine__update_thread_tgid fails its assertion (src/machine.c:170-172). */
  ghost predicate Aborts(s: State, tgid: Pid, tid: Pid) {
    Moves(s, tgid, tid) && !WithLeader(s, tgid, s.index[tid]) && Full(s, s.index[tid])
  }

  /** `t` is handed out for the request; if it is new it has a new address space or its leader's. */
  ghost predicate Found(a: State, b: State, t: Id, tgid: Pid, tid: Pid, pending: set<Id>) {
    && Inv(b) && Ready(b.threads, pending) && tid in b.index && b.index[tid] == t && t !in pending
    && t in b.threads && b.threads[t].maps.Some? && b.threads[t].tgid == tgid
    && b.held == a.held.(threads := a.held.threads + multiset{t} + Leaked(a, tgid, tid))
    && (tid !in a.index && tgid != tid ==> WithLeader(b, tgid, t))
    && (tid !in a.index && tgid == tid ==> b.threads[t].maps.value !in a.spaces)
    && if Moves(a, tgid, tid) then Regroups(a, b, t, {tgid, tid}) && WithLeader(b, tgid, t)
       else Grows(a, b, {}, {tgid, tid})
  }

  /** The tgid of `t` is up to date, and with it the address space. */
  ghost predicate Updated(a: State, b: State, t: Id, tgid: Pid, pending: set<Id>) {
    && Inv(b) && Ready(b.threads, pending) && t in a.threads && t in b.threads
    && var tid := a.threads[t].tid;
    && b.threads[t].maps.Some? && b.threads[t].tgid == tgid && b.threads[t].tid == tid && b.threads[t].linked
    && b.held == a.held.(threads := a.held.threads + Leaked(a, tgid, tid))
    && (a.threads[t].tgid == tgid ==> b == a)
    && if Moves(a, tgid, tid) then Regroups(a, b, t, {tgid, tid}) && WithLeader(b, tgid, t)
       else Grows(a, b, {}, {tgid, tid})
  }

  /** `t` shares the address space of the leader `tgid`; if it did before, the leader's reference is kept. */
  ghost predicate Regrouped(a: State, b: State, t: Id, tgid: Pid, pending: set<Id>) {
    && Inv(b) && Ready(b.threads, pending) && t in a.threads && t in b.threads
    && b.threads[t].maps.Some? && b.threads[t].tgid == a.threads[t].tgid
    && b.threads[t].tid == a.threads[t].tid && b.threads[t].linked
    && Regroups(a, b, t, {tgid}) && WithLeader(b, tgid, t)
    && b.held == a.held.(threads := a.held.threads
         + if WithLeader(a, tgid, t) then multiset{a.index[tgid]} else multiset{})
  }

  /** The thread under creation has got its address space. */
  ghost predicate Settles(a: State, b: State, t: Id, pending: set<Id>) {
    && Inv(b) && Ready(b.threads, pending) && b.held == a.held && t in a.threads && t in b.threads
    && b.threads[t].maps.Some? && b.threads[t].linked
    && b.threads[t].tid == a.threads[t].tid && b.threads[t].tgid == a.threads[t].tgid
    && Grows(a, b, {t}, {b.threads[t].tgid})
    && (b.threads[t].tgid != b.threads[t].tid ==> WithLeader(b, b.threads[t].tgid, t))
    && (b.threads[t].tgid == b.threads[t].tid ==> b.threads[t].maps.value !in a.spaces)
  }

  ghost function Leaked(s: State, tgid: Pid, tid: Pid): multiset<Id> {
    if Leaks(s, tgid, tid) then multiset{s.index[tgid]} else multiset{}
  }

  lemma FoundAgain(o: State, m: State, b: State, t: Id, tgid: Pid, tid: Pid, pending: set<Id>)
    requires Updated(o, m, t, tgid, pending) && tid in o.index && o.index[tid] == t && o.threads[t].tid == tid
    requires t !in pending && b == GetThread(m, t) && Inv(b)
    ensures Found(o, b, t, tgid, tid, pending)
  {
    ReadyPut(m.threads, pending, t, b.threads[t]);
    IndexOf(b, t);
    GrowsPut(m, t, b.threads[t], b.held, {tgid, tid});
    RoomsKeptFound(o, m, b, t, tgid, tid);
  }

  lemma RoomsKeptFound(o: State, m: State, b: State, t: Id, tgid: Pid, tid: Pid)
    requires Grows(m, b, {}, {tgid, tid})
    ensures Regroups(o, m, t, {tgid, tid}) ==> Regroups(o, b, t, {tgid, tid})
    ensures Grows(o, m, {}, {tgid, tid}) ==> Grows(o, b, {}, {tgid, tid})
  {
    if Regroups(o, m, t, {tgid, tid}) {
      GrownWiden(m, b, {}, {tgid, tid}, {t}, {tgid, tid});
      GrownTrans(o, m, b, {t}, {tgid, tid});
    }
    if Grows(o, m, {}, {tgid, tid}) {
      GrownTrans(o, m, b, {}, {tgid, tid});
      RoomsTrans(o.spaces, m.spaces, b.spaces);
    }
  }

  lemma UpdatedMoved(o: State, a: State, b: State, t: Id, tgid: Pid, pending: set<Id>)
    requires Inv(o) && t in o.threads && o.threads[t].linked && a == SetTgid(o, t, tgid)
    requires tgid != o.threads[t].tgid && tgid != o.threads[t].tid && Regrouped(a, b, t, tgid, pending)
    ensures Updated(o, b, t, tgid, pending)
  {
    var tid := o.threads[t].tid;
    IndexOf(o, t);
    if tgid in o.index { IndexFacts(o, tgid); }
    GrowsPut(o, t, a.threads[t], o.held, {tgid, tid});
    assert o.(threads := o.threads[t := a.threads[t]], held := o.held) == a;
    GrownWiden(o, a, {}, {tgid, tid}, {t}, {tgid, tid});
    GrownWiden(a, b, {t}, {tgid}, {t}, {tgid, tid});
    GrownTrans(o, a, b, {t}, {tgid, tid});
  }

  /** The leader has been found or created, with an address space of its own in that case. */
  lemma LeaderKnown(o: State, a: State, t: Id, l: Id, tgid: Pid, pending: set<Id>)
    requires Inv(o) && Found(o, a, l, tgid, tgid, pending) && t in o.threads && o.threads[t].maps.Some?
    requires o.threads[t].tid != tgid && (tgid !in o.index ==> a.threads[l].maps.value !in o.spaces)
    ensures t in a.threads && l != t && a.threads[l].linked && l in a.held.threads
    ensures a.threads[t] == o.threads[t].(refs := a.threads[t].refs)
    ensures a.threads[t].maps == a.threads[l].maps <==> WithLeader(o, tgid, t)
    ensures var x := o.threads[t].maps.value;
      x in o.spaces && x in a.spaces && a.spaces[x].entries == o.spaces[x].entries
  {
    MapsInSpaces(o, t);
    GrownAt(o, a, {}, {tgid, tgid}, t);
    RoomAt(o.spaces, a.spaces, o.threads[t].maps.value);
    IndexFacts(a, tgid);
    if tgid in o.index {
      IndexFacts(o, tgid);
      GrownIndex(o, a, {}, {tgid, tgid}, tgid);
      GrownAt(o, a, {}, {tgid, tgid}, l);
    }
  }

  lemma RegroupedLeak(o: State, a: State, t: Id, l: Id, tgid: Pid, pending: set<Id>)
    requires Found(o, a, l, tgid, tgid, pending) && t in o.threads && o.threads[t].maps.Some? && o.threads[t].linked
    requires t in a.threads && a.threads[t] == o.threads[t].(refs := a.threads[t].refs)
    requires a.threads[t].maps == a.threads[l].maps && WithLeader(o, tgid, t)
    ensures Regrouped(o, a, t, tgid, pending)
  {
    assert {tgid, tgid} == {tgid};
    GrownIndex(o, a, {}, {tgid}, tgid);
    GrownWiden(o, a, {}, {tgid}, {t}, {tgid});
  }

  /** The old address space was empty and has been left. */
  ghost predicate Left(a: State, b: State, t: Id) {
    && t in a.threads && a.threads[t].maps.Some? && b.index == a.index && b.list == a.list
    && b.threads == a.threads[t := a.threads[t].(maps := None)] && b.held == a.held
    && b.maps == a.maps && b.lists == a.lists && b.dsos == a.dsos && b.dead == a.dead
    && (b.freed == a.freed || b.freed == a.freed + [ASpace(a.threads[t].maps.value)])
  }

  lemma RegroupedMoved(o: State, a: State, b: State, c: State, t: Id, l: Id, tgid: Pid, pending: set<Id>)
    requires Found(o, a, l, tgid, tgid, pending) && t in o.threads && o.threads[t].maps.Some? && o.threads[t].linked
    requires t in a.threads && a.threads[t] == o.threads[t].(refs := a.threads[t].refs) && l != t
    requires Left(a, b, t) && Inv(c) && Shares(b, c, l, t) && !WithLeader(o, tgid, t)
    ensures Regrouped(o, c, t, tgid, pending)
  {
    assert {tgid, tgid} == {tgid};
    ShareGrows(b, c, l, t);
    assert GrownBody(Seal, a.threads, a.index, b.threads, b.index, {t}, {});
    GrownWiden(a, b, {t}, {}, {t}, {tgid});
    GrownWiden(b, c, {t}, {}, {t}, {tgid});
    GrownWiden(o, a, {}, {tgid}, {t}, {tgid});
    GrownTrans(o, a, b, {t}, {tgid});
    GrownTrans(o, b, c, {t}, {tgid});
    MovedReady(a, b, c, t, l, pending);
  }

  lemma MovedReady(a: State, b: State, c: State, t: Id, l: Id, pending: set<Id>)
    requires Ready(a.threads, pending) && Left(a, b, t) && Shares(b, c, l, t) && l != t
    ensures Ready(c.threads, pending)
  {
    var d := a.threads[t := c.threads[t]];
    ReadyPut(a.threads, pending, t, c.threads[t]);
    ReadyPut(d, pending, l, c.threads[l]);
    assert d[l := c.threads[l]] == c.threads;
  }

  lemma FoundNew(o: State, a: State, b: State, c: State, t: Id, tgid: Pid, tid: Pid, pending: set<Id>)
    requires Grows(o, a, {}, {}) && t !in o.threads && a.held == o.held && t !in pending && tid !in o.index
    requires Settles(a, b, t, pending) && b.threads[t].tid == tid && b.threads[t].tgid == tgid
    requires c == GetThread(b, t) && Inv(c)
    ensures Found(o, c, t, tgid, tid, pending)
  {
    ReadyPut(b.threads, pending, t, c.threads[t]);
    IndexOf(c, t);
    GrowsPut(b, t, c.threads[t], c.held, {tgid, tid});
    GrownWiden(b, c, {}, {tgid, tid}, {t}, {tgid, tid});
    GrownWiden(a, b, {t}, {tgid}, {t}, {tgid, tid});
    GrownWiden(o, a, {}, {}, {t}, {tgid, tid});
    GrownTrans(o, a, b, {t}, {tgid, tid});
    GrownTrans(o, b, c, {t}, {tgid, tid});
    GrownWiden(o, c, {t}, {tgid, tid}, {}, {tgid, tid});
    RoomsTrans(o.spaces, a.spaces, b.spaces);
    RoomsTrans(o.spaces, b.spaces, c.spaces);
    var x := c.threads[t].maps.value;
    if x in o.spaces { RoomAt(o.spaces, a.spaces, x); }
  }

  /** After the event the handle that was taken is given back. */
  lemma MapAdded(o: State, a: State, t: Id, tgid: Pid, tid: Pid)
    requires Found(o, a, t, tgid, tid, {})
    ensures a.held.(threads := a.held.threads - multiset{t})
      == o.held.(threads := o.held.threads + Leaked(o, tgid, tid))
    ensures a.lists == o.lists && a.maps == o.maps
    ensures !Moves(o, tgid, tid) ==> a.freed == o.freed
  {
    var h, l := o.held.threads, Leaked(o, tgid, tid);
    assert h + multiset{t} + l - multiset{t} == h + l;
  }

  lemma JoinFacts(o: State, a: State, t: Id, l: Id, tgid: Pid, pending: set<Id>)
    requires Opening(o, t, pending) && o.threads[t].tid != tgid && Found(o, a, l, tgid, tgid, pending + {t})
    ensures t in a.threads && l != t && a.threads[l].linked && l in a.held.threads
    ensures a.threads[t] == o.threads[t].(refs := a.threads[t].refs)
  {
    GrownAt(o, a, {}, {tgid, tgid}, t);
    IndexFacts(a, tgid);
  }

  lemma Joined(o: State, a: State, b: State, t: Id, l: Id, tgid: Pid, pending: set<Id>)
    requires Opening(o, t, pending) && Found(o, a, l, tgid, tgid, pending + {t}) && l != t && o.threads[t].tgid == tgid
    requires t in a.threads && a.threads[t] == o.threads[t].(refs := a.threads[t].refs)
    requires Inv(b) && Shares(a, b, l, t) && o.threads[t].tid != tgid
    ensures Settles(o, b, t, pending)
  {
    assert WithLeader(b, tgid, t);
    assert {tgid, tgid} == {tgid};
    ShareGrows(a, b, l, t);
    ShareReady(a, b, l, t, pending);
    GrownWiden(o, a, {}, {tgid}, {t}, {tgid});
    GrownWiden(a, b, {t}, {}, {t}, {tgid});
    GrownTrans(o, a, b, {t}, {tgid});
    RoomsTrans(o.spaces, a.spaces, b.spaces);
  }

  lemma GrowsNew(a: State, b: State, t: Id, tgid: Pid, tid: Pid, pending: set<Id>)
    requires Inv(a) && Ready(a.threads, pending) && tid !in a.index && t == a.next && b == NewThread(a, tgid, tid)
    ensures Opening(b, t, pending) && b.threads[t].tid == tid && b.threads[t].tgid == tgid
    ensures Grows(a, b, {}, {}) && t !in a.threads
  {
    Unborn(a);
    assert ReadyBody(Seal, a.threads, pending);
    assert ReadyBody(Seal, b.threads, pending + {t});
    assert GrownBody(Seal, a.threads, a.index, b.threads, b.index, {}, {});
    assert RoomsKeptBody(Seal, a.spaces, b.spaces);
  }

  /** A thread under creation gets an address space of its own. */
  lemma GrowsOwn(a: State, b: State, t: Id, pending: set<Id>)
    requires Inv(a) && Opening(a, t, pending) && b == AttachThread(NewSpace(a), t, a.next)
    ensures Ready(b.threads, pending) && b.held == a.held && Grows(a, b, {t}, {a.threads[t].tgid})
  {
    Unborn(a);
    assert b.held.spaces == a.held.spaces;
    ReadyPut(a.threads, pending + {t}, t, b.threads[t]);
    ReadyDone(b.threads, pending, t);
    assert GrownBody(Seal, a.threads, a.index, b.threads, b.index, {t}, {a.threads[t].tgid});
    assert RoomsKeptBody(Seal, a.spaces, b.spaces);
  }

  /** `t` has got the leader's address space, and the leader's handle is gone. */
  ghost predicate Shares(a: State, b: State, l: Id, t: Id) {
    && l in a.threads && t in a.threads && a.threads[l].maps.Some? && a.threads[l].refs > 0
    && var x := a.threads[l].maps.value;
    && x in a.spaces
    && b == a.(threads := a.threads[t := a.threads[t].(maps := Some(x))]
                                   [l := a.threads[l].(refs := a.threads[l].refs - 1)],
               spaces := a.spaces[x := a.spaces[x].(refs := a.spaces[x].refs + 1)],
               held := a.held.(threads := a.held.threads - multiset{l}))
  }

  lemma ShareGrows(a: State, b: State, l: Id, t: Id)
    requires l != t && Shares(a, b, l, t)
    ensures Grows(a, b, {t}, {}) && t in b.threads && b.threads[t] == a.threads[t].(maps := a.threads[l].maps)
  {
    assert GrownBody(Seal, a.threads, a.index, b.threads, b.index, {t}, {});
    assert RoomsKeptBody(Seal, a.spaces, b.spaces);
  }

  lemma ShareReady(a: State, b: State, l: Id, t: Id, pending: set<Id>)
    requires l != t && Shares(a, b, l, t) && Ready(a.threads, pending + {t})
    ensures Ready(b.threads, pending)
  {
    var c := a.threads[t := a.threads[t].(maps := a.threads[l].maps)];
    ReadyPut(a.threads, pending + {t}, t, c[t]);
    ReadyPut(c, pending + {t}, l, b.threads[l]);
    ReadyDone(b.threads, pending, t);
  }

  lemma ShareGrouped(a: State, b: State, l: Id, t: Id, group: Pid -> Pid)
    requires Grouped(a.threads, a.index, group) && l != t && Shares(a, b, l, t) && a.threads[t].maps.None?
    requires a.threads[t].tgid in a.index && a.index[a.threads[t].tgid] == l && a.threads[l].tgid == a.threads[t].tgid
    ensures Grouped(b.threads, b.index, group)
  {
    assert GroupedBody(Seal, a.threads, a.index, group);
    var c := a.threads[t := a.threads[t].(maps := a.threads[l].maps)];
    GroupedPut(a.threads, a.index, group, t, c[t]);
    GroupedRefs(c, a.index, group, l, a.threads[l].refs - 1);
  }

  lemma OwnGrouped(s: State, t: Id, x: Id, group: Pid -> Pid)
    requires Inv(s) && Grouped(s.threads, s.index, group) && t in s.threads && s.threads[t].maps.None?
    requires s.threads[t].tgid == s.threads[t].tid && s.threads[t].linked && Sharers(s.threads, x) == {}
    ensures Grouped(AttachThread(s, t, x).threads, s.index, group)
  {
    IndexOf(s, t);
    assert GroupedBody(Seal, s.threads, s.index, group);
    var r := s.threads[t].(maps := Some(x));
    forall u | u in s.threads ensures s.threads[u].maps != r.maps { assert u !in Sharers(s.threads, x); }
    GroupedPut(s.threads, s.index, group, t, r);
  }
}

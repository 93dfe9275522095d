/**
 The library's operations on counted objects (src/thread.c:27-80, src/map.c:29-132, 169-189,
 src/dso.c:577-604, src/machine.c:21-35, 62-128, 144-280, src/event.c:21-40): what each does to
 the counts, trees, lists and handles, and what whole runs leave behind.
 */
module Lifetimes {
  import opened RbTrees
  import opened RbLinks
  import opened Counts
  import Registry
  import opened Drops
  import opened Groups
  import opened Growth
  import opened Endings

  class Ledger {
    var s: State
    ghost const group: Pid -> Pid

    constructor (ghost group: Pid -> Pid)
      ensures s == Empty() && Inv(s) && this.group == group && Grouped(s.threads, s.index, group)
    {
      s := Empty();
      this.group := group;
      EmptyInv();
      assert GroupedBody(Seal, map[], map[], group);
    }

    /** The request presents the tid with the tgid of its group, and the group is led by that thread. */
    ghost predicate Fits(tgid: Pid, tid: Pid) {
      group(tid) == tgid && group(tgid) == tgid
    }

    ghost predicate Orderly()
      reads this
    {
      Grouped(s.threads, s.index, group)
    }

    /** dso__put. */
    method DsoPut(d: Id)
      requires Inv(s) && d in s.held.dsos
      modifies this
      ensures Inv(s) && d in old(s).dsos && old(s).dsos[d].refs > 0 && s == DropDso(old(s), d)
    {
      DropDsoInv(s, d);
      s := DropDso(s, d);
    }

    /** map__put (src/map.c:47-65): at zero the map, which is in no tree, leaves its list and is deleted. */
    method MapPut(m: Id)
      requires Inv(s) && m in s.held.maps
      modifies this
      ensures Inv(s) && Calm(old(s), s) && s.held == old(s.held).(maps := old(s.held).maps - multiset{m})
      ensures s.threads == old(s).threads && s.spaces == old(s).spaces && s.dead == old(s).dead
      ensures m in old(s).maps && old(s).maps[m].refs > 0
      ensures old(s).maps[m].refs > 1 ==> s == DropMap(old(s), m)
      ensures old(s).maps[m].refs == 1 ==>
        && old(s).maps[m].home.None? && s.maps == old(s).maps - {m} && s.freed == old(s).freed + [AMap(m)]
        && s.lists == Unlisted(old(s).lists, m, old(s).maps[m].on)
    {
      HeldMap(s, m);
      if s.maps[m].refs == 1 {
        LastMapPut(m);
      } else {
        DropMapInv(s, m);
        s := DropMap(s, m);
        CalmKeep(old(s), s);
      }
    }

    method LastMapPut(m: Id)
      requires Inv(s) && m in s.held.maps && m in s.maps && s.maps[m].refs == 1
      modifies this
      ensures Inv(s) && Calm(old(s), s) && s.held == old(s.held).(maps := old(s.held).maps - multiset{m})
      ensures s.threads == old(s).threads && s.spaces == old(s).spaces && s.dead == old(s).dead
      ensures old(s).maps[m].home.None? && s.maps == old(s).maps - {m} && s.freed == old(s).freed + [AMap(m)]
      ensures s.lists == Unlisted(old(s).lists, m, old(s).maps[m].on)
    {
      FreeMapInv(s, m);
      CalmFreeMap(s, m);
      var d := s.maps[m].dso;
      s := FreeMap(s, m);
      ghost var a := s;
      DsoPut(d);
      CalmKeep(a, s);
      CalmTrans(old(s), a, s);
      assert s.held.dsos == old(s).held.dsos;
    }

    /**
     maps__put (src/map.c:83-118): at zero every map is erased and put, then the address space is
     deleted.  A map stays on the list of the deleted address space exactly if somebody holds it.
     */
    method MapsPut(x: Id)
      requires Inv(s) && x in s.held.spaces
      modifies this
      ensures Inv(s) && Calm(old(s), s) && s.held == old(s.held).(spaces := old(s.held).spaces - multiset{x})
      ensures s.threads == old(s).threads && s.dead == old(s).dead
      ensures x in old(s).spaces && old(s).spaces[x].refs > 0 && s.spaces == Less(old(s).spaces, x)
      ensures old(s).spaces[x].refs > 1 ==> s == DropSpace(old(s), x)
      ensures old(s).spaces[x].refs == 1 ==> Hung(old(s), s, x)
      ensures old(s).spaces[x].refs == 1 && old(s).spaces[x].entries == [] ==> s == FreeSpace(old(s), x)
    {
      HeldSpace(s, x);
      if s.spaces[x].refs == 1 {
        Purge(x);
        FreeSpaceInv(s, x);
        CalmFreeSpace(s, x);
        ghost var a := s;
        s := FreeSpace(s, x);
        CalmTrans(old(s), a, s);
        HungLike(old(s), a, old(s), s, x);
      } else {
        DropSpaceInv(s, x);
        s := DropSpace(s, x);
        CalmKeep(old(s), s);
      }
    }

    /** __maps__purge (src/map.c:83-95). */
    method Purge(x: Id)
      requires Inv(s) && x in s.spaces
      modifies this
      ensures Inv(s) && Calm(old(s), s) && s.held == old(s.held) && s.threads == old(s).threads && s.dead == old(s).dead
      ensures s.spaces == old(s).spaces[x := old(s).spaces[x].(entries := [])]
      ensures old(s).spaces[x].entries == [] ==> s == old(s)
      ensures Hung(old(s), s, x)
    {
      CalmKeep(s, s);
      assert BeyondBody(Seal, s.maps, s.maps, x);
      while s.spaces[x].entries != []
        invariant Inv(s) && Calm(old(s), s) && s.held == old(s.held)
        invariant s.threads == old(s).threads && s.dead == old(s).dead && x in s.spaces
        invariant s.spaces == old(s).spaces[x := old(s).spaces[x].(entries := s.spaces[x].entries)]
        invariant Beyond(old(s).maps, s.maps, x)
        invariant old(s).spaces[x].entries == [] ==> s == old(s)
        decreases |s.spaces[x].entries|
      {
        ghost var a := s;
        PurgeFirst(x);
        CalmTrans(old(s), a, s);
        BeyondTrans(old(s).maps, a.maps, s.maps, x);
      }
      PurgeHangs(old(s), s, x);
    }

    method PurgeFirst(x: Id)
      requires Inv(s) && x in s.spaces && s.spaces[x].entries != []
      modifies this
      ensures Inv(s) && Calm(old(s), s) && s.held == old(s.held) && s.threads == old(s).threads && s.dead == old(s).dead
      ensures s.spaces == old(s).spaces[x := old(s).spaces[x].(entries := old(s).spaces[x].entries[1..])]
      ensures Beyond(old(s).maps, s.maps, x)
    {
      UnlinkFirstInv(s, x);
      var pos := s.spaces[x].entries[0];
      s := UnlinkFirst(s, x);
      ghost var a := s;
      CalmKeep(old(s), a);
      MapPut(pos);
      CalmTrans(old(s), a, s);
      assert s.held.maps == old(s).held.maps;
      BeyondFirst(old(s).maps, a.maps, s.maps, pos, x);
    }

    /** thread__put (src/thread.c:27-63): at zero the thread, which is in no tree, leaves its list and is deleted. */
    method ThreadPut(t: Id)
      requires Inv(s) && t in s.held.threads
      modifies this
      ensures Inv(s) && Calm(old(s), s) && t in old(s).threads
      ensures s.held == old(s.held).(threads := old(s.held).threads - multiset{t})
      ensures old(s).threads[t].refs > 1 ==> s == DropThread(old(s), t)
      ensures old(s).threads[t].refs == 1 ==> Buried(old(s), s, t)
    {
      HeldThread(s, t);
      if s.threads[t].refs == 1 {
        LastThreadPut(t);
      } else {
        DropThreadInv(s, t);
        s := DropThread(s, t);
        CalmKeep(old(s), s);
      }
    }

    method LastThreadPut(t: Id)
      requires Inv(s) && t in s.held.threads && t in s.threads && s.threads[t].refs == 1
      modifies this
      ensures Inv(s) && Calm(old(s), s)
      ensures s.held == old(s.held).(threads := old(s.held).threads - multiset{t})
      ensures Buried(old(s), s, t)
    {
      MapsInSpaces(s, t);
      CalmKeep(s, s);
      if s.threads[t].maps.Some? { Leave(t); }
      ghost var a := s;
      FreeThreadInv(s, t);
      CalmFreeThread(s, t);
      s := FreeThread(s, t);
      CalmTrans(old(s), a, s);
      if old(s).threads[t].maps.Some? && old(s).spaces[old(s).threads[t].maps.value].refs == 1 {
        HungLike(old(s), a, old(s), s, old(s).threads[t].maps.value);
      }
    }

    /** maps__put(thread->maps); thread->maps = NULL. */
    method Leave(t: Id)
      requires Inv(s) && t in s.threads && s.threads[t].maps.Some?
      modifies this
      ensures Inv(s) && Calm(old(s), s) && s.held == old(s.held) && s.dead == old(s).dead
      ensures s.threads == old(s).threads[t := old(s).threads[t].(maps := None)]
      ensures var x := old(s).threads[t].maps.value;
        && x in old(s).spaces && old(s).spaces[x].refs > 0 && s.spaces == Less(old(s).spaces, x)
        && (old(s).spaces[x].refs == 1 ==> Hung(old(s), s, x))
        && (old(s).spaces[x].entries == [] ==>
              && s.maps == old(s).maps && s.lists == old(s).lists && s.dsos == old(s).dsos
              && (s.freed == old(s).freed || s.freed == old(s).freed + [ASpace(x)]))
    {
      var x := s.threads[t].maps.value;
      DetachThreadInv(s, t);
      s := DetachThread(s, t);
      ghost var a := s;
      CalmKeep(old(s), a);
      MapsPut(x);
      CalmTrans(old(s), a, s);
      assert s.held.spaces == old(s).held.spaces;
      if old(s).spaces[x].refs == 1 { HungLike(a, s, old(s), s, x); }
    }

    /**
     machine__findnew_thread (src/machine.c:187-280) with thread__init_maps (src/thread.c:65-80):
     the caller gets a reference.  A request that names another tgid than the registered one may
     fail an assertion or keep the leader's reference; in any other case one reference is taken.
     `pending` are threads whose creation is under way.
     */
    method FindNew(tgid: Pid, tid: Pid, ghost pending: set<Id>) returns (ok: bool, t: Id)
      requires Inv(s) && Ready(s.threads, pending) && Idle(s, tid, pending) && Idle(s, tgid, pending)
      modifies this
      ensures ok <==> !Aborts(old(s), tgid, tid)
      ensures ok ==> Found(old(s), s, t, tgid, tid, pending)
      ensures tid !in old(s).index && tgid == tid ==> ok && s.threads[t].maps.value !in old(s).spaces
      ensures old(Orderly()) && Fits(tgid, tid) ==> ok && !Moves(old(s), tgid, tid) && Orderly()
      decreases if tgid == tid then 0 else 1, 3
    {
      if tid in s.index {
        ok, t := Again(tgid, tid, pending);
      } else {
        t := Create(tgid, tid, pending);
        ok := true;
      }
    }

    /** The thread is registered: its tgid is brought up to date and it is handed out. */
    method Again(tgid: Pid, tid: Pid, ghost pending: set<Id>) returns (ok: bool, t: Id)
      requires Inv(s) && Ready(s.threads, pending) && Idle(s, tid, pending) && Idle(s, tgid, pending)
      requires tid in s.index
      modifies this
      ensures ok <==> !Aborts(old(s), tgid, tid)
      ensures ok ==> Found(old(s), s, t, tgid, tid, pending)
      ensures old(Orderly()) && Fits(tgid, tid) ==> ok && !Moves(old(s), tgid, tid) && Orderly()
      decreases if tgid == tid then 0 else 1, 2
    {
      t := s.index[tid];
      IndexFacts(s, tid);
      if Orderly() { OwnTgid(s, t, group); }
      ok := Update(t, tgid, pending);
      if ok {
        ghost var m := s;
        Take(t);
        FoundAgain(old(s), m, s, t, tgid, tid, pending);
      }
    }

    /** thread__get (src/thread.c:40-48). */
    method Take(t: Id)
      requires Inv(s) && t in s.threads
      modifies this
      ensures Inv(s) && s == GetThread(old(s), t) && (old(Orderly()) ==> Orderly())
    {
      GetThreadInv(s, t);
      if Orderly() { GroupedRefs(s.threads, s.index, group, t, s.threads[t].refs + 1); }
      s := GetThread(s, t);
    }

    /** machine__update_thread_tgid (src/machine.c:144-185). */
    method Update(t: Id, tgid: Pid, ghost pending: set<Id>) returns (ok: bool)
      requires Inv(s) && Ready(s.threads, pending) && Idle(s, tgid, pending)
      requires t in s.threads && s.threads[t].linked && t !in pending
      modifies this
      ensures ok <==> !Aborts(old(s), tgid, old(s).threads[t].tid)
      ensures ok ==> Updated(old(s), s, t, tgid, pending)
      decreases if tgid == s.threads[t].tid then 0 else 1, 1
    {
      IndexOf(s, t);
      ReadyAt(s.threads, pending, t);
      if tgid == s.threads[t].tgid {
        GrowsSelf(s);
        GrownWiden(s, s, {}, {}, {}, {tgid, s.threads[t].tid});
        return true;
      }
      SetTgidInv(s, t, tgid);
      ReadyPut(s.threads, pending, t, s.threads[t].(tgid := tgid));
      GrowsPut(s, t, s.threads[t].(tgid := tgid), s.held, {tgid, s.threads[t].tid});
      s := SetTgid(s, t, tgid);
      assert old(s).(threads := old(s).threads[t := s.threads[t]], held := old(s).held) == s;
      if tgid == s.threads[t].tid { return true; }
      ghost var a := s;
      ok := Regroup(t, tgid, pending);
      if ok { UpdatedMoved(old(s), a, s, t, tgid, pending); }
    }

    /** The thread leaves its address space, which must be empty, for that of its new leader. */
    method Regroup(t: Id, tgid: Pid, ghost pending: set<Id>) returns (ok: bool)
      requires Inv(s) && Ready(s.threads, pending) && Idle(s, tgid, pending)
      requires t in s.threads && s.threads[t].linked && t !in pending && tgid == s.threads[t].tgid != s.threads[t].tid
      modifies this
      ensures ok <==> WithLeader(old(s), tgid, t) || !Full(old(s), t)
      ensures ok ==> Regrouped(old(s), s, t, tgid, pending)
      decreases 1, 0
    {
      MapsInSpaces(s, t);
      ReadyAt(s.threads, pending, t);
      if tgid in s.index { IndexFacts(s, tgid); }
      var found, l := FindNew(tgid, tgid, pending);
      ghost var a := s;
      LeaderKnown(old(s), a, t, l, tgid, pending);
      if s.threads[t].maps == s.threads[l].maps {
        RegroupedLeak(old(s), s, t, l, tgid, pending);
        return true;
      }
      if s.spaces[s.threads[t].maps.value].entries != [] { return false; }
      ok := true;
      Leave(t);
      ghost var b := s;
      Share(l, t);
      RegroupedMoved(old(s), a, b, s, t, l, tgid, pending);
    }

    /** The thread is new (src/machine.c:228-256). */
    method Create(tgid: Pid, tid: Pid, ghost pending: set<Id>) returns (t: Id)
      requires Inv(s) && Ready(s.threads, pending) && Idle(s, tgid, pending) && tid !in s.index
      modifies this
      ensures Found(old(s), s, t, tgid, tid, pending)
      ensures tgid == tid ==> s.threads[t].maps.value !in old(s).spaces
      ensures old(Orderly()) && Fits(tgid, tid) ==> Orderly()
      decreases if tgid == tid then 0 else 1, 2
    {
      t := Begin(tgid, tid, pending);
      ghost var a := s;
      InitMaps(t, pending);
      ghost var b := s;
      Take(t);
      FoundNew(old(s), a, b, s, t, tgid, tid, pending);
    }

    method Begin(tgid: Pid, tid: Pid, ghost pending: set<Id>) returns (t: Id)
      requires Inv(s) && Ready(s.threads, pending) && tid !in s.index
      modifies this
      ensures Inv(s) && Opening(s, t, pending) && s.threads[t].tid == tid && s.threads[t].tgid == tgid
      ensures Grows(old(s), s, {}, {}) && t !in old(s).threads && s.held == old(s.held) && s.spaces == old(s).spaces
      ensures tgid in s.index && tgid != tid ==> tgid in old(s).index && s.index[tgid] == old(s).index[tgid]
      ensures old(Orderly()) && Fits(tgid, tid) ==> Orderly()
    {
      t := s.next;
      NewThreadInv(s, tgid, tid);
      if Orderly() && Fits(tgid, tid) { GroupedNew(s, group, tgid, tid); }
      s := NewThread(s, tgid, tid);
      GrowsNew(old(s), s, t, tgid, tid, pending);
    }

    /** thread__init_maps (src/thread.c:65-80): a new address space for a leader, the leader's for any other thread. */
    method InitMaps(t: Id, ghost pending: set<Id>)
      requires Inv(s) && Opening(s, t, pending)
      requires s.threads[t].tgid != s.threads[t].tid ==> Idle(s, s.threads[t].tgid, pending)
      modifies this
      ensures Settles(old(s), s, t, pending)
      ensures s.threads[t].tgid == s.threads[t].tid ==> s.threads[t].maps.value !in old(s).spaces
      ensures old(Orderly()) && Fits(s.threads[t].tgid, s.threads[t].tid) ==> Orderly()
      decreases if s.threads[t].tgid == s.threads[t].tid then 0 else 1, 1
    {
      if s.threads[t].tgid == s.threads[t].tid {
        Own(t, pending);
      } else {
        Join(t, pending);
      }
    }

    method Own(t: Id, ghost pending: set<Id>)
      requires Inv(s) && Opening(s, t, pending) && s.threads[t].tgid == s.threads[t].tid
      modifies this
      ensures Settles(old(s), s, t, pending) && s.threads[t].maps.value !in old(s).spaces
      ensures old(Orderly()) ==> Orderly()
    {
      var x := s.next;
      NewSpaceInv(s);
      s := NewSpace(s);
      AttachThreadInv(s, t, x);
      if Orderly() { OwnGrouped(s, t, x, group); }
      s := AttachThread(s, t, x);
      GrowsOwn(old(s), s, t, pending);
    }

    method Join(t: Id, ghost pending: set<Id>)
      requires Inv(s) && Opening(s, t, pending)
      requires s.threads[t].tgid != s.threads[t].tid && Idle(s, s.threads[t].tgid, pending)
      modifies this
      ensures Settles(old(s), s, t, pending)
      ensures old(Orderly()) && Fits(s.threads[t].tgid, s.threads[t].tid) ==> Orderly()
      decreases 1, 0
    {
      IndexOf(s, t);
      var tgid := s.threads[t].tgid;
      if tgid in s.index { IndexFacts(s, tgid); }
      var ok, l := FindNew(tgid, tgid, pending + {t});
      ghost var a := s;
      JoinFacts(old(s), a, t, l, tgid, pending);
      Share(l, t);
      Joined(old(s), a, s, t, l, tgid, pending);
      if old(Orderly()) && Fits(tgid, old(s).threads[t].tid) { ShareGrouped(a, s, l, t, group); }
    }

    /** thread->maps = maps__get(leader->maps), then thread__put(leader) (src/thread.c:74-75, src/machine.c:176-178). */
    method Share(l: Id, t: Id)
      requires Inv(s) && l in s.threads && t in s.threads && l != t && l in s.held.threads && s.threads[l].linked
      requires s.threads[l].maps.Some? && s.threads[t].maps.None?
      modifies this
      ensures Inv(s) && Shares(old(s), s, l, t)
    {
      var x := s.threads[l].maps.value;
      MapsInSpaces(s, l);
      GetSpaceInv(s, x);
      s := GetSpace(s, x);
      AttachThreadInv(s, t, x);
      s := AttachThread(s, t, x);
      LinkedStays(s, l);
      ThreadPut(l);
      assert s.held.spaces == old(s).held.spaces;
    }

    // -------------------------------------------------------------- mappings

    /** dsos__findnew (src/dso.c:577-604): the listed DSO of that name, or a new one at the end of the list. */
    method FindNewDso(name: string) returns (d: Id)
      requires Inv(s)
      modifies this
      ensures Inv(s) && s.held == old(s.held).(dsos := old(s.held).dsos + multiset{d})
      ensures s.(dsos := old(s).dsos, list := old(s).list, held := old(s).held, next := old(s).next) == old(s)
      ensures d in s.dsos && d in s.list && s.dsos[d].name == name
      ensures s.list == if Unnamed(old(s), name) then old(s).list + [d] else old(s).list
      ensures Unnamed(old(s), name) ==> d !in old(s).dsos && s.dsos == old(s).dsos[d := Dso(name, 2, true)]
      ensures !Unnamed(old(s), name) ==> d in old(s).dsos && s == GetDso(old(s), d)
    {
      assert ListOkBody(Seal, s.list, s.dsos);
      if e: Id :| e in s.list && e in s.dsos && s.dsos[e].name == name {
        d := e;
        GetDsoInv(s, d);
        s := GetDso(s, d);
      } else {
        d := AddNewDso(name);
      }
    }

    method AddNewDso(name: string) returns (d: Id)
      requires Inv(s) && Unnamed(s, name)
      modifies this
      ensures Inv(s) && s.held == old(s.held).(dsos := old(s.held).dsos + multiset{d})
      ensures s.(dsos := old(s).dsos, list := old(s).list, held := old(s).held, next := old(s).next) == old(s)
      ensures s.list == old(s).list + [d] && d !in old(s).dsos && s.dsos == old(s).dsos[d := Dso(name, 2, true)]
    {
      d := Register(name);
      DsoPut(d);
      assert s.held.dsos == old(s).held.dsos;
      GetDsoInv(s, d);
      s := GetDso(s, d);
    }

    /** dso__new and __dsos__add. */
    method Register(name: string) returns (d: Id)
      requires Inv(s) && Unnamed(s, name)
      modifies this
      ensures Inv(s) && s.held == old(s.held).(dsos := old(s.held).dsos + multiset{d})
      ensures s.(dsos := old(s).dsos, list := old(s).list, held := old(s).held, next := old(s).next) == old(s)
      ensures s.list == old(s).list + [d] && d !in old(s).dsos && s.dsos == old(s).dsos[d := Dso(name, 2, true)]
    {
      d := s.next;
      NewDsoInv(s, name);
      s := NewDso(s, name);
      AddDsoInv(s, d);
      s := AddDso(s, d);
    }

    /** map__new (src/map.c:29-45): the map has a reference to its DSO, and the creator one to the map. */
    method MapNew(name: string) returns (m: Id)
      requires Inv(s)
      modifies this
      ensures Inv(s) && s.held == old(s.held).(maps := old(s.held).maps + multiset{m})
      ensures m !in old(s).maps && m in s.maps && s.maps == old(s).maps[m := Map(s.maps[m].dso, 1, None, None)]
      ensures s.maps[m].dso in s.dsos && s.dsos[s.maps[m].dso].name == name && s.maps[m].dso in s.list
      ensures s.threads == old(s).threads && s.spaces == old(s).spaces && s.index == old(s).index
      ensures s.freed == old(s).freed && s.lists == old(s).lists && s.dead == old(s).dead
    {
      var d := FindNewDso(name);
      m := s.next;
      GetDsoInv(s, d);
      s := GetDso(s, d);
      NewMapInv(s, d);
      s := NewMap(s, d);
      DsoPut(d);
      assert s.held.dsos == old(s).held.dsos;
    }

    /** __maps__insert (src/map.c:169-189): somewhere in the order of the tree, and at the end of the list. */
    method InsertMap(x: Id, m: Id)
      requires Inv(s) && x in s.spaces && m in s.maps && s.maps[m].home.None? && s.maps[m].on.None?
      modifies this
      ensures Inv(s) && s.(maps := old(s).maps, spaces := old(s).spaces, lists := old(s).lists) == old(s)
      ensures s.maps == old(s).maps[m := Map(old(s).maps[m].dso, old(s).maps[m].refs + 1, Some(x), Some(x))]
      ensures s.lists == old(s).lists[x := At(old(s).lists, x) + [m]]
    {
      var at: nat :| at <= |s.spaces[x].entries|;
      LinkMapInv(s, x, m, at);
      s := LinkMap(s, x, m, at);
    }

    /** bpf_unwind_ctx__process_mmap (src/event.c:21-40): the new map ends up with the tree's reference alone. */
    method ProcessMmap(tgid: Pid, tid: Pid, name: string) returns (ok: bool, m: Id)
      requires Inv(s) && Ready(s.threads, {})
      modifies this
      ensures ok <==> !Aborts(old(s), tgid, tid)
      ensures ok ==>
        && Inv(s) && Ready(s.threads, {}) && tid in s.index && s.index[tid] in s.threads
        && s.held == old(s.held).(threads := old(s.held).threads + Leaked(old(s), tgid, tid))
        && m !in old(s).maps && m in s.maps && s.maps[m].dso in s.dsos && s.dsos[s.maps[m].dso].name == name
        && s.maps[m].refs == 1 && s.maps[m].home.Some? && s.maps[m].home == s.threads[s.index[tid]].maps
        && s.maps == old(s).maps[m := s.maps[m]] && s.threads[s.index[tid]].tgid == tgid
        && s.lists == old(s).lists[s.maps[m].home.value := At(old(s).lists, s.maps[m].home.value) + [m]]
      ensures !Moves(old(s), tgid, tid) ==> s.freed == old(s).freed
      ensures old(Orderly()) && Fits(tgid, tid) ==> ok && !Moves(old(s), tgid, tid) && Orderly()
    {
      var th;
      ok, th := FindNew(tgid, tid, {});
      if !ok { m := 0; return; }
      IndexFacts(s, tid);
      ghost var a := s;
      m := AddMap(th, name);
      ReadyPut(a.threads, {}, th, s.threads[th]);
      MapAdded(old(s), a, th, tgid, tid);
    }

    /** map__new and maps__insert. */
    method AddNew(x: Id, name: string) returns (m: Id)
      requires Inv(s) && x in s.spaces
      modifies this
      ensures Inv(s) && s.held == old(s.held).(maps := old(s.held).maps + multiset{m})
      ensures m !in old(s).maps && m in s.maps && s.maps == old(s).maps[m := Map(s.maps[m].dso, 2, Some(x), Some(x))]
      ensures s.maps[m].dso in s.dsos && s.dsos[s.maps[m].dso].name == name
      ensures s.threads == old(s).threads && s.index == old(s).index && s.freed == old(s).freed
      ensures s.lists == old(s).lists[x := At(old(s).lists, x) + [m]]
    {
      m := MapNew(name);
      InsertMap(x, m);
    }

    /** The map of the event, for which nobody keeps a reference (src/event.c:32-38). */
    method AddMap(th: Id, name: string) returns (m: Id)
      requires Inv(s) && th in s.threads && s.threads[th].linked && s.threads[th].maps.Some? && th in s.held.threads
      modifies this
      ensures Inv(s) && s.held == old(s.held).(threads := old(s.held).threads - multiset{th})
      ensures old(s).threads[th].refs > 0
      ensures s.threads == old(s).threads[th := old(s).threads[th].(refs := old(s).threads[th].refs - 1)]
      ensures s.index == old(s).index && s.freed == old(s).freed
      ensures m !in old(s).maps && m in s.maps && s.maps[m].dso in s.dsos && s.dsos[s.maps[m].dso].name == name
      ensures s.maps[m].refs == 1 && s.maps[m].home == s.threads[th].maps
      ensures s.maps == old(s).maps[m := s.maps[m]]
      ensures var x := s.threads[th].maps.value; s.lists == old(s).lists[x := At(old(s).lists, x) + [m]]
      ensures old(Orderly()) ==> Orderly()
    {
      MapsInSpaces(s, th);
      m := AddNew(s.threads[th].maps.value, name);
      ghost var a := s;
      PutBoth(th, m);
      if Grouped(a.threads, a.index, group) {
        GroupedRefs(a.threads, a.index, group, th, a.threads[th].refs - 1);
      }
      assert s.held.maps == old(s).held.maps;
      PutTwice(old(s).maps, m, a.maps[m], s.maps[m]);
    }

    /** thread__put and map__put for handles that are not the last references. */
    method PutBoth(th: Id, m: Id)
      requires Inv(s) && th in s.threads && s.threads[th].linked && th in s.held.threads
      requires m in s.maps && s.maps[m].home.Some? && m in s.held.maps
      modifies this
      ensures Inv(s) && old(s).threads[th].refs > 0 && old(s).maps[m].refs > 0
      ensures s == DropMap(DropThread(old(s), th), m)
    {
      LinkedStays(s, th);
      MapFacts(s, m);
      ThreadPut(th);
      MapPut(m);
    }

    // -------------------------------------------------------------- teardown

    /** __machine__remove_thread (src/machine.c:62-85). */
    method RemoveThread(tid: Pid)
      requires Inv(s) && tid in s.index
      modifies this
      ensures Inv(s) && s.held == old(s.held) && s.index == old(s).index - {tid}
      ensures s.born == old(s).born && s.list == old(s).list && Fewer(old(s).threads, s.threads)
      ensures StillOn(old(s).maps, s.maps)
      ensures var t, h := old(s).index[tid], Registry.Hash(tid);
        s.dead == old(s).dead[h := At(old(s).dead, h) + if t in s.held.threads then [t] else []]
    {
      IndexFacts(s, tid);
      var t := s.index[tid];
      UnlinkThreadInv(s, t);
      s := UnlinkThread(s, t);
      ghost var a := s;
      HeldThread(a, t);
      ThreadPut(t);
      assert s.held.threads == old(s).held.threads;
      FewerUnlinked(old(s), a, s, t);
      DeadAdded(old(s), a, t);
    }

    /** machine__delete_threads (src/machine.c:87-104). */
    method DeleteThreads()
      requires Inv(s)
      modifies this
      ensures Inv(s) && s.held == old(s.held) && s.index == map[] && s.born == old(s).born && s.list == old(s).list
      ensures Fewer(old(s).threads, s.threads) && StillOn(old(s).maps, s.maps)
    {
      FewerSelf(s.threads);
      StillOnSelf(s.maps);
      for i := 0 to Registry.BUCKETS
        invariant Inv(s) && s.held == old(s.held) && s.born == old(s).born && s.list == old(s).list
        invariant Fewer(old(s).threads, s.threads) && StillOn(old(s).maps, s.maps)
        invariant forall p :: p in s.index ==> Registry.Hash(p) >= i
      {
        ghost var a := s;
        DrainBucket(i);
        FewerTrans(old(s).threads, a.threads, s.threads);
        StillOnTrans(old(s).maps, a.maps, s.maps);
      }
      assert s.index == map[];
    }

    /** The threads of one bucket by ascending tid. */
    method DrainBucket(i: nat)
      requires Inv(s)
      modifies this
      ensures Inv(s) && s.held == old(s.held) && s.born == old(s).born && s.list == old(s).list
      ensures Fewer(old(s).threads, s.threads) && StillOn(old(s).maps, s.maps)
      ensures forall p :: p in s.index <==> p in old(s).index && Registry.Hash(p) != i
    {
      FewerSelf(s.threads);
      StillOnSelf(s.maps);
      while exists p :: p in s.index && Registry.Hash(p) == i
        invariant Inv(s) && s.held == old(s.held) && s.born == old(s).born && s.list == old(s).list
        invariant Fewer(old(s).threads, s.threads) && StillOn(old(s).maps, s.maps)
        invariant forall p :: p in s.index ==> p in old(s).index
        invariant forall p :: p in old(s).index && Registry.Hash(p) != i ==> p in s.index
        decreases |s.index.Keys|
      {
        ghost var q :| q in s.index && Registry.Hash(q) == i;
        HasForemost(s.index, i, q);
        var p :| p in s.index && Foremost(s.index, i, p);
        ghost var a := s;
        RemoveThread(p);
        FewerTrans(old(s).threads, a.threads, s.threads);
        StillOnTrans(old(s).maps, a.maps, s.maps);
        assert s.index.Keys == a.index.Keys - {p};
      }
    }

    /** dsos__purge (src/machine.c:21-35). */
    method DsosPurge()
      requires Inv(s)
      modifies this
      ensures Inv(s) && s.list == []
      ensures s.(dsos := old(s).dsos, list := old(s).list) == old(s)
    {
      while s.list != []
        invariant Inv(s) && s.(dsos := old(s).dsos, list := old(s).list) == old(s)
        decreases |s.list|
      {
        UnlistFirstInv(s);
        var d := s.list[0];
        s := UnlistFirst(s);
        DsoPut(d);
        assert s.held.dsos == old(s).held.dsos;
      }
    }

    /**
     machine__delete (src/machine.c:106-128): the threads that are left are those that somebody
     holds, and they are on dead lists, whose heads are freed with the machine.
     */
    method Teardown()
      requires Inv(s)
      modifies this
      ensures Inv(s) && s.held == old(s.held) && s.index == map[] && s.list == [] && s.born == old(s).born
      ensures Fewer(old(s).threads, s.threads) && StillOn(old(s).maps, s.maps)
      ensures forall t :: t in s.threads <==> t in s.held.threads
      ensures (exists b :: At(s.dead, b) != []) <==> s.held.threads != multiset{}
      ensures Gone(s) <==> s.held == Nobody()
    {
      DeleteThreads();
      DsosPurge();
      OnlyHeld(s);
      AllGone(s);
    }
  }
}

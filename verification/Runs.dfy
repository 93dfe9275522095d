/**
 Whole runs of the library's calls from the empty state, and inputs that show what the
 conditions of the contracts exclude.
 */
module Runs {
  import opened RbLinks
  import opened Counts
  import opened Drops
  import opened Groups
  import opened Growth
  import opened Endings
  import opened Lifetimes

  /** A call of a user: a thread handle, an mmap event, a returned handle, the end. */
  datatype Op =
    | Find(tgid: Pid, tid: Pid)
    | Mmap(tgid: Pid, tid: Pid, name: string)
    | Put(thread: Id)
    | Delete

  /** Between two calls: `handles` are those that users were given and have not returned, `up` until the deletion. */
  ghost predicate Rest(s: State, handles: multiset<Id>, up: bool) {
    && Inv(s) && Ready(s.threads, {}) && handles <= s.held.threads
    && s.held == Nobody().(threads := s.held.threads)
    && (!up ==> s.index == map[] && s.list == [])
  }

  /** The references that are left are the users', and the threads are in order. */
  ghost predicate Tidy(l: Ledger, handles: multiset<Id>, up: bool)
    reads l
  {
    l.s.held.threads == handles && (up ==> l.Orderly())
  }

  ghost predicate Requests(op: Op) {
    op.Find? || op.Mmap?
  }

  /** The call fails an assertion of the library. */
  ghost predicate Fails(s: State, up: bool, op: Op) {
    up && Requests(op) && Aborts(s, op.tgid, op.tid)
  }

  /** The event has added one map, in the tree of the thread's address space. */
  ghost predicate Mapped(a: State, b: State, tgid: Pid, tid: Pid, name: string, m: Id) {
    && tid in b.index && b.index[tid] in b.threads && b.threads[b.index[tid]].tgid == tgid
    && m !in a.maps && m in b.maps && b.maps == a.maps[m := b.maps[m]]
    && b.maps[m].home.Some? && b.maps[m].home == b.threads[b.index[tid]].maps
    && b.maps[m].dso in b.dsos && b.dsos[b.maps[m].dso].name == name
  }

  /** A moment between two calls: the state, the users' handles, and whether the machine still exists. */
  datatype Moment = Moment(s: State, handles: multiset<Id>, up: bool)

  /**
   What a call does for its user: a handle to the thread of that tid, a new map, a handle less,
   or the end of the machine, after which no thread is registered.  Anything else changes nothing.
   */
  ghost predicate Effect(a: Moment, op: Op, b: Moment) {
    match op
    case Find(tgid, tid) =>
      b.up == a.up && if !a.up then b == a
      else
        && tid in b.s.index && b.s.index[tid] in b.s.threads
        && b.s.threads[b.s.index[tid]].tid == tid && b.s.threads[b.s.index[tid]].tgid == tgid
        && b.handles == a.handles + multiset{b.s.index[tid]}
    case Mmap(tgid, tid, name) =>
      b.up == a.up && if !a.up then b == a
      else b.handles == a.handles && exists m :: Mapped(a.s, b.s, tgid, tid, name, m)
    case Put(t) =>
      b.up == a.up && if t !in a.handles then b == a
      else
        && b.handles == a.handles - multiset{t} && b.s.held.threads == a.s.held.threads - multiset{t}
        && b.s.index == a.s.index
    case Delete =>
      if !a.up then b == a
      else !b.up && b.handles == a.handles && b.s.held == a.s.held && b.s.index == map[] && b.s.list == []
  }

  /** One call; a handle that the user does not have and a request after the deletion are refused. */
  method Serve(l: Ledger, op: Op, handles: multiset<Id>, up: bool)
    returns (ok: bool, kept: multiset<Id>, still: bool)
    requires Rest(l.s, handles, up)
    modifies l
    ensures ok <==> !Fails(old(l.s), up, op)
    ensures ok ==> Rest(l.s, kept, still)
    ensures ok ==> Effect(Moment(old(l.s), handles, up), op, Moment(l.s, kept, still))
    ensures old(Tidy(l, handles, up)) && (Requests(op) ==> l.Fits(op.tgid, op.tid)) ==> ok && Tidy(l, kept, still)
  {
    ok, kept, still := true, handles, up;
    match op {
      case Find(tgid, tid) =>
        if up {
          var t;
          ok, t := l.FindNew(tgid, tid, {});
          if ok { IndexFacts(l.s, tid); }
          kept := handles + multiset{t};
        }
      case Mmap(tgid, tid, name) =>
        if up {
          var m;
          ok, m := l.ProcessMmap(tgid, tid, name);
          if ok { assert Mapped(old(l.s), l.s, tgid, tid, name, m); }
        }
      case Put(t) =>
        if t in handles {
          Return(l, t);
          kept := handles - multiset{t};
        }
      case Delete =>
        if up {
          End(l);
          still := false;
        }
    }
  }

  method Return(l: Ledger, t: Id)
    requires Inv(l.s) && Ready(l.s.threads, {}) && t in l.s.held.threads
    modifies l
    ensures Inv(l.s) && Ready(l.s.threads, {})
    ensures l.s.held == old(l.s.held).(threads := old(l.s.held).threads - multiset{t})
    ensures l.s.index == old(l.s.index) && l.s.list == old(l.s.list)
    ensures old(l.Orderly()) ==> l.Orderly()
  {
    ghost var a := l.s;
    HeldThread(a, t);
    l.ThreadPut(t);
    if a.threads[t].refs > 1 {
      ReadyPut(a.threads, {}, t, l.s.threads[t]);
      if Grouped(a.threads, a.index, l.group) { GroupedRefs(a.threads, a.index, l.group, t, a.threads[t].refs - 1); }
    } else {
      FewerLess(a.threads, t);
      FewerReady(a.threads, l.s.threads);
      if Grouped(a.threads, a.index, l.group) { GroupedLess(a, l.group, t); }
    }
  }

  method End(l: Ledger)
    requires Inv(l.s) && Ready(l.s.threads, {})
    modifies l
    ensures Inv(l.s) && Ready(l.s.threads, {}) && l.s.held == old(l.s.held) && l.s.index == map[] && l.s.list == []
  {
    ghost var a := l.s;
    l.Teardown();
    FewerReady(a.threads, l.s.threads);
  }

  /**
   Every run of calls from the empty library.  If no request names a tid with another tgid than
   before, none fails, every thread shares its address space with its group alone, users hold all
   the references that are left, and after the deletion everything is freed exactly when they have
   returned them.  In any run no map is ever left on the list of a deleted address space.
   */
  method Run(ops: seq<Op>, ghost group: Pid -> Pid)
    returns (l: Ledger, ok: bool, handles: multiset<Id>, up: bool, ghost trace: seq<Moment>)
    ensures fresh(l) && l.group == group
    ensures ok ==> Traced(ops, trace, Moment(l.s, handles, up))
    ensures ok ==> (up <==> forall i :: 0 <= i < |ops| ==> !ops[i].Delete?)
    ensures ok ==> Rest(l.s, handles, up) && forall m :: !Hangs(l.s, m)
    ensures ok && !up ==> (Gone(l.s) <==> l.s.held.threads == multiset{})
    ensures AllFit(l, ops) ==> ok && Tidy(l, handles, up)
  {
    l := new Ledger(group);
    ok, handles, up := true, multiset{}, true;
    assert ReadyBody(Seal, map[], {});
    ghost var now := Moment(l.s, handles, up);
    trace := [now];
    assert Tracing(Seal, [], trace, now);
    for i := 0 to |ops|
      invariant fresh(l) && l.group == group && (ok ==> Rest(l.s, handles, up))
      invariant ok ==> now == Moment(l.s, handles, up) && Traced(ops[..i], trace, now)
      invariant AllFit(l, ops) ==> ok && Tidy(l, handles, up)
    {
      if ok {
        ok, handles, up := Serve(l, ops[i], handles, up);
        ghost var next := Moment(l.s, handles, up);
        if ok { TracedMore(ops, i, trace, now, next); }
        trace, now := trace + [next], next;
      }
    }
    assert ops[..|ops|] == ops;
    if ok {
      assert Tracing(Seal, ops, trace, now);
      RestEnds(l.s, handles, up);
    }
  }

  /** Between two calls no map hangs, and without the machine only held threads are left. */
  lemma RestEnds(s: State, handles: multiset<Id>, up: bool)
    requires Rest(s, handles, up)
    ensures forall m :: !Hangs(s, m)
    ensures !up ==> (Gone(s) <==> s.held.threads == multiset{})
  {
    forall m ensures !Hangs(s, m) {
      if Hangs(s, m) { NothingHangs(s, m); }
    }
    if !up { AllGone(s); }
  }

  /** The run from the empty library to `now`, call by call; folded until it is needed. */
  ghost predicate Traced(ops: seq<Op>, trace: seq<Moment>, now: Moment) {
    forall k: Seal :: Tracing(k, ops, trace, now)
  }

  ghost predicate Tracing(k: Seal, ops: seq<Op>, trace: seq<Moment>, now: Moment) {
    && |trace| == |ops| + 1 && trace[0] == Moment(Empty(), multiset{}, true) && trace[|ops|] == now
    && (forall i :: 0 <= i < |ops| ==> Effect(trace[i], ops[i], trace[i + 1]))
    && (now.up <==> NoDelete(ops))
  }

  lemma TracedMore(ops: seq<Op>, i: nat, trace: seq<Moment>, now: Moment, next: Moment)
    requires i < |ops| && Traced(ops[..i], trace, now) && Effect(now, ops[i], next)
    ensures Traced(ops[..i + 1], trace + [next], next)
  {
    var es, ts := ops[..i + 1], trace + [next];
    assert Tracing(Seal, ops[..i], trace, now);
    forall j | 0 <= j < i + 1 ensures Effect(ts[j], es[j], ts[j + 1]) {
      if j < i { assert Effect(trace[j], ops[..i][j], trace[j + 1]); }
    }
    UpMore(ops[..i], ops[i], now, next);
    assert es == ops[..i] + [ops[i]];
    assert Tracing(Seal, es, ts, next);
  }

  ghost predicate NoDelete(ops: seq<Op>) {
    forall i :: 0 <= i < |ops| ==> !ops[i].Delete?
  }

  lemma UpMore(part: seq<Op>, op: Op, now: Moment, next: Moment)
    requires Effect(now, op, next) && (now.up <==> NoDelete(part))
    ensures next.up <==> NoDelete(part + [op])
  {
    assert next.up <==> now.up && !op.Delete?;
    assert (part + [op])[|part|] == op;
    forall j | 0 <= j < |part| ensures part[j] == (part + [op])[j] {}
    if !now.up {
      var j :| 0 <= j < |part| && part[j].Delete?;
      assert (part + [op])[j].Delete?;
    }
  }

  ghost predicate AllFit(l: Ledger, ops: seq<Op>) {
    forall i :: 0 <= i < |ops| && Requests(ops[i]) ==> l.Fits(ops[i].tgid, ops[i].tid)
  }

  // ---------------------------------------------------------------- inputs that show what the conditions exclude

  /** A map that is still held when its address space goes hangs on the list of a deleted object. */
  method HeldMapHangs() returns (l: Ledger, m: Id)
    ensures Inv(l.s) && Hangs(l.s, m) && l.s.maps[m].on.value !in l.s.spaces
      && l.s.held == Nobody().(maps := multiset{m})
  {
    var t;
    l, t, m := HoldMap();
    ghost var a := l.s;
    l.ThreadPut(t);
    assert l.s.held.threads == multiset{};
    ghost var b := l.s;
    l.Teardown();
    StillOnTrans(a.maps, b.maps, l.s.maps);
    StaysBehind(a, l.s, m);
  }

  method HoldMap() returns (l: Ledger, t: Id, m: Id)
    ensures fresh(l) && Inv(l.s) && l.s.held == Nobody().(threads := multiset{t}, maps := multiset{m})
    ensures m in l.s.maps && l.s.maps[m].on.Some?
  {
    l := new Ledger(p => p);
    assert ReadyBody(Seal, map[], {});
    var _, u := l.FindNew(5, 5, {});
    t := u;
    m := l.MapNew("libc.so");
    MapsInSpaces(l.s, t);
    l.InsertMap(l.s.threads[t].maps.value, m);
  }

  lemma StaysBehind(a: State, b: State, m: Id)
    requires Inv(b) && StillOn(a.maps, b.maps) && m in a.maps && a.maps[m].on.Some? && m in b.held.maps
    requires b.held.spaces == multiset{} && b.held.threads == multiset{} && b.index == map[]
    ensures Hangs(b, m) && b.maps[m].on.value !in b.spaces
  {
    assert StillOnBody(Seal, a.maps, b.maps);
    HeldMap(b, m);
    OnlyHeld(b);
    assert b.threads == map[];
    NoSpaces(b);
    MapFacts(b, m);
  }

  /** A handle that outlives the machine is on a dead list of the deleted machine. */
  method LateHandle() returns (l: Ledger)
    ensures Inv(l.s) && l.s.index == map[] && exists b :: At(l.s.dead, b) != []
  {
    l := new Ledger(p => p);
    assert ReadyBody(Seal, map[], {});
    var _, t := l.FindNew(5, 5, {});
    assert t in l.s.held.threads;
    l.Teardown();
  }

  /** Thread 7 is seen in group 5, then as its own leader, then in group 5 again: the leader is never freed. */
  method LeaderLeaks() returns (l: Ledger)
    ensures Inv(l.s) && l.s.index == map[] && l.s.list == [] && l.s.held.threads != multiset{} && !Gone(l.s)
  {
    var t, u, v;
    ghost var lead;
    l, t := Visit();
    u, v, lead := Revisit(l, t);
    GiveBack(l, t, multiset{u} + (multiset{v} + multiset{lead}));
    GiveBack(l, u, multiset{v} + multiset{lead});
    GiveBack(l, v, multiset{lead});
    l.Teardown();
  }

  method GiveBack(l: Ledger, t: Id, ghost rest: multiset<Id>)
    requires Inv(l.s) && l.s.held == Nobody().(threads := multiset{t} + rest)
    modifies l
    ensures Inv(l.s) && l.s.held == Nobody().(threads := rest)
  {
    l.ThreadPut(t);
    assert l.s.held.threads == rest;
  }

  method Visit() returns (l: Ledger, t: Id)
    ensures fresh(l) && Inv(l.s) && Ready(l.s.threads, {}) && l.s.held == Nobody().(threads := multiset{t})
    ensures 7 in l.s.index && l.s.index[7] == t && t in l.s.threads && l.s.threads[t].tgid == 5
    ensures LedBy(l.s.threads, l.s.index, l.s.threads[t])
  {
    l := new Ledger(p => if p == 7 then 5 else p);
    assert ReadyBody(Seal, map[], {});
    var _, u := l.FindNew(5, 7, {});
    t := u;
    IndexFacts(l.s, 7);
    assert GroupedBody(Seal, l.s.threads, l.s.index, l.group);
    assert LedBy(l.s.threads, l.s.index, l.s.threads[t]);
  }

  method Revisit(l: Ledger, t: Id) returns (u: Id, v: Id, ghost lead: Id)
    requires Inv(l.s) && Ready(l.s.threads, {}) && l.s.held == Nobody().(threads := multiset{t})
    requires 7 in l.s.index && l.s.index[7] == t && t in l.s.threads && l.s.threads[t].tgid == 5
    requires LedBy(l.s.threads, l.s.index, l.s.threads[t])
    modifies l
    ensures Inv(l.s) && l.s.held == Nobody().(threads := multiset{t} + (multiset{u} + (multiset{v} + multiset{lead})))
  {
    ghost var a := l.s;
    u := Meet(l, 7, 7, multiset{t});
    SameLeader(a, l.s, t, u);
    lead := l.s.index[5];
    v := Meet(l, 5, 7, multiset{u} + (multiset{} + multiset{t}));
    Rearranged(t, u, v, lead);
  }

  method Meet(l: Ledger, tgid: Pid, tid: Pid, ghost h: multiset<Id>) returns (t: Id)
    requires Inv(l.s) && Ready(l.s.threads, {}) && !Aborts(l.s, tgid, tid) && l.s.held == Nobody().(threads := h)
    modifies l
    ensures Found(old(l.s), l.s, t, tgid, tid, {})
    ensures l.s.held == Nobody().(threads := multiset{t} + (Leaked(old(l.s), tgid, tid) + h))
  {
    var _, u := l.FindNew(tgid, tid, {});
    t := u;
    assert l.s.held.threads == multiset{t} + (Leaked(old(l.s), tgid, tid) + h);
  }

  lemma Rearranged(t: Id, u: Id, v: Id, w: Id)
    ensures multiset{v} + (multiset{w} + (multiset{u} + (multiset{} + multiset{t})))
      == multiset{t} + (multiset{u} + (multiset{v} + multiset{w}))
  {
  }

  lemma SameLeader(a: State, b: State, t: Id, u: Id)
    requires Found(a, b, u, 7, 7, {}) && 7 in a.index && a.index[7] == t
    requires t in a.threads && a.threads[t].tgid == 5 && LedBy(a.threads, a.index, a.threads[t])
    ensures Leaks(b, 5, 7)
  {
    var who: set<Pid> := {7, 7};
    GrownAt(a, b, {}, who, t);
    GrownIndex(a, b, {}, who, 7);
    GrownIndex(a, b, {}, who, 5);
    GrownAt(a, b, {}, who, a.index[5]);
  }

  /** A thread whose address space has mappings is seen with another tgid: the library fails its assertion. */
  method MoveFails() returns (ok: bool)
    ensures !ok
  {
    var l := new Ledger(p => p);
    assert ReadyBody(Seal, map[], {});
    var _, m := l.ProcessMmap(5, 5, "libc.so");
    IndexFacts(l.s, 5);
    MapFacts(l.s, m);
    if 6 in l.s.index { IndexFacts(l.s, 6); }
    assert GroupedBody(Seal, l.s.threads, l.s.index, l.group);
    assert !WithLeader(l.s, 6, l.s.index[5]);
    var t;
    ok, t := l.FindNew(6, 5, {});
  }
}

/**
 What is left at the end (src/machine.c:87-128): threads that are held, or nothing.
 */
module Endings {
  import opened Seqs
  import opened RbLinks
  import opened Counts
  import Registry
  import opened Drops
  import opened Growth

  /** Thread `t` is freed, and with it the address space of which it was the last user. */
  ghost predicate Buried(a: State, b: State, t: Id)
    requires t in a.threads
  {
    var r := a.threads[t];
    var h := Registry.Hash(r.tid);
    && !r.linked && b.threads == a.threads - {t} && AThread(t) in b.freed
    && b.dead == a.dead[h := Drop(At(a.dead, h), t)]
    && match r.maps
       case None => b.spaces == a.spaces
       case Some(x) =>
         && x in a.spaces && a.spaces[x].refs > 0 && b.spaces == Less(a.spaces, x)
         && (a.spaces[x].refs == 1 ==> Hung(a, b, x))
  }

  /** No thread is new, and those that are left keep their address space. */
  ghost predicate Fewer(a: map<Id, Thread>, b: map<Id, Thread>) {
    forall k: Seal :: FewerBody(k, a, b)
  }

  ghost predicate FewerBody(k: Seal, a: map<Id, Thread>, b: map<Id, Thread>) {
    forall t :: t in b ==> t in a && b[t].maps == a[t].maps
  }

  lemma FewerSelf(a: map<Id, Thread>)
    ensures Fewer(a, a)
  {
    assert FewerBody(Seal, a, a);
  }

  lemma FewerTrans(a: map<Id, Thread>, b: map<Id, Thread>, c: map<Id, Thread>)
    requires Fewer(a, b) && Fewer(b, c)
    ensures Fewer(a, c)
  {
    assert FewerBody(Seal, a, b) && FewerBody(Seal, b, c);
    assert FewerBody(Seal, a, c);
  }

  /** thread__put after the thread was unlinked. */
  lemma FewerUnlinked(a: State, b: State, c: State, t: Id)
    requires t in a.threads && b == UnlinkThread(a, t) && b.threads[t].refs > 0
    requires c.threads == b.threads - {t} || c == DropThread(b, t)
    ensures Fewer(a.threads, c.threads)
  {
    assert FewerBody(Seal, a.threads, c.threads);
  }

  lemma FewerLess(a: map<Id, Thread>, t: Id)
    ensures Fewer(a, a - {t})
  {
    assert FewerBody(Seal, a, a - {t});
  }

  /** A thread that is put on its dead list and taken off again leaves it as it was. */
  lemma DeadAdded(a: State, b: State, t: Id)
    requires Inv(a) && t in a.threads && a.threads[t].linked && b == UnlinkThread(a, t)
    ensures var h := Registry.Hash(a.threads[t].tid);
      && At(b.dead, h) == At(a.dead, h) + [t] && Drop(At(b.dead, h), t) == At(a.dead, h)
      && b.threads[t].refs == 1 + a.held.threads[t]
      && b.dead[h := Drop(At(b.dead, h), t)] == a.dead[h := At(a.dead, h) + []]
  {
    var h := Registry.Hash(a.threads[t].tid);
    OnNoList(a.dead, DeadPlaces(a.threads), t);
    DropLast(At(a.dead, h), t);
    assert At(a.dead, h) + [] == At(a.dead, h);
    MapsInSpaces(a, t);
  }

  lemma FewerReady(a: map<Id, Thread>, b: map<Id, Thread>)
    requires Ready(a, {}) && Fewer(a, b)
    ensures Ready(b, {})
  {
    assert ReadyBody(Seal, a, {}) && FewerBody(Seal, a, b);
    assert ReadyBody(Seal, b, {});
  }

  ghost predicate Least(a: set<Pid>, p: Pid) {
    p in a && forall q :: q in a ==> p <= q
  }

  lemma {:induction false} Smallest(a: set<Pid>) returns (m: Pid)
    requires a != {}
    ensures Least(a, m)
    decreases |a|
  {
    m :| m in a;
    var b := a - {m};
    assert a == b + {m};
    if b != {} {
      var p := Smallest(b);
      if p < m { m := p; }
    }
  }

  /** The smallest tid of a bucket, which rb_first gives. */
  predicate Foremost(index: map<Pid, Id>, b: nat, p: Pid) {
    p in index && Registry.Hash(p) == b && forall q :: q in index && Registry.Hash(q) == b ==> p <= q
  }

  lemma HasForemost(index: map<Pid, Id>, b: nat, p: Pid)
    requires p in index && Registry.Hash(p) == b
    ensures exists m :: Foremost(index, b, m)
  {
    var a := set q | q in index && Registry.Hash(q) == b;
    assert p in a;
    var m := Smallest(a);
    assert m in index && Registry.Hash(m) == b;
    forall q | q in index && Registry.Hash(q) == b ensures m <= q { assert q in a; }
    assert Foremost(index, b, m);
  }

  /** Every thread, address space and map ever created has been freed exactly once, and no DSO is referred to. */
  ghost predicate Gone(s: State) {
    && s.threads == map[] && s.spaces == map[] && s.maps == map[]
    && NoDup(s.freed) && (forall o :: o in s.freed <==> o in s.born)
    && (forall x :: At(s.lists, x) == []) && (forall b :: At(s.dead, b) == [])
    && (forall d :: d in s.dsos ==> s.dsos[d].refs == 0)
  }

  /** Without linked threads those that are left are held, each on its dead list. */
  lemma OnlyHeld(s: State)
    requires Inv(s) && s.index == map[]
    ensures forall t :: t in s.threads <==> t in s.held.threads
    ensures (exists b :: At(s.dead, b) != []) <==> s.held.threads != multiset{}
  {
    assert ThreadsOkBody(Seal, s.threads, s.held.threads, s.spaces.Keys) && IndexOkBody(Seal, s.index, s.threads);
    assert FiledBody(Seal, s.dead, DeadPlaces(s.threads));
    if t :| t in s.held.threads {
      assert t in DeadPlaces(s.threads);
      assert t in At(s.dead, DeadPlaces(s.threads)[t]);
    }
    if b :| At(s.dead, b) != [] {
      assert At(s.dead, b)[0] in At(s.dead, b);
      assert At(s.dead, b)[0] in DeadPlaces(s.threads);
    }
  }

  /** The exact condition under which nothing is left. */
  lemma AllGone(s: State)
    requires Inv(s) && s.index == map[] && s.list == []
    ensures Gone(s) <==> s.held == Nobody()
  {
    if s.held == Nobody() {
      OnlyHeld(s);
      assert s.threads == map[];
      NoSpaces(s);
      NoMaps(s);
      NoDsos(s);
      NoLists(s);
      assert FreedOkBody(Seal, s.freed, s.born, s.next, KeysOf(s));
      assert forall o :: !Alive(KeysOf(s), o);
    }
    if Gone(s) { NobodyHolds(s); }
  }

  lemma NobodyHolds(s: State)
    requires Inv(s) && Gone(s)
    ensures s.held == Nobody()
  {
    assert ThreadsOkBody(Seal, s.threads, s.held.threads, s.spaces.Keys);
    assert SpacesOkBody(Seal, s.spaces, s.threads, s.held.spaces);
    assert MapsOkBody(Seal, s.maps, s.held.maps, s.dsos.Keys) && DsosOkBody(Seal, s.dsos, s.maps, s.held.dsos);
    assert s.held.threads == multiset{} && s.held.spaces == multiset{};
    assert s.held.maps == multiset{} && s.held.dsos == multiset{};
  }

  lemma NoSpaces(s: State)
    requires Inv(s) && s.threads == map[] && s.held.spaces == multiset{}
    ensures s.spaces == map[]
  {
    assert SpacesOkBody(Seal, s.spaces, s.threads, s.held.spaces);
    forall x ensures Sharers(s.threads, x) == {} {}
    assert s.spaces.Keys == {};
  }

  lemma NoMaps(s: State)
    requires Inv(s) && s.spaces == map[] && s.held == Nobody()
    ensures s.maps == map[]
  {
    assert MapsOkBody(Seal, s.maps, s.held.maps, s.dsos.Keys) && HomesOkBody(Seal, s.maps, s.spaces);
    assert s.maps.Keys == {};
  }

  lemma NoDsos(s: State)
    requires Inv(s) && s.maps == map[] && s.list == [] && s.held == Nobody()
    ensures forall d :: d in s.dsos ==> s.dsos[d].refs == 0
  {
    assert ListOkBody(Seal, s.list, s.dsos) && DsosOkBody(Seal, s.dsos, s.maps, s.held.dsos);
    forall d | d in s.dsos ensures s.dsos[d].refs == 0 {
      assert d !in s.list && Users(s.maps, d) == {};
    }
  }

  lemma NoLists(s: State)
    requires Inv(s) && s.maps == map[] && s.threads == map[]
    ensures (forall x :: At(s.lists, x) == []) && (forall b :: At(s.dead, b) == [])
  {
    NoneFiled(s.lists, MapPlaces(s.maps));
    NoneFiled(s.dead, DeadPlaces(s.threads));
  }

  lemma NoneFiled(lists: Lists, places: map<Id, nat>)
    requires Filed(lists, places) && places == map[]
    ensures forall x :: At(lists, x) == []
  {
    forall x ensures At(lists, x) == [] {
      forall m ensures m !in At(lists, x) { OnNoList(lists, places, m); }
      HasMember(At(lists, x));
    }
  }
}

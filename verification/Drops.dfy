/**
 Giving up references (src/thread.c:27-63, src/map.c:47-118): what stays, what leaves the lists,
 and which maps are left on the list of a deleted address space.
 */
module Drops {
  import opened RbTrees
  import opened RbLinks
  import opened Counts

  /** What dropping references leaves alone; the lists lose what is freed and nothing else. */
  ghost predicate Calm(a: State, b: State) {
    && b.index == a.index && b.list == a.list && b.next == a.next && b.born == a.born && a.freed <= b.freed
    && b.threads.Keys <= a.threads.Keys && b.spaces.Keys <= a.spaces.Keys
    && b.maps.Keys <= a.maps.Keys && b.dsos.Keys == a.dsos.Keys
    && Shed(a.lists, b.lists, b.maps.Keys) && Shed(a.dead, b.dead, b.threads.Keys)
    && StillOn(a.maps, b.maps)
  }

  /** A map that is left is still on its list. */
  ghost predicate StillOn(a: map<Id, Map>, b: map<Id, Map>) {
    forall k: Seal :: StillOnBody(k, a, b)
  }

  ghost predicate StillOnBody(k: Seal, a: map<Id, Map>, b: map<Id, Map>) {
    forall m :: m in b ==> m in a && b[m].on == a[m].on
  }

  lemma StillOnSelf(a: map<Id, Map>)
    ensures StillOn(a, a)
  {
    assert StillOnBody(Seal, a, a);
  }

  lemma StillOnTrans(a: map<Id, Map>, b: map<Id, Map>, c: map<Id, Map>)
    requires StillOn(a, b) && StillOn(b, c)
    ensures StillOn(a, c)
  {
    assert StillOnBody(Seal, a, b) && StillOnBody(Seal, b, c);
    assert StillOnBody(Seal, a, c);
  }

  lemma CalmTrans(a: State, b: State, c: State)
    requires Calm(a, b) && Calm(b, c)
    ensures Calm(a, c)
  {
    StillOnTrans(a.maps, b.maps, c.maps);
    ShedTrans(a.lists, b.lists, c.lists, b.maps.Keys, c.maps.Keys);
    ShedTrans(a.dead, b.dead, c.dead, b.threads.Keys, c.threads.Keys);
  }

  /** Counts, handles and the trees change, but nothing is freed. */
  lemma CalmKeep(a: State, b: State)
    requires Inv(a) && b.(threads := a.threads, spaces := a.spaces, maps := a.maps, dsos := a.dsos, held := a.held) == a
    requires b.threads.Keys == a.threads.Keys && b.spaces.Keys == a.spaces.Keys
    requires b.maps.Keys == a.maps.Keys && b.dsos.Keys == a.dsos.Keys
    requires forall m :: m in b.maps ==> b.maps[m].on == a.maps[m].on
    ensures Calm(a, b)
  {
    assert StillOnBody(Seal, a.maps, b.maps);
    ShedNone(a.lists, MapPlaces(a.maps), b.maps.Keys);
    ShedNone(a.dead, DeadPlaces(a.threads), b.threads.Keys);
  }

  lemma CalmFreeMap(a: State, m: Id)
    requires Inv(a) && m in a.maps && m in a.held.maps && a.maps[m].refs == 1
    ensures Calm(a, FreeMap(a, m))
  {
    FreeMapInv(a, m);
    assert StillOnBody(Seal, a.maps, FreeMap(a, m).maps);
    ShedNone(a.dead, DeadPlaces(a.threads), a.threads.Keys);
  }

  lemma CalmFreeSpace(a: State, x: Id)
    requires Inv(a)
    ensures Calm(a, FreeSpace(a, x))
  {
    assert StillOnBody(Seal, a.maps, a.maps);
    ShedNone(a.lists, MapPlaces(a.maps), a.maps.Keys);
    ShedNone(a.dead, DeadPlaces(a.threads), a.threads.Keys);
  }

  lemma CalmFreeThread(a: State, t: Id)
    requires Inv(a) && t in a.held.threads && t in a.threads && a.threads[t].refs == 1 && a.threads[t].maps.None?
    ensures Calm(a, FreeThread(a, t))
  {
    FreeThreadInv(a, t);
    assert StillOnBody(Seal, a.maps, a.maps);
    ShedNone(a.lists, MapPlaces(a.maps), a.maps.Keys);
  }

  /** The maps outside the tree of `x` stay as they are. */
  ghost predicate Beyond(a: map<Id, Map>, b: map<Id, Map>, x: Id) {
    forall k: Seal :: BeyondBody(k, a, b, x)
  }

  ghost predicate BeyondBody(k: Seal, a: map<Id, Map>, b: map<Id, Map>, x: Id) {
    forall m :: m in a && a[m].home != Some(x) ==> m in b && b[m] == a[m]
  }

  /** The map is in no tree, but on a list. */
  ghost predicate Hangs(s: State, m: Id) {
    m in s.maps && s.maps[m].on.Some? && s.maps[m].home.None?
  }

  /** The maps left on the list of a purged address space are those that somebody holds. */
  ghost predicate Hung(a: State, b: State, x: Id) {
    forall k: Seal :: HungBody(k, a, b, x)
  }

  ghost predicate HungBody(k: Seal, a: State, b: State, x: Id) {
    forall m :: Hangs(b, m) <==> Hangs(a, m) || (m in a.held.maps && m in a.maps && a.maps[m].home == Some(x))
  }

  lemma PurgeHangs(a: State, b: State, x: Id)
    requires Inv(a) && Inv(b) && Calm(a, b) && b.held == a.held && Beyond(a.maps, b.maps, x)
    requires x in b.spaces && b.spaces[x].entries == []
    ensures Hung(a, b, x)
  {
    assert BeyondBody(Seal, a.maps, b.maps, x) && StillOnBody(Seal, a.maps, b.maps);
    forall m ensures Hangs(b, m) <==> Hangs(a, m) || (m in a.held.maps && m in a.maps && a.maps[m].home == Some(x)) {
      if m in a.maps { MapFacts(a, m); }
      if m in b.maps { MapFacts(b, m); }
      if m in a.held.maps { HeldMap(b, m); }
    }
    assert HungBody(Seal, a, b, x);
  }

  /** Maps, their handles and nothing else decide what hangs. */
  lemma HungLike(a: State, b: State, c: State, d: State, x: Id)
    requires Hung(a, b, x) && c.maps == a.maps && c.held.maps == a.held.maps && d.maps == b.maps
    ensures Hung(c, d, x)
  {
    assert HungBody(Seal, a, b, x);
    forall m ensures Hangs(d, m) <==> Hangs(b, m) {}
    forall m ensures Hangs(c, m) <==> Hangs(a, m) {}
    assert HungBody(Seal, c, d, x);
  }

  lemma BeyondFirst(a: map<Id, Map>, b: map<Id, Map>, c: map<Id, Map>, m: Id, x: Id)
    requires m in a && a[m].home == Some(x) && b == a[m := a[m].(home := None)]
    requires c == b - {m} || exists n: nat :: c == b[m := b[m].(refs := n)]
    ensures Beyond(a, c, x)
  {
    assert BeyondBody(Seal, a, c, x);
  }

  lemma BeyondTrans(a: map<Id, Map>, b: map<Id, Map>, c: map<Id, Map>, x: Id)
    requires Beyond(a, b, x) && Beyond(b, c, x)
    ensures Beyond(a, c, x)
  {
    assert BeyondBody(Seal, a, b, x) && BeyondBody(Seal, b, c, x);
    assert BeyondBody(Seal, a, c, x);
  }

  /** Nobody holds a map: none is off its tree and on a list. */
  lemma NothingHangs(s: State, m: Id)
    requires Inv(s) && Hangs(s, m)
    ensures m in s.held.maps
  {
    MapFacts(s, m);
  }

  lemma PutTwice(maps: map<Id, Map>, m: Id, r: Map, q: Map)
    ensures maps[m := r][m := q] == maps[m := q]
  {
  }

  /** The address spaces when a reference to `x` is gone. */
  function Less(spaces: map<Id, Space>, x: Id): map<Id, Space>
    requires x in spaces && spaces[x].refs > 0
  {
    if spaces[x].refs == 1 then spaces - {x} else spaces[x := spaces[x].(refs := spaces[x].refs - 1)]
  }

  function Nobody(): Held {
    Held(multiset{}, multiset{}, multiset{}, multiset{})
  }

  function Empty(): State {
    State(map[], map[], map[], map[], map[], [], map[], map[], Nobody(), 0, {}, [])
  }

  lemma EmptyInv()
    ensures Inv(Empty())
  {
    var s := Empty();
    assert MapPlaces(s.maps) == map[] && DeadPlaces(s.threads) == map[];
    assert FiledBody(Seal, s.lists, map[]);
  }
}
